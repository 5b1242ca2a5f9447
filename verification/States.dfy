/** base::StateType of core/base/base.h, in which core and the web server speak of a task's state. */
module States {
  datatype StateType =
    | UNDEFINED | READY | START | RUNNING | PAUSE | STOP | COMPLETED | ERROR | CANCEL | NOT_RESPONDING
}
