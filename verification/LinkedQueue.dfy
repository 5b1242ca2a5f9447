/**
 The queue of core/common/queue.h as the object it is: a linked list updated
 in place, with a dummy node at the tail. Called by one thread at a time, each
 method does to the contents exactly what the atomic FIFO does, so that the
 interleaved runs of ConcurrentQueue and these methods have one specification.
 */
module LinkedQueue {
  import opened Basics
  import opened QueueSpec

  class Node<T> {
    var data: Option<T>
    var next: Node?<T>

    constructor ()
      ensures data == None && next == null
    {
      data, next := None, null;
    }
  }

  class Queue<T> {
    var head: Node<T>
    var tail: Node<T>
    var sz: int
    ghost var spine: seq<Node<T>>
    ghost var contents: seq<T>

    ghost predicate Valid()
      reads this, spine
    {
      && |spine| == |contents| + 1
      && head == spine[0] && tail == spine[|contents|]
      && (forall i, j :: 0 <= i < j < |spine| ==> spine[i] != spine[j])
      && (forall i :: 0 <= i < |contents| ==> spine[i].next == spine[i + 1] && spine[i].data == Some(contents[i]))
      && tail.next == null && tail.data == None
      && sz == |contents|
    }

    constructor ()
      ensures Valid() && contents == [] && fresh(spine)
    {
      var dummy := new Node<T>();
      head, tail, sz := dummy, dummy, 0;
      spine, contents := [dummy], [];
    }

    method Push(newValue: T)
      requires Valid()
      modifies this, tail
      ensures Valid() && contents == Apply(Op.Push(newValue), old(contents)).0
      ensures contents == old(contents) + [newValue]
      ensures fresh(set n | n in spine && n !in old(spine))
    {
      var p := new Node<T>();
      tail.data := Some(newValue);
      tail.next := p;
      tail := p;
      sz := sz + 1;
      spine, contents := spine + [p], contents + [newValue];
    }

    /** value is the caller's variable before and after: a failed pop leaves it alone. */
    method TryPop(value: T) returns (ok: bool, value': T)
      requires Valid()
      modifies this, head
      ensures Valid() && contents == Apply(Op.TryPop, old(contents)).0
      ensures Apply(Op.TryPop, old(contents)).1 == if ok then Value(value') else NoElement
      ensures ok <==> old(contents) != []
      ensures ok ==> old(contents) == [value'] + contents
      ensures !ok ==> contents == [] && value' == value
      ensures forall n :: n in spine ==> n in old(spine)
    {
      sz := if 0 < sz - 1 then sz - 1 else 0;
      if head == tail {
        return false, value;
      }
      value' := head.data.value;
      var oldHead := head;
      assert oldHead.next == spine[1];
      head := oldHead.next;
      oldHead.next := null;
      ok := true;
      spine, contents := spine[1..], contents[1..];
    }

    method Front(value: T) returns (ok: bool, value': T)
      requires Valid()
      ensures Apply(Op.Front, contents).1 == if ok then Value(value') else NoElement
      ensures ok <==> contents != []
      ensures ok ==> value' == contents[0]
      ensures !ok ==> value' == value
    {
      ok := head != tail;
      value' := if ok then head.data.value else value;
    }

    method Size() returns (n: int)
      requires Valid()
      ensures Apply(Op.Size, contents).1 == Count(n) && n == |contents|
    {
      n := sz;
    }

    method Empty() returns (b: bool)
      requires Valid()
      ensures Apply(Op.Empty, contents).1 == Flag(b) && (b <==> contents == [])
    {
      b := head == tail;
    }
  }
}
