/**
 The id arrays core/client/zmclient.cpp hands out: each is obtained by realloc,
 remembered under its connection, and freed with everything else of that
 connection. The allocator may return any address that is not in use.
 */
module ClientBlocks {
  import opened Basics

  type Addr = nat
  type Conn = nat

  /** m_resources[zo].id and .str; no function pushes to str. */
  datatype AllocResource = AllocResource(id: seq<Addr>, str: seq<Addr>)

  /** live: every block malloc has given and free has not taken back; user: those
      of them the library's user owns; open: the connections not yet disconnected. */
  datatype Store = Store(live: set<Addr>, user: set<Addr>, open: set<Conn>, resources: map<Conn, AllocResource>)

  function Tracked(s: Store, c: Conn): set<Addr> {
    if c in s.resources then (set a | a in s.resources[c].id) + (set a | a in s.resources[c].str) else {}
  }

  function AllTracked(s: Store): set<Addr> {
    set c, a | c in s.resources && a in Tracked(s, c) :: a
  }

  /** A block is tracked by one connection at most, and the tracked blocks are
      exactly the live ones the user does not own. */
  ghost predicate Exact(s: Store) {
    && (forall c :: c in s.resources ==> s.resources[c].str == [])
    && (forall c :: c !in s.open ==> Tracked(s, c) == {})
    && (forall c, d, a :: a in Tracked(s, c) && a in Tracked(s, d) ==> c == d)
    && s.user <= s.live && s.user !! AllTracked(s)
    && s.live == s.user + AllTracked(s)
  }

  // ------------------------------------------------------------- sort, unique

  function Insert(x: Addr, s: seq<Addr>): seq<Addr> {
    if s == [] || x <= s[0] then [x] + s else [s[0]] + Insert(x, s[1..])
  }

  function Sort(s: seq<Addr>): seq<Addr> {
    if s == [] then [] else Insert(s[0], Sort(s[1..]))
  }

  /** std::unique: one of each run of equal neighbours. */
  function Unique(s: seq<Addr>): seq<Addr> {
    if |s| <= 1 then s
    else if s[0] == s[1] then Unique(s[1..])
    else [s[0]] + Unique(s[1..])
  }

  predicate Sorted(s: seq<Addr>) {
    forall i, j :: 0 <= i < j < |s| ==> s[i] <= s[j]
  }

  predicate Distinct(s: seq<Addr>) {
    forall i, j :: 0 <= i < j < |s| ==> s[i] != s[j]
  }

  lemma {:induction false} InsertSorts(x: Addr, s: seq<Addr>)
    requires Sorted(s)
    ensures Sorted(Insert(x, s))
    ensures forall a :: a in Insert(x, s) <==> a == x || a in s
  {
    if s != [] && x > s[0] {
      InsertSorts(x, s[1..]);
      var r := Insert(x, s[1..]);
      assert s == [s[0]] + s[1..];
      assert forall i :: 0 <= i < |r| ==> r[i] in r;
    }
  }

  lemma {:induction false} SortSorts(s: seq<Addr>)
    ensures Sorted(Sort(s))
    ensures forall a :: a in Sort(s) <==> a in s
  {
    if s != [] {
      SortSorts(s[1..]);
      InsertSorts(s[0], Sort(s[1..]));
      assert s == [s[0]] + s[1..];
    }
  }

  lemma {:induction false} UniqueKeepsOneOfEach(s: seq<Addr>)
    requires Sorted(s)
    ensures Distinct(Unique(s))
    ensures forall a :: a in Unique(s) <==> a in s
    ensures forall a :: a in Unique(s) ==> s[0] <= a
  {
    if |s| > 1 {
      UniqueKeepsOneOfEach(s[1..]);
      var r := Unique(s[1..]);
      assert s == [s[0]] + s[1..];
      assert forall i :: 0 <= i < |r| ==> r[i] in r;
    }
  }

  // ------------------------------------------------------------------ the calls

  /** zmGetAllSchedulers and zmGetAllWorkers on a connection with some rows to give:
      p is the caller's *out, q what realloc makes of it. */
  predicate ReallocMay(s: Store, p: Option<Addr>, q: Addr) {
    && (p.Some? ==> p.value in s.live)
    && (p == Some(q) || q !in s.live)
  }

  function AfterGetAll(s: Store, c: Conn, p: Option<Addr>, q: Addr): Store {
    var was := if c in s.resources then s.resources[c] else AllocResource([], []);
    var gone := if p.Some? then {p.value} else {};
    Store(s.live - gone + {q}, s.user - gone, s.open, s.resources[c := was.(id := was.id + [q])])
  }

  /** When one call goes well: *out was NULL, or the caller's own, or it came from
      this same connection and realloc has not moved it. */
  predicate GoodOut(s: Store, c: Conn, p: Option<Addr>, q: Addr) {
    p == None || p.value in s.user || (p.value == q && p.value in Tracked(s, c))
  }

  lemma TrackedAfterGetAll(s: Store, c: Conn, p: Option<Addr>, q: Addr)
    ensures var s' := AfterGetAll(s, c, p, q);
            && Tracked(s', c) == Tracked(s, c) + {q}
            && (forall d :: d != c ==> Tracked(s', d) == Tracked(s, d))
            && AllTracked(s') == AllTracked(s) + {q}
  {
    var s' := AfterGetAll(s, c, p, q);
    assert Tracked(s', c) == Tracked(s, c) + {q};
    forall a | a in AllTracked(s) + {q} ensures a in AllTracked(s') {
      if a == q {
        assert c in s'.resources && q in Tracked(s', c);
      } else {
        var d :| d in s.resources && a in Tracked(s, d);
        assert d in s'.resources && a in Tracked(s', d);
      }
    }
    forall a | a in AllTracked(s') ensures a in AllTracked(s) + {q} {
      var d :| d in s'.resources && a in Tracked(s', d);
      if a != q { assert d in s.resources && a in Tracked(s, d); }
    }
  }

  lemma TrackedIsInAll(s: Store)
    ensures forall c, a :: a in Tracked(s, c) ==> a in AllTracked(s)
  {
    forall c, a | a in Tracked(s, c) ensures a in AllTracked(s) {
      assert c in s.resources && a in Tracked(s, c);
    }
  }

  /** The books stay exact if and only if the caller saw to it: a block of another
      connection, or one of this connection that realloc moves, breaks them. */
  lemma GetAllKeepsBooksIff(s: Store, c: Conn, p: Option<Addr>, q: Addr)
    requires Exact(s) && c in s.open && ReallocMay(s, p, q)
    ensures Exact(AfterGetAll(s, c, p, q)) <==> GoodOut(s, c, p, q)
  {
    var s' := AfterGetAll(s, c, p, q);
    TrackedAfterGetAll(s, c, p, q);
    TrackedIsInAll(s);
    TrackedIsInAll(s');
    if p.Some? && p.value !in s.user {
      assert p.value in AllTracked(s);
      var d :| d in s.resources && p.value in Tracked(s, d);
      if p.value != q {
        assert p.value in Tracked(s', d) && p.value !in s'.live;
      } else if d != c {
        assert q in Tracked(s', c) && q in Tracked(s', d);
      }
    }
  }

  /** What a caller can see to before the call: *out is NULL or his own. */
  predicate SafeOut(s: Store, p: Option<Addr>) {
    p == None || p.value in s.user
  }

  /** The books stay exact wherever realloc may put the block if and only if the out
      pointer is NULL or the caller's own. */
  lemma GetAllIsSafeIff(s: Store, c: Conn, p: Option<Addr>)
    requires Exact(s) && c in s.open && (p.Some? ==> p.value in s.live)
    ensures (forall q :: ReallocMay(s, p, q) ==> Exact(AfterGetAll(s, c, p, q))) <==> SafeOut(s, p)
  {
    forall q | ReallocMay(s, p, q) ensures Exact(AfterGetAll(s, c, p, q)) <==> GoodOut(s, c, p, q) {
      GetAllKeepsBooksIff(s, c, p, q);
    }
    if !SafeOut(s, p) {
      var moved := LeastAbove(s.live);
      assert ReallocMay(s, p, moved) && !GoodOut(s, c, p, moved);
    }
  }

  /** Handed to the next call, what a call gave is never safe. */
  lemma OwnResultIsNotSafe(s: Store, c: Conn, p: Option<Addr>, q: Addr)
    requires Exact(s) && c in s.open && ReallocMay(s, p, q) && GoodOut(s, c, p, q)
    ensures !SafeOut(AfterGetAll(s, c, p, q), Some(q))
  {
    GetAllKeepsBooksIff(s, c, p, q);
    TrackedAfterGetAll(s, c, p, q);
  }

  lemma ListIsLive(s: Store, c: Conn)
    requires Exact(s)
    ensures c in s.resources ==> s.resources[c].str == [] && forall a :: a in s.resources[c].id ==> a in s.live
  {
    TrackedIsInAll(s);
    if c in s.resources {
      forall a | a in s.resources[c].id ensures a in s.live {
        assert a in Tracked(s, c);
      }
    }
  }

  lemma SameResources(s: Store, s': Store)
    requires s'.resources == s.resources
    ensures AllTracked(s') == AllTracked(s) && forall c :: Tracked(s', c) == Tracked(s, c)
  {
    assert forall c :: Tracked(s', c) == Tracked(s, c);
  }

  function AfterFree(s: Store, c: Conn): Store {
    Store(s.live - Tracked(s, c), s.user, s.open, s.resources[c := AllocResource([], [])])
  }

  lemma FreeKeepsBooks(s: Store, c: Conn)
    requires Exact(s)
    ensures
      var s' := AfterFree(s, c);
      && Exact(s') && Tracked(s', c) == {} && Tracked(s, c) !! s'.live
      && forall d :: d != c ==> Tracked(s', d) == Tracked(s, d) && Tracked(s, d) <= s'.live
  {
    var s' := AfterFree(s, c);
    TrackedIsInAll(s);
    assert Tracked(s', c) == {};
    assert forall d :: d != c ==> Tracked(s', d) == Tracked(s, d);
    forall a | a in AllTracked(s) && a !in Tracked(s, c) ensures a in AllTracked(s') {
      var d :| d in s.resources && a in Tracked(s, d);
      assert d in s'.resources && a in Tracked(s', d);
    }
    forall a | a in AllTracked(s') ensures a in AllTracked(s) && a !in Tracked(s, c) {
      var d :| d in s'.resources && a in Tracked(s', d);
      assert d in s.resources && a in Tracked(s, d);
    }
  }

  /** A new provider may get the address of one that was deleted. */
  function AfterConnect(s: Store, c: Conn): Store {
    s.(open := s.open + {c}, resources := s.resources[c := AllocResource([], [])])
  }

  function AfterDisconnect(s: Store, c: Conn): Store {
    AfterFree(s, c).(open := s.open - {c})
  }

  lemma ConnectKeepsBooks(s: Store, c: Conn)
    requires Exact(s) && c !in s.open
    ensures Exact(AfterConnect(s, c)) && forall d :: Tracked(AfterConnect(s, c), d) == Tracked(s, d)
  {
    var s' := AfterConnect(s, c);
    assert forall d :: Tracked(s', d) == Tracked(s, d);
    SameTracked(s, s');
  }

  lemma SameTracked(s: Store, s': Store)
    requires forall c :: Tracked(s', c) == Tracked(s, c)
    ensures AllTracked(s') == AllTracked(s)
  {
    TrackedIsInAll(s);
    TrackedIsInAll(s');
    forall a | a in AllTracked(s) ensures a in AllTracked(s') {
      var d :| d in s.resources && a in Tracked(s, d);
      assert a in Tracked(s', d);
    }
    forall a | a in AllTracked(s') ensures a in AllTracked(s) {
      var d :| d in s'.resources && a in Tracked(s', d);
      assert a in Tracked(s, d);
    }
  }

  lemma DisconnectKeepsBooks(s: Store, c: Conn)
    requires Exact(s)
    ensures Exact(AfterDisconnect(s, c)) && forall d :: Tracked(AfterDisconnect(s, c), d) == Tracked(AfterFree(s, c), d)
  {
    FreeKeepsBooks(s, c);
    SameResources(AfterFree(s, c), AfterDisconnect(s, c));
  }

  class Client {
    var live: set<Addr>
    var user: set<Addr>
    var open: set<Conn>
    var resources: map<Conn, AllocResource>

    function View(): Store
      reads this
    {
      Store(live, user, open, resources)
    }

    constructor ()
      ensures View() == Store({}, {}, {}, map[]) && Exact(View())
    {
      live, user, open, resources := {}, {}, {}, map[];
    }

    /** zmCreateConnection, from where the database has answered: zo is the new
        provider's address, None if it could not connect. */
    method CreateConnection(zo: Option<Conn>)
      modifies this`open, this`resources
      ensures View() == if zo == None then old(View()) else AfterConnect(old(View()), zo.value)
    {
      if zo.Some? {
        open := open + {zo.value};
        resources := resources[zo.value := AllocResource([], [])];
      }
    }

    /** rows is how many ids the database returned; a null connection is None. */
    method GetAll(zo: Option<Conn>, rows: nat, out: Option<Addr>, q: Addr) returns (count: nat, out': Option<Addr>)
      requires zo.Some? && rows > 0 ==> ReallocMay(View(), out, q)
      modifies this
      ensures zo == None ==> count == 0 && out' == out && View() == old(View())
      ensures zo.Some? && rows == 0 ==> count == 0 && out' == None && View() == old(View())
      ensures zo.Some? && rows > 0 ==>
                count == rows && out' == Some(q) && View() == AfterGetAll(old(View()), zo.value, out, q)
    {
      if zo == None {
        return 0, out;
      }
      if rows > 0 {
        live := if out.Some? then live - {out.value} + {q} else live + {q};
        user := if out.Some? then user - {out.value} else user;
        out' := Some(q);
        if zo.value !in resources {
          resources := resources[zo.value := AllocResource([], [])];
        }
        var r := resources[zo.value];
        resources := resources[zo.value := r.(id := r.id + [q])];
      } else {
        out' := None;
      }
      count := rows;
    }

    /** A block the library's user gets from malloc. */
    method UserMalloc(q: Addr)
      requires q !in live
      modifies this`live, this`user
      ensures View() == Step(old(View()), Op.UserMalloc(q))
    {
      live, user := live + {q}, user + {q};
    }

    method Free(p: Addr)
      requires p in live
      modifies this`live
      ensures live == old(live) - {p}
    {
      live := live - {p};
    }

    /** One list sorted, deduplicated and freed: every block in it exactly once,
        since freeing twice would be freeing what is not live. */
    method FreeEach(list: seq<Addr>)
      requires forall a :: a in list ==> a in live
      modifies this`live
      ensures live == old(live) - set a | a in list
    {
      SortSorts(list);
      UniqueKeepsOneOfEach(Sort(list));
      var ids := Unique(Sort(list));
      var i := 0;
      while i < |ids|
        invariant 0 <= i <= |ids|
        invariant live == old(live) - set a | a in ids[..i]
        invariant forall k :: i <= k < |ids| ==> ids[k] in live
      {
        Free(ids[i]);
        assert ids[..i + 1] == ids[..i] + [ids[i]];
        i := i + 1;
      }
      assert ids[..i] == ids;
      assert (set a | a in ids) == (set a | a in list);
    }

    method FreeResources(zo: Option<Conn>)
      requires Exact(View())
      modifies this`live, this`resources
      ensures View() == if zo == None then old(View()) else AfterFree(old(View()), zo.value)
    {
      if zo == None {
        return;
      }
      var c := zo.value;
      ghost var s := View();
      if c !in resources {
        resources := resources[c := AllocResource([], [])];
      }
      var r := resources[c];
      ListIsLive(s, c);
      FreeEach(r.id);
      FreeEach(r.str);
      resources := resources[c := AllocResource([], [])];
    }

    /** zmDisconnect: the provider goes, its emptied entry stays. */
    method Disconnect(zo: Option<Conn>)
      requires Exact(View())
      modifies this`live, this`open, this`resources
      ensures View() == if zo == None then old(View()) else AfterDisconnect(old(View()), zo.value)
    {
      if zo.Some? {
        FreeResources(zo);
        open := open - {zo.value};
      }
    }
  }

  // ------------------------------------------------------------------- runs

  datatype Op =
    | Connect(c: Conn)
    | Disconnect(c: Conn)
    | GetAll(c: Conn, rows: nat, p: Option<Addr>, q: Addr)
    | FreeAll(c: Conn)
    | UserMalloc(q: Addr)

  function Step(s: Store, op: Op): Store {
    match op
    case Connect(c) => AfterConnect(s, c)
    case Disconnect(c) => AfterDisconnect(s, c)
    case GetAll(c, rows, p, q) => if rows > 0 then AfterGetAll(s, c, p, q) else s
    case FreeAll(c) => AfterFree(s, c)
    case UserMalloc(q) => s.(live := s.live + {q}, user := s.user + {q})
  }

  function RunStore(ops: seq<Op>): Store {
    if ops == [] then Store({}, {}, {}, map[]) else Step(RunStore(ops[..|ops| - 1]), ops[|ops| - 1])
  }

  predicate OpOk(s: Store, op: Op) {
    match op
    case Connect(c) => c !in s.open
    case Disconnect(c) => c in s.open
    case GetAll(c, rows, p, q) => c in s.open && (rows > 0 ==> ReallocMay(s, p, q) && GoodOut(s, c, p, q))
    case FreeAll(c) => c in s.open
    case UserMalloc(q) => q !in s.live
  }

  /** THE BOOKS. Over any run in which callers see to their out pointers the tracked
      blocks are exactly the live ones that are not the user's, each under one
      connection, even when addresses of blocks and of connections are used again;
      a free or a disconnect leaves its connection nothing and touches no other's. */
  lemma {:induction false} RunKeepsBooks(ops: seq<Op>)
    requires forall k :: 0 <= k < |ops| ==> OpOk(RunStore(ops[..k]), ops[k])
    ensures Exact(RunStore(ops))
    ensures ops != [] && (ops[|ops| - 1].FreeAll? || ops[|ops| - 1].Disconnect?) ==>
              var before, c := RunStore(ops[..|ops| - 1]), ops[|ops| - 1].c;
              && Tracked(RunStore(ops), c) == {}
              && Tracked(before, c) !! RunStore(ops).live
              && forall d :: d != c ==>
                   Tracked(RunStore(ops), d) == Tracked(before, d) && Tracked(before, d) <= RunStore(ops).live
  {
    if ops != [] {
      var before, op := ops[..|ops| - 1], ops[|ops| - 1];
      assert forall k :: 0 <= k < |before| ==> before[..k] == ops[..k];
      RunKeepsBooks(before);
      match op {
        case Connect(c) => ConnectKeepsBooks(RunStore(before), c);
        case Disconnect(c) =>
          FreeKeepsBooks(RunStore(before), c);
          DisconnectKeepsBooks(RunStore(before), c);
        case GetAll(c, rows, p, q) => if rows > 0 { GetAllKeepsBooksIff(RunStore(before), c, p, q); }
        case FreeAll(c) => FreeKeepsBooks(RunStore(before), c);
        case UserMalloc(q) => SameResources(RunStore(before), RunStore(ops));
      }
    }
  }

  /** Callers who pass NULL or a block of their own, and only to open connections. */
  predicate CallerOk(s: Store, op: Op) {
    match op
    case GetAll(c, rows, p, q) => c in s.open && (rows > 0 ==> ReallocMay(s, p, q) && SafeOut(s, p))
    case _ => OpOk(s, op)
  }

  /** For such callers nothing depends on what realloc does. */
  lemma CarefulCallersKeepBooks(ops: seq<Op>)
    requires forall k :: 0 <= k < |ops| ==> CallerOk(RunStore(ops[..k]), ops[k])
    ensures Exact(RunStore(ops))
  {
    forall k | 0 <= k < |ops| ensures OpOk(RunStore(ops[..k]), ops[k]) {
      assert CallerOk(RunStore(ops[..k]), ops[k]);
    }
    RunKeepsBooks(ops);
  }

  /** Any such run on the library itself. */
  method Drive(ops: seq<Op>) returns (client: Client)
    requires forall k :: 0 <= k < |ops| ==> OpOk(RunStore(ops[..k]), ops[k])
    ensures fresh(client) && client.View() == RunStore(ops)
  {
    if ops == [] {
      client := new Client();
    } else {
      var n := |ops| - 1;
      assert forall k :: 0 <= k < n ==> ops[..n][..k] == ops[..k];
      client := Drive(ops[..n]);
      assert OpOk(RunStore(ops[..n]), ops[n]);
      RunKeepsBooks(ops[..n]);
      Operate(client, ops[n]);
    }
  }

  method Operate(client: Client, op: Op)
    requires Exact(client.View()) && OpOk(client.View(), op)
    modifies client
    ensures client.View() == Step(old(client.View()), op)
  {
    match op {
      case Connect(c) => client.CreateConnection(Some(c));
      case Disconnect(c) => client.Disconnect(Some(c));
      case GetAll(c, rows, p, q) => var count, out := client.GetAll(Some(c), rows, p, q);
      case FreeAll(c) => client.FreeResources(Some(c));
      case UserMalloc(q) => client.UserMalloc(q);
    }
  }
}
