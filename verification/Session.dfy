/** common/mux/session.go on values: the table of the sessions on one connection. */
module Sessions {
  import opened Bytes

  const ID_WRAP: nat := 0x1_0000

  datatype Table<S> = Table(live: map<uint16, S>, count: uint16, closed: bool)

  function Empty<S>(): Table<S> {
    Table(map[], 0, false)
  }

  /** Allocate: the next id, in 16 bits; None once the table is closed. */
  function Allocate<S>(t: Table<S>, make: uint16 -> S): (Table<S>, Option<uint16>) {
    if t.closed then (t, None)
    else
      var id := (t.count + 1) % ID_WRAP;
      (t.(count := id, live := t.live[id := make(id)]), Some(id))
  }

  /** Add a session with an id chosen elsewhere. */
  function Add<S>(t: Table<S>, id: uint16, s: S): Table<S> {
    if t.closed then t else t.(count := (t.count + 1) % ID_WRAP, live := t.live[id := s])
  }

  function Remove<S>(t: Table<S>, id: uint16): Table<S> {
    if t.closed then t else t.(live := t.live - {id})
  }

  function Get<S>(t: Table<S>, id: uint16): Option<S> {
    if t.closed || id !in t.live then None else Some(t.live[id])
  }

  function CloseIfNoSession<S>(t: Table<S>): (Table<S>, bool) {
    if t.closed then (t, true)
    else if |t.live| != 0 then (t, false)
    else (t.(closed := true), true)
  }

  function Close<S>(t: Table<S>): Table<S> {
    if t.closed then t else t.(closed := true, live := map[])
  }

  // ---- Every run ----

  datatype Op<S> = OpAllocate(s: S) | OpAdd(id: uint16, s: S) | OpRemove(id: uint16) | OpCloseIfNoSession | OpClose

  function Step<S>(t: Table<S>, op: Op<S>): Table<S> {
    match op
    case OpAllocate(s) => Allocate(t, _ => s).0
    case OpAdd(id, s) => Add(t, id, s)
    case OpRemove(id) => Remove(t, id)
    case OpCloseIfNoSession => CloseIfNoSession(t).0
    case OpClose => Close(t)
  }

  function Run<S>(t: Table<S>, ops: seq<Op<S>>): Table<S>
    decreases |ops|
  {
    if ops == [] then t else Run(Step(t, ops[0]), ops[1..])
  }

  /** Nothing is live in a closed table. */
  predicate Settled<S>(t: Table<S>) {
    t.closed ==> t.live == map[]
  }

  /** A closed table stays as it is, for every run: closed, empty, and handing out nothing. */
  lemma {:induction false} ClosedIsTerminal<S>(t: Table<S>, ops: seq<Op<S>>, make: uint16 -> S, id: uint16)
    requires Settled(t) && t.closed
    ensures Run(t, ops) == t && Allocate(t, make).1 == None && Get(t, id) == None
    decreases |ops|
  {
    if ops != [] {
      assert Step(t, ops[0]) == t;
      ClosedIsTerminal(t, ops[1..], make, id);
    }
  }

  lemma {:induction false} RunSettles<S>(t: Table<S>, ops: seq<Op<S>>)
    requires Settled(t)
    ensures Settled(Run(t, ops))
    decreases |ops|
  {
    if ops != [] {
      RunSettles(Step(t, ops[0]), ops[1..]);
    }
  }

  /** CloseIfNoSession reports success exactly when nothing is live, and then nothing will be; it never
      takes a session away. */
  lemma ClosesOnlyEmpty<S>(t: Table<S>)
    requires Settled(t)
    ensures var (t', ok) := CloseIfNoSession(t);
            && (ok <==> t.live == map[]) && (ok <==> t'.closed)
            && t'.live == t.live && Settled(t')
  {
    assert |t.live| == 0 <==> t.live == map[] by {
      if t.live != map[] {
        var k :| k in t.live;
        assert k in t.live.Keys && |t.live.Keys| == |t.live|;
      }
    }
  }

  // ---- The count ----

  /** The sessions that came into the table, by allocation or with an id of their own, while it was open. */
  function Came<S>(t: Table<S>, ops: seq<Op<S>>): nat
    decreases |ops|
  {
    if ops == [] then 0
    else (if !t.closed && (ops[0].OpAllocate? || ops[0].OpAdd?) then 1 else 0) + Came(Step(t, ops[0]), ops[1..])
  }

  /** Count is the number of sessions there ever were, in 16 bits, whatever became of them. */
  lemma {:induction false} CountsAll<S>(t: Table<S>, ops: seq<Op<S>>)
    ensures Run(t, ops).count == (t.count + Came(t, ops)) % ID_WRAP
    decreases |ops|
  {
    if ops != [] {
      CountsAll(Step(t, ops[0]), ops[1..]);
      WrapOnce(t.count + 1, Came(Step(t, ops[0]), ops[1..]));
    }
  }

  // ---- The ids handed out ----

  /** The ids of n allocations in a row. */
  function Ids(count: uint16, n: nat): seq<uint16>
    decreases n
  {
    if n == 0 then [] else [(count + 1) % ID_WRAP] + Ids((count + 1) % ID_WRAP, n - 1)
  }

  /** A client's run: nobody adds sessions with ids of their own. */
  predicate NoAdds<S>(ops: seq<Op<S>>) {
    forall i :: 0 <= i < |ops| ==> !ops[i].OpAdd?
  }

  /** The ids handed out in a run. */
  function Allocated<S>(t: Table<S>, ops: seq<Op<S>>): seq<uint16>
    decreases |ops|
  {
    if ops == [] then []
    else
      var rest := Allocated(Step(t, ops[0]), ops[1..]);
      if ops[0].OpAllocate? && !t.closed then [Step(t, ops[0]).count] + rest else rest
  }

  lemma {:induction false} AllocatedAreIds<S>(t: Table<S>, ops: seq<Op<S>>)
    requires NoAdds(ops)
    ensures Allocated(t, ops) == Ids(t.count, |Allocated(t, ops)|)
    ensures t.closed ==> Allocated(t, ops) == []
    decreases |ops|
  {
    if ops != [] {
      AllocatedAreIds(Step(t, ops[0]), ops[1..]);
    }
  }

  lemma WrapOnce(a: nat, b: nat)
    ensures (a % ID_WRAP + b) % ID_WRAP == (a + b) % ID_WRAP
  {
    assert a == ID_WRAP * (a / ID_WRAP) + a % ID_WRAP;
  }

  lemma {:induction false} IdAt(count: uint16, n: nat, i: nat)
    requires i < n
    ensures |Ids(count, n)| == n && Ids(count, n)[i] == (count + 1 + i) % ID_WRAP
    decreases n
  {
    var next := (count + 1) % ID_WRAP;
    assert n > 0 && Ids(count, n) == [next] + Ids(next, n - 1);
    if i > 0 {
      IdAt(next, n - 1, i - 1);
      WrapOnce(count + 1, i);
      assert next + 1 + (i - 1) == next + i;
    } else if n > 1 {
      IdAt(next, n - 1, 0);
    }
  }

  /** On a client's connection the i-th id handed out is i mod 65536: all of
      them are distinct and none is 0 if and only if there are at most 65535. */
  lemma IdsDistinctIff<S>(ops: seq<Op<S>>)
    requires NoAdds(ops)
    ensures var ids := Allocated(Empty<S>(), ops);
            && (forall i :: 0 <= i < |ids| ==> ids[i] == (i + 1) % ID_WRAP)
            && ((forall i, j :: 0 <= i < j < |ids| ==> ids[i] != ids[j] && ids[i] != 0 && ids[j] != 0) && 0 !in ids
                <==> |ids| < ID_WRAP)
  {
    var ids := Allocated(Empty<S>(), ops);
    AllocatedAreIds(Empty<S>(), ops);
    forall i | 0 <= i < |ids| ensures ids[i] == (i + 1) % ID_WRAP {
      IdAt(0, |ids|, i);
    }
    if |ids| >= ID_WRAP {
      assert ids[ID_WRAP - 1] == 0;
    } else {
      assert forall i :: 0 <= i < |ids| ==> ids[i] == i + 1;
    }
  }
}
