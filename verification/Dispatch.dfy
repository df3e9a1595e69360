/** common/mux/client.go: the limits a client worker puts on its sessions, with any number of Dispatch
    calls at once. Each reading of the table is a step of its own. */
module Dispatches {
  import opened Bytes
  import opened Sessions

  datatype Strategy = Strategy(maxConcurrency: nat, maxConnection: nat)

  predicate IsClosing<S>(s: Strategy, t: Table<S>) {
    s.maxConnection > 0 && t.count >= s.maxConnection
  }

  predicate Crowded<S>(s: Strategy, t: Table<S>) {
    s.maxConcurrency > 0 && |t.live| >= s.maxConcurrency
  }

  predicate IsFull<S>(s: Strategy, t: Table<S>, done: bool) {
    IsClosing(s, t) || done || Crowded(s, t)
  }

  /** Where a caller of Dispatch is: outside, past the count of IsClosing, or past all of IsFull. */
  datatype Phase = Idle | Counted | Checked

  /** The worker and its callers; `total` is the number of sessions ever allocated. */
  datatype World = World(table: Table<nat>, done: bool, total: nat, callers: seq<Phase>)

  datatype Event =
    | CheckCount(i: nat)
    | CheckSize(i: nat)
    | Take(i: nat)
    | Leave(id: uint16)
    | Monitor
    | Finish
    | CloseAll

  function Move(w: World, i: nat, from: Phase, ok: bool, to: Phase): World {
    if i < |w.callers| && w.callers[i] == from
    then w.(callers := w.callers[i := if ok then to else Idle])
    else w
  }

  function Step(s: Strategy, w: World, e: Event): World {
    match e
    case CheckCount(i) => Move(w, i, Idle, !IsClosing(s, w.table) && !w.done, Counted)
    case CheckSize(i) => Move(w, i, Counted, !Crowded(s, w.table) && !w.done, Checked)
    case Take(i) =>
      if i < |w.callers| && w.callers[i] == Checked then
        var (t, id) := Allocate(w.table, _ => w.total);
        w.(table := t, total := if id.Some? then w.total + 1 else w.total, callers := w.callers[i := Idle])
      else w
    case Leave(id) => w.(table := Remove(w.table, id))
    case Monitor => w.(table := CloseIfNoSession(w.table).0, done := w.done || CloseIfNoSession(w.table).1)
    case Finish => w.(done := true)
    case CloseAll => w.(table := Close(w.table), done := true)
  }

  function Run(s: Strategy, w: World, es: seq<Event>): World
    decreases |es|
  {
    if es == [] then w else Run(s, Step(s, w, es[0]), es[1..])
  }

  function Start(k: nat): World {
    World(Empty(), false, 0, seq(k, _ => Idle))
  }

  function Weight(p: Phase, counted: bool): nat {
    if p == Checked || (counted && p == Counted) then 1 else 0
  }

  /** How many callers are past a check: the second one, or also just the first. */
  function Past(callers: seq<Phase>, counted: bool): (n: nat)
    ensures n <= |callers|
  {
    if callers == [] then 0 else Weight(callers[0], counted) + Past(callers[1..], counted)
  }

  lemma {:induction false} PastUpdate(callers: seq<Phase>, i: nat, p: Phase, counted: bool)
    requires i < |callers|
    ensures Past(callers[i := p], counted) + Weight(callers[i], counted) == Past(callers, counted) + Weight(p, counted)
    ensures Weight(callers[i], counted) == 0 ==> Past(callers, counted) < |callers|
  {
    if i == 0 {
      assert callers[0 := p][1..] == callers[1..];
    } else {
      assert callers[i := p][1..] == callers[1..][i - 1 := p];
      PastUpdate(callers[1..], i - 1, p, counted);
    }
  }

  /** With sessions promised to the callers past the checks counted in, neither limit is overrun by more
      than the number of callers less one. */
  ghost predicate Within(s: Strategy, w: World) {
    && (s.maxConcurrency > 0 ==> |w.table.live| + Past(w.callers, false) <= s.maxConcurrency - 1 + |w.callers|)
    && (s.maxConnection > 0 && s.maxConnection - 1 + |w.callers| < ID_WRAP ==>
          w.table.count == w.total && w.total + Past(w.callers, true) <= s.maxConnection - 1 + |w.callers|)
  }

  lemma SizeAfterAdd(live: map<uint16, nat>, id: uint16, v: nat)
    ensures |live[id := v]| <= |live| + 1
  {
    assert live[id := v].Keys == live.Keys + {id};
  }

  lemma SizeAfterRemove(live: map<uint16, nat>, id: uint16)
    ensures |live - {id}| <= |live|
  {
    assert (live - {id}).Keys == live.Keys - {id};
    if id in live {
      assert live.Keys == (live - {id}).Keys + {id};
    } else {
      assert live - {id} == live;
    }
  }

  lemma MoveWithin(s: Strategy, w: World, i: nat, from: Phase, ok: bool, to: Phase)
    requires Within(s, w) && ((from == Idle && to == Counted) || (from == Counted && to == Checked))
    requires ok && to == Counted ==> !IsClosing(s, w.table)
    requires ok && to == Checked ==> !Crowded(s, w.table)
    ensures Within(s, Move(w, i, from, ok, to)) && |Move(w, i, from, ok, to).callers| == |w.callers|
  {
    if i < |w.callers| && w.callers[i] == from {
      PastUpdate(w.callers, i, if ok then to else Idle, true);
      PastUpdate(w.callers, i, if ok then to else Idle, false);
    }
  }

  lemma TakeWithin(s: Strategy, w: World, i: nat)
    requires Within(s, w)
    ensures Within(s, Step(s, w, Take(i))) && |Step(s, w, Take(i)).callers| == |w.callers|
  {
    if i < |w.callers| && w.callers[i] == Checked {
      PastUpdate(w.callers, i, Idle, true);
      PastUpdate(w.callers, i, Idle, false);
      SizeAfterAdd(w.table.live, (w.table.count + 1) % ID_WRAP, w.total);
    }
  }

  lemma StepWithin(s: Strategy, w: World, e: Event)
    requires Within(s, w)
    ensures Within(s, Step(s, w, e)) && |Step(s, w, e).callers| == |w.callers|
  {
    hide Past;
    match e
    case CheckCount(i) => MoveWithin(s, w, i, Idle, !IsClosing(s, w.table) && !w.done, Counted);
    case CheckSize(i) => MoveWithin(s, w, i, Counted, !Crowded(s, w.table) && !w.done, Checked);
    case Take(i) => TakeWithin(s, w, i);
    case Leave(id) => SizeAfterRemove(w.table.live, id);
    case Monitor =>
    case Finish =>
    case CloseAll =>
  }

  lemma {:induction false} RunWithin(s: Strategy, w: World, es: seq<Event>)
    requires Within(s, w)
    ensures Within(s, Run(s, w, es)) && |Run(s, w, es).callers| == |w.callers|
    decreases |es|
  {
    if es != [] {
      StepWithin(s, w, es[0]);
      RunWithin(s, Step(s, w, es[0]), es[1..]);
    }
  }

  lemma {:induction false} StartIsIdle(k: nat, counted: bool)
    ensures Past(seq(k, _ => Idle), counted) == 0
  {
    if k > 0 {
      StartIsIdle(k - 1, counted);
      assert seq(k, _ => Idle)[1..] == seq(k - 1, _ => Idle);
    }
  }

  /** In every run of k callers the sessions alive at once stay below MaxConcurrency + k, and, as long
      as the 16-bit count cannot wrap, the sessions ever allocated below MaxConnection + k. */
  lemma LimitsHold(s: Strategy, k: nat, es: seq<Event>)
    requires k > 0
    ensures var w := Run(s, Start(k), es);
            && (s.maxConcurrency > 0 ==> |w.table.live| <= s.maxConcurrency + k - 1)
            && (s.maxConnection > 0 && s.maxConnection + k - 1 < ID_WRAP ==> w.total <= s.maxConnection + k - 1)
  {
    StartIsIdle(k, false);
    StartIsIdle(k, true);
    RunWithin(s, Start(k), es);
  }

  // ---- The bound is reached ----

  lemma {:induction false} RunAppend(s: Strategy, w: World, a: seq<Event>, b: seq<Event>)
    ensures Run(s, w, a + b) == Run(s, Run(s, w, a), b)
    decreases |a|
  {
    if a == [] {
      assert a + b == b;
    } else {
      assert (a + b)[1..] == a[1..] + b;
      RunAppend(s, Step(s, w, a[0]), a[1..], b);
    }
  }

  /** n sessions are live, with the ids 1 to n. */
  predicate Holds(w: World, n: nat) {
    && !w.done && !w.table.closed && n < ID_WRAP && w.table.count == n && |w.table.live| == n
    && forall id :: id in w.table.live ==> 1 <= id <= n
  }

  lemma RunTwo(s: Strategy, w: World, a: Event, b: Event)
    ensures Run(s, w, [a, b]) == Step(s, Step(s, w, a), b)
  {
    assert [a, b][1..] == [b] && [b][1..] == [];
    assert Run(s, Step(s, w, a), [b]) == Step(s, Step(s, w, a), b);
  }

  predicate Ready(w: World, n: nat, k: nat, j: nat, first: Phase, others: Phase) {
    Holds(w, n) && w.callers == seq(k, i => if i < j then first else others)
  }

  lemma TakeOne(s: Strategy, w: World, n: nat, k: nat, j: nat)
    requires j < k && n + 1 < ID_WRAP && Ready(w, n, k, j, Idle, Checked)
    ensures Ready(Step(s, w, Take(j)), n + 1, k, j + 1, Idle, Checked)
  {
    var live := w.table.live;
    assert live[n + 1 := w.total].Keys == live.Keys + {n + 1};
  }

  /** All callers look before any of them takes. */
  lemma {:induction false} LookAll(s: Strategy, w: World, n: nat, k: nat, j: nat) returns (es: seq<Event>)
    requires j <= k && Ready(w, n, k, j, Checked, Idle) && s.maxConnection == 0 && n < s.maxConcurrency
    ensures Ready(Run(s, w, es), n, k, k, Checked, Idle)
    decreases k - j
  {
    es := [];
    if j < k {
      var look := [CheckCount(j), CheckSize(j)];
      var w1 := Step(s, Step(s, w, look[0]), look[1]);
      assert w1.callers == seq(k, i => if i < j + 1 then Checked else Idle);
      var rest := LookAll(s, w1, n, k, j + 1);
      RunTwo(s, w, look[0], look[1]);
      RunAppend(s, w, look, rest);
      es := look + rest;
    }
  }

  lemma {:induction false} TakeAll(s: Strategy, w: World, n: nat, k: nat, j: nat) returns (es: seq<Event>)
    requires j <= k && n + (k - j) < ID_WRAP && Ready(w, n, k, j, Idle, Checked)
    ensures Holds(Run(s, w, es), n + (k - j)) && Ready(Run(s, w, es), n + (k - j), k, k, Idle, Checked)
    decreases k - j
  {
    es := [];
    if j < k {
      TakeOne(s, w, n, k, j);
      var rest := TakeAll(s, Step(s, w, Take(j)), n + 1, k, j + 1);
      es := [Take(j)] + rest;
      assert es[1..] == rest;
    }
  }

  /** Sequential dispatches fill the worker to one below its limit. */
  lemma {:induction false} Fill(s: Strategy, w: World, n: nat, m: nat, k: nat) returns (es: seq<Event>)
    requires n <= m < ID_WRAP && m < s.maxConcurrency && s.maxConnection == 0
    requires k > 0 && Ready(w, n, k, k, Idle, Idle)
    ensures Ready(Run(s, w, es), m, k, k, Idle, Idle)
    decreases m - n
  {
    es := [];
    if n < m {
      var one := [CheckCount(0), CheckSize(0), Take(0)];
      var w1 := Step(s, Step(s, w, one[0]), one[1]);
      var w2 := Step(s, w1, one[2]);
      assert w2.table.live.Keys == w.table.live.Keys + {n + 1};
      assert w2.callers == seq(k, i => if i < k then Idle else Idle);
      var rest := Fill(s, w2, n + 1, m, k);
      assert one[1..][1..][1..] == [] && Run(s, w, one) == w2;
      RunAppend(s, w, one, rest);
      es := one + rest;
    }
  }

  /** The bound on concurrent sessions is exact: some run reaches it. */
  lemma LimitReached(s: Strategy, k: nat)
    requires k > 0 && s.maxConnection == 0 && 0 < s.maxConcurrency && s.maxConcurrency + k - 1 < ID_WRAP
    ensures exists es :: |Run(s, Start(k), es).table.live| == s.maxConcurrency + k - 1
  {
    var n := s.maxConcurrency - 1;
    assert Start(k).callers == seq(k, i => if i < k then Idle else Idle);
    var a := Fill(s, Start(k), 0, n, k);
    var w1 := Run(s, Start(k), a);
    assert w1.callers == seq(k, i => if i < 0 then Checked else Idle);
    var b := LookAll(s, w1, n, k, 0);
    var w2 := Run(s, w1, b);
    assert w2.callers == seq(k, i => if i < 0 then Idle else Checked);
    var c := TakeAll(s, w2, n, k, 0);
    RunAppend(s, Start(k), a, b);
    RunAppend(s, Start(k), a + b, c);
  }
}
