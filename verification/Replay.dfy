/** common/antireplay/replayfilter.go on values: refusing what was seen not long ago, with two pools reset
    in turn. */
module ReplayWindows {

  /** A pool: what it holds since its last reset, and a script of the calls it refuses without need (a
      false positive, or no room). It never forgets, and never accepts what it holds. */
  datatype Pool<T> = Pool(members: set<T>, calls: nat, refuses: nat -> bool)

  function InsertUnique<T>(p: Pool<T>, x: T): (Pool<T>, bool) {
    if x in p.members || p.refuses(p.calls) then (p.(calls := p.calls + 1), false)
    else (p.(calls := p.calls + 1, members := p.members + {x}), true)
  }

  function Reset<T>(p: Pool<T>): Pool<T> {
    p.(members := {})
  }

  datatype State<T> = State(a: Pool<T>, b: Pool<T>, swap: bool, lastSwap: int)

  /** The first call starts the clock; a clock that stands at 0 is taken for one not started. */
  function Started<T>(s: State<T>, now: int): State<T> {
    if s.lastSwap == 0 then s.(lastSwap := now, a := Reset(s.a), b := Reset(s.b)) else s
  }

  function Swapped<T>(s: State<T>, interval: int, now: int): State<T> {
    if now - s.lastSwap < interval then s
    else s.(a := if s.swap then Reset(s.a) else s.a, b := if s.swap then s.b else Reset(s.b),
            swap := !s.swap, lastSwap := now)
  }

  /** Check. The second pool is not asked when the first refuses. */
  function Check<T>(s: State<T>, interval: int, x: T, now: int): (State<T>, bool) {
    var s1 := Swapped(Started(s, now), interval, now);
    var (a, okA) := InsertUnique(s1.a, x);
    if !okA then (s1.(a := a), false)
    else
      var (b, okB) := InsertUnique(s1.b, x);
      (s1.(a := a, b := b), okB)
  }

  datatype Event<T> = Event(x: T, now: int)

  function Run<T>(s: State<T>, interval: int, es: seq<Event<T>>): State<T>
    decreases |es|
  {
    if es == [] then s else Run(Check(s, interval, es[0].x, es[0].now).0, interval, es[1..])
  }

  predicate Accepted<T(==)>(s: State<T>, interval: int, es: seq<Event<T>>, i: nat)
    requires i < |es|
    decreases |es|
  {
    if i == 0 then Check(s, interval, es[0].x, es[0].now).1
    else Accepted(Check(s, interval, es[0].x, es[0].now).0, interval, es[1..], i - 1)
  }

  /** A clock that starts after zero and does not run backwards. */
  predicate Clocked<T(==)>(es: seq<Event<T>>, from: int) {
    es == [] || (0 < es[0].now && from <= es[0].now && Clocked(es[1..], es[0].now))
  }

  // ---- The window ----

  /** The pool that is reset next. */
  function Next<T>(s: State<T>): Pool<T> {
    if s.swap then s.a else s.b
  }

  /** x was accepted at time t, and the clock stands at `now`: both pools still hold x; or one was
      reset since, and the one reset next holds it; or both were, and then more than the interval has
      passed. */
  predicate Window<T(==)>(s: State<T>, interval: int, x: T, t: int, now: int) {
    && 0 < s.lastSwap <= now && t <= now
    && (|| (x in s.a.members && x in s.b.members && t < s.lastSwap + interval)
        || (t < s.lastSwap && x in Next(s).members)
        || t + interval < s.lastSwap)
  }

  lemma AcceptedOpens<T>(s: State<T>, interval: int, x: T, now: int)
    requires 0 <= s.lastSwap <= now && 0 < now && interval > 0 && Check(s, interval, x, now).1
    ensures Window(Check(s, interval, x, now).0, interval, x, now, now)
  {
  }

  lemma CheckKeepsWindow<T>(s: State<T>, interval: int, x: T, t: int, y: T, was: int, now: int)
    requires Window(s, interval, x, t, was) && was <= now && interval > 0
    ensures Window(Check(s, interval, y, now).0, interval, x, t, now)
    ensures y == x && Check(s, interval, y, now).1 ==> now > t + interval
  {
  }

  lemma {:induction false} RunKeepsWindow<T>(s: State<T>, interval: int, x: T, t: int, was: int, es: seq<Event<T>>,
                                             j: nat)
    requires Window(s, interval, x, t, was) && interval > 0 && Clocked(es, was)
    requires j < |es| && es[j].x == x && Accepted(s, interval, es, j)
    ensures es[j].now > t + interval
    decreases |es|
  {
    CheckKeepsWindow(s, interval, x, t, es[0].x, was, es[0].now);
    if j > 0 {
      RunKeepsWindow(Check(s, interval, es[0].x, es[0].now).0, interval, x, t, es[0].now, es[1..], j - 1);
    }
  }

  /** Two acceptances of the same value are always more than the interval apart, whatever is checked in
      between, whatever the pools refuse without need. */
  lemma {:induction false} AcceptancesApart<T>(s: State<T>, interval: int, from: int, es: seq<Event<T>>, i: nat, j: nat)
    requires interval > 0 && 0 <= s.lastSwap <= from && Clocked(es, from)
    requires i < j < |es| && es[i].x == es[j].x && Accepted(s, interval, es, i) && Accepted(s, interval, es, j)
    ensures es[j].now > es[i].now + interval
    decreases |es|
  {
    var s1 := Check(s, interval, es[0].x, es[0].now).0;
    if i == 0 {
      AcceptedOpens(s, interval, es[0].x, es[0].now);
      RunKeepsWindow(s1, interval, es[0].x, es[0].now, es[0].now, es[1..], j - 1);
    } else {
      AcceptancesApart(s1, interval, es[0].now, es[1..], i - 1, j - 1);
    }
  }

  /** A pool that refuses only what it holds. */
  ghost predicate Exact<T>(p: Pool<T>) {
    forall i :: !p.refuses(i)
  }

  /** Nothing is held that was not checked. */
  ghost predicate Knows<T>(s: State<T>, seen: set<T>) {
    Exact(s.a) && Exact(s.b) && s.a.members <= seen && s.b.members <= seen
  }

  /** The other half: with such pools a value that was never checked before is accepted, whatever was checked
      before it, whatever the clock does. */
  lemma {:induction false} FirstIsAccepted<T>(s: State<T>, interval: int, es: seq<Event<T>>, seen: set<T>, i: nat)
    requires Knows(s, seen) && i < |es| && es[i].x !in seen && forall j :: 0 <= j < i ==> es[j].x != es[i].x
    ensures Accepted(s, interval, es, i)
    decreases |es|
  {
    if i > 0 {
      FirstIsAccepted(Check(s, interval, es[0].x, es[0].now).0, interval, es[1..], seen + {es[0].x}, i - 1);
    }
  }

  /** And no wider window could be promised: with pools that refuse only what they hold, a value is
      accepted again one second after the interval. */
  lemma WindowIsTight(interval: int)
    requires interval > 0
    ensures var p := Pool({}, 0, _ => false);
            var es := [Event(1, 1), Event(0, interval), Event(1, 1 + interval), Event(0, 1 + 2 * interval)];
            && Clocked(es, 0)
            && Accepted(State(p, p, false, 0), interval, es, 1) && Accepted(State(p, p, false, 0), interval, es, 3)
            && es[3].now == es[1].now + interval + 1
  {
    var p := Pool({}, 0, _ => false);
    var es := [Event(1, 1), Event(0, interval), Event(1, 1 + interval), Event(0, 1 + 2 * interval)];
    var s0 := State(p, p, false, 0);
    var s1 := Check(s0, interval, 1, 1).0;
    var s2 := Check(s1, interval, 0, interval).0;
    var s3 := Check(s2, interval, 1, 1 + interval).0;
    var es1, es2, es3 := es[1..], es[2..], es[3..];
    assert es1[1..] == es2 && es2[1..] == es3 && es3[1..] == [];
    assert Clocked(es3, 1 + interval) && Clocked(es2, interval) && Clocked(es1, 1);
    assert Accepted(s2, interval, es2, 1) == Accepted(s3, interval, es3, 0);
    assert Accepted(s1, interval, es1, 2) == Accepted(s2, interval, es2, 1);
    assert Accepted(s0, interval, es, 3) == Accepted(s1, interval, es1, 2);
    assert Accepted(s0, interval, es, 1) == Accepted(s1, interval, es1, 0);
  }

}

/** common/antireplay/replayfilter.go: the filter. */
module ReplayFilters {
  import opened ReplayWindows

  class CuckooFilter<T(==)> {
    const refuses: nat -> bool
    var members: set<T>
    var calls: nat

    ghost function Model(): Pool<T>
      reads this
    {
      Pool(members, calls, refuses)
    }

    constructor (refuses: nat -> bool)
      ensures Model() == Pool({}, 0, refuses)
    {
      this.refuses, members, calls := refuses, {}, 0;
    }

    method Reset()
      modifies this
      ensures Model() == ReplayWindows.Reset(old(Model()))
    {
      members := {};
    }

    method InsertUnique(x: T) returns (ok: bool)
      modifies this
      ensures (Model(), ok) == ReplayWindows.InsertUnique(old(Model()), x)
    {
      ok := x !in members && !refuses(calls);
      calls := calls + 1;
      if ok {
        members := members + {x};
      }
    }
  }

  class ReplayFilter<T(==)> {
    const interval: int
    const poolA: CuckooFilter<T>
    const poolB: CuckooFilter<T>
    var poolSwap: bool
    var lastSwap: int

    ghost predicate Valid() {
      poolA != poolB
    }

    ghost function Model(): State<T>
      reads this, poolA, poolB
    {
      State(poolA.Model(), poolB.Model(), poolSwap, lastSwap)
    }

    /** The source makes the pools when the clock starts; here they exist before, and are emptied then. */
    constructor (interval: int, refusesA: nat -> bool, refusesB: nat -> bool)
      ensures Valid() && this.interval == interval
      ensures Model() == State(Pool({}, 0, refusesA), Pool({}, 0, refusesB), false, 0)
    {
      this.interval := interval;
      poolA := new CuckooFilter(refusesA);
      poolB := new CuckooFilter(refusesB);
      poolSwap, lastSwap := false, 0;
    }

    method Check(sum: T, now: int) returns (ok: bool)
      requires Valid()
      modifies this, poolA, poolB
      ensures (Model(), ok) == ReplayWindows.Check(old(Model()), interval, sum, now)
    {
      if lastSwap == 0 {
        lastSwap := now;
        poolA.Reset();
        poolB.Reset();
      }
      var elapsed := now - lastSwap;
      if elapsed >= interval {
        if poolSwap {
          poolA.Reset();
        } else {
          poolB.Reset();
        }
        poolSwap := !poolSwap;
        lastSwap := now;
      }
      ok := poolA.InsertUnique(sum);
      if ok {
        ok := poolB.InsertUnique(sum);
      }
    }
  }
}
