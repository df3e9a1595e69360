/** app/router/strategy_leastload.go: choosing the outbounds with the least load. Durations are integers;
    the cost scaler, which works in floating point, is a parameter. */
module LeastLoads {
  import opened Bytes

  datatype Node = Node(tag: string, countAll: int, countFail: int, average: int, deviation: int, cost: int)

  // ---- The order ----

  /** The order of Go strings: by bytes, a prefix first. */
  predicate TagLess(a: string, b: string) {
    b != "" && (a == "" || a[0] < b[0] || (a[0] == b[0] && TagLess(a[1..], b[1..])))
  }

  /** The comparator of leastloadSort. */
  predicate Less(l: Node, r: Node) {
    if l.cost != r.cost then l.cost < r.cost
    else if l.average != r.average then l.average < r.average
    else if l.countFail != r.countFail then l.countFail < r.countFail
    else if l.countAll != r.countAll then l.countAll > r.countAll
    else TagLess(l.tag, r.tag)
  }

  lemma {:induction false} TagOrder(a: string, b: string, c: string)
    ensures !TagLess(a, a)
    ensures TagLess(a, b) && TagLess(b, c) ==> TagLess(a, c)
    ensures a != b ==> TagLess(a, b) || TagLess(b, a)
    ensures !(TagLess(a, b) && TagLess(b, a))
  {
    if a != "" {
      TagOrder(a[1..], if b == "" then "" else b[1..], if c == "" then "" else c[1..]);
      if b != "" && a[0] == b[0] && a[1..] == b[1..] {
        assert a == [a[0]] + a[1..] && b == [b[0]] + b[1..];
      }
    }
  }

  /** On nodes with different tags the comparator is a strict total order. */
  lemma LessIsStrictTotalOrder(a: Node, b: Node, c: Node)
    ensures !Less(a, a) && !(Less(a, b) && Less(b, a))
    ensures Less(a, b) && Less(b, c) ==> Less(a, c)
    ensures a.tag != b.tag ==> Less(a, b) || Less(b, a)
  {
    TagOrder(a.tag, b.tag, c.tag);
  }

  /** What the order is for: a node that is no worse in any respect, costs and round trips and failures, with
      at least as many samples, and better in one, comes first; and a lower cost decides by itself. */
  lemma LessPrefersBetter(a: Node, b: Node)
    ensures a.cost < b.cost ==> Less(a, b)
    ensures a.cost <= b.cost && a.average <= b.average && a.countFail <= b.countFail && a.countAll >= b.countAll
            && (a.cost < b.cost || a.average < b.average || a.countFail < b.countFail || a.countAll > b.countAll)
            ==> Less(a, b) && !Less(b, a)
  {
  }

  /** The order of tags: one is a front part of the other, or has the lower character where they first differ. */
  lemma {:induction false} TagLessIff(a: string, b: string)
    ensures TagLess(a, b) <==> a < b || exists k :: 0 <= k < |a| && k < |b| && a[..k] == b[..k] && a[k] < b[k]
  {
    if a != "" && b != "" {
      TagLessIff(a[1..], b[1..]);
      var less := exists k :: 0 <= k < |a| && k < |b| && a[..k] == b[..k] && a[k] < b[k];
      if a[0] == b[0] {
        assert a < b <==> a[1..] < b[1..];
        if k :| 0 <= k < |a| && k < |b| && a[..k] == b[..k] && a[k] < b[k] {
          assert a[1..][..k - 1] == a[..k][1..] == b[..k][1..] == b[1..][..k - 1];
          assert a[1..][k - 1] < b[1..][k - 1];
        }
        if j :| 0 <= j < |a[1..]| && j < |b[1..]| && a[1..][..j] == b[1..][..j] && a[1..][j] < b[1..][j] {
          assert a[..j + 1] == [a[0]] + a[1..][..j] && b[..j + 1] == [b[0]] + b[1..][..j];
          assert a[j + 1] < b[j + 1];
        }
      } else {
        assert a[..0] == b[..0];
        assert forall k :: 0 < k < |a| && k < |b| ==> a[..k][0] == a[0] && b[..k][0] == b[0];
      }
    }
  }

  predicate Sorted(ns: seq<Node>) {
    forall i, j :: 0 <= i < j < |ns| ==> !Less(ns[j], ns[i])
  }

  predicate DistinctTags(ns: seq<Node>) {
    forall i, j :: 0 <= i < j < |ns| ==> ns[i].tag != ns[j].tag
  }

  /** sort.Slice. Its algorithm is not part of the source; on nodes with different tags any sorting
      gives the same list. */
  method Sort(nodes: seq<Node>) returns (r: seq<Node>)
    ensures multiset(r) == multiset(nodes) && Sorted(r)
  {
    r := [];
    for i := 0 to |nodes|
      invariant multiset(r) == multiset(nodes[..i]) && Sorted(r)
    {
      r := Insert(r, nodes[i]);
      assert nodes[..i + 1] == nodes[..i] + [nodes[i]];
    }
    assert nodes[..|nodes|] == nodes;
  }

  method Insert(s: seq<Node>, x: Node) returns (r: seq<Node>)
    requires Sorted(s)
    ensures multiset(r) == multiset(s) + multiset{x} && Sorted(r)
  {
    var i := |s|;
    while i > 0 && Less(x, s[i - 1])
      invariant 0 <= i <= |s| && forall k :: i <= k < |s| ==> Less(x, s[k])
    {
      i := i - 1;
      forall k | i <= k < |s| ensures Less(x, s[k]) {
        if k > i {
          assert !Less(s[k], s[i]);
          LessOrLeast(x, s[i], s[k]);
        }
      }
    }
    r := s[..i] + [x] + s[i..];
    assert s == s[..i] + s[i..];
    forall a, b | 0 <= a < b < |r| ensures !Less(r[b], r[a]) {
      Placed(s, x, i, a, b);
    }
  }

  /** !Less is transitive the way a sort needs it. */
  lemma LessOrLeast(x: Node, y: Node, z: Node)
    ensures Less(x, y) && !Less(z, y) ==> Less(x, z)
    ensures !Less(y, x) && !Less(z, y) ==> !Less(z, x)
  {
    LessIsStrictTotalOrder(x, y, z);
    LessIsStrictTotalOrder(y, z, x);
    LessIsStrictTotalOrder(z, x, y);
    TagOrder(x.tag, y.tag, z.tag);
    TagOrder(y.tag, z.tag, x.tag);
    TagOrder(z.tag, y.tag, x.tag);
  }

  lemma Placed(s: seq<Node>, x: Node, i: nat, a: nat, b: nat)
    requires i <= |s| && Sorted(s) && (forall k :: i <= k < |s| ==> Less(x, s[k]))
    requires i > 0 ==> !Less(x, s[i - 1])
    requires a < b <= |s|
    ensures var r := s[..i] + [x] + s[i..]; !Less(r[b], r[a])
  {
    var r := s[..i] + [x] + s[i..];
    if b == i {
      if a < i - 1 {
        LessOrLeast(s[a], s[i - 1], x);
      }
    } else if a == i {
      LessIsStrictTotalOrder(x, s[b - 1], x);
    }
  }

  lemma FirstIsLeast(a: seq<Node>, j: nat)
    requires Sorted(a) && DistinctTags(a) && j < |a|
    ensures j == 0 || Less(a[0], a[j])
  {
    LessIsStrictTotalOrder(a[0], a[j], a[0]);
  }

  /** Two sorted lists of the same nodes start with the same one. */
  lemma SameHead(a: seq<Node>, b: seq<Node>)
    requires Sorted(a) && Sorted(b) && multiset(a) == multiset(b) && DistinctTags(a) && a != [] && b != []
    ensures a[0] == b[0]
  {
    assert a[0] in multiset(b) && b[0] in multiset(a);
    var i :| 0 <= i < |b| && b[i] == a[0];
    var j :| 0 <= j < |a| && a[j] == b[0];
    LessIsStrictTotalOrder(a[0], b[0], a[0]);
    FirstIsLeast(a, j);
    assert i > 0 ==> !Less(b[i], b[0]);
  }

  lemma SameTail(a: seq<Node>, b: seq<Node>)
    requires a != [] && b != [] && a[0] == b[0] && multiset(a) == multiset(b)
    ensures multiset(a[1..]) == multiset(b[1..])
  {
    assert a == [a[0]] + a[1..] && b == [b[0]] + b[1..];
    assert multiset(a[1..]) == multiset(a) - multiset{a[0]};
    assert multiset(b[1..]) == multiset(b) - multiset{b[0]};
  }

  /** There is only one sorted list of the same nodes. */
  lemma {:induction false} SortedUnique(a: seq<Node>, b: seq<Node>)
    requires Sorted(a) && Sorted(b) && multiset(a) == multiset(b) && DistinctTags(a)
    ensures a == b
    decreases |a|
  {
    hide Less;
    assert |a| == |multiset(a)| == |multiset(b)| == |b|;
    if a != [] {
      SameHead(a, b);
      SameTail(a, b);
      SortedUnique(a[1..], b[1..]);
      assert a == [a[0]] + a[1..] && b == [b[0]] + b[1..];
    }
  }

  // ---- The selection ----

  predicate CostSorted(ns: seq<Node>) {
    forall i, j :: 0 <= i < j < |ns| ==> ns[i].cost <= ns[j].cost
  }

  lemma SortedByCost(ns: seq<Node>)
    requires Sorted(ns)
    ensures CostSorted(ns)
  {
  }

  /** How many nodes, from the front, are under a limit. */
  function Lead(ns: seq<Node>, limit: int): (n: nat)
    ensures n <= |ns|
  {
    if ns == [] || ns[0].cost >= limit then 0 else 1 + Lead(ns[1..], limit)
  }

  lemma {:induction false} LeadIsBelow(ns: seq<Node>, limit: int)
    requires CostSorted(ns)
    ensures forall i :: 0 <= i < |ns| ==> (i < Lead(ns, limit) <==> ns[i].cost < limit)
  {
    if ns != [] {
      LeadIsBelow(ns[1..], limit);
      forall i | 0 <= i < |ns| ensures i < Lead(ns, limit) <==> ns[i].cost < limit {
        assert i > 0 ==> ns[i] == ns[1..][i - 1] && ns[0].cost <= ns[i].cost;
      }
    }
  }

  function Greatest(bs: seq<int>): int
    requires bs != []
  {
    if |bs| == 1 then bs[0] else Max(Greatest(bs[..|bs| - 1]), bs[|bs| - 1])
  }

  /** The number of baselines that are gone through: up to the first at which the nodes below the
      greatest so far are enough, or all of them. */
  function Applied(ns: seq<Node>, bs: seq<int>, expected: int, k: nat): (n: nat)
    requires 0 < k <= |bs|
    ensures k <= n <= |bs|
    decreases |bs| - k
  {
    if k == |bs| || Lead(ns, Greatest(bs[..k])) >= expected then k else Applied(ns, bs, expected, k + 1)
  }

  /** The first baseline that is enough is the one applied. */
  lemma {:induction false} AppliedIsFirst(ns: seq<Node>, bs: seq<int>, expected: int, k: nat)
    requires 0 < k <= |bs|
    ensures var n := Applied(ns, bs, expected, k);
            && k <= n <= |bs| && (n == |bs| || Lead(ns, Greatest(bs[..n])) >= expected)
            && forall j :: k <= j < n ==> Lead(ns, Greatest(bs[..j])) < expected
    decreases |bs| - k
  {
    if k < |bs| && Lead(ns, Greatest(bs[..k])) < expected {
      AppliedIsFirst(ns, bs, expected, k + 1);
    }
  }

  /** How many nodes are selected. */
  function Chosen(ns: seq<Node>, expected: int, bs: seq<int>): (n: nat)
    ensures n <= |ns|
  {
    if ns == [] || expected > |ns| then |ns|
    else if bs == [] then Max(expected, 1)
    else
      var below := Lead(ns, Greatest(bs[..Applied(ns, bs, Max(expected, 1), 1)]));
      if expected > 0 then Max(below, expected) else below
  }

  /** The selection is the nodes below the baseline applied, raised to the expected number if one is
      set; no node left out sorts before one that is in. */
  lemma SelectionMeans(ns: seq<Node>, expected: int, bs: seq<int>)
    requires Sorted(ns) && 0 < |ns| && expected <= |ns| && bs != []
    ensures var n := Chosen(ns, expected, bs);
            var limit := Greatest(bs[..Applied(ns, bs, Max(expected, 1), 1)]);
            && (forall i :: 0 <= i < |ns| ==> (i < n <==> ns[i].cost < limit || i < expected))
            && forall i, j :: 0 <= i < n <= j < |ns| ==> !Less(ns[j], ns[i])
  {
    SortedByCost(ns);
    LeadIsBelow(ns, Greatest(bs[..Applied(ns, bs, Max(expected, 1), 1)]));
  }

  /** How many that are: all, when no more are there than expected; without baselines as many as expected, and
      one if no number is; never fewer than expected if there are enough. */
  lemma SelectionSize(ns: seq<Node>, expected: int, bs: seq<int>)
    ensures var n := Chosen(ns, expected, bs);
            && (expected >= |ns| && ns != [] ==> n == |ns|) && (ns == [] ==> n == 0)
            && (0 < expected <= |ns| ==> n >= expected)
            && (bs == [] && 0 < expected <= |ns| ==> n == expected)
            && (bs == [] && expected <= 0 && ns != [] ==> n == 1)
  {
  }

  /** selectLeastLoad. */
  method SelectLeastLoad(nodes: seq<Node>, expectedSetting: int, baselines: seq<int>) returns (r: seq<Node>)
    requires CostSorted(nodes)  // as leastloadSort leaves them
    ensures r == nodes[..Chosen(nodes, expectedSetting, baselines)]
  {
    if |nodes| == 0 {
      return [];
    }
    var expected, available := expectedSetting, |nodes|;
    if expected > available {
      return nodes;
    }
    if expected <= 0 {
      expected := 1;
    }
    if |baselines| == 0 {
      return nodes[..expected];
    }
    var count := GoThrough(nodes, expected, baselines);
    if expectedSetting > 0 && count < expected {
      count := expected;
    }
    r := nodes[..count];
  }

  /** The loop over the baselines. */
  method GoThrough(nodes: seq<Node>, expected: int, baselines: seq<int>) returns (count: nat)
    requires CostSorted(nodes) && expected > 0 && baselines != []
    ensures count == Lead(nodes, Greatest(baselines[..Applied(nodes, baselines, expected, 1)]))
  {
    count := 0;
    ghost var applied := Applied(nodes, baselines, expected, 1);
    for k := 0 to |baselines|
      invariant count == if k == 0 then 0 else Lead(nodes, Greatest(baselines[..k]))
      invariant count < expected || k == 0
      invariant k < |baselines| ==> Applied(nodes, baselines, expected, k + 1) == applied
      invariant k == |baselines| ==> applied == k
    {
      var baseline := baselines[k];
      ghost var before := count;
      count := Extend(nodes, count, baseline);
      assert baselines[..k + 1][..k] == baselines[..k];
      if k > 0 {
        LeadOfMax(nodes, Greatest(baselines[..k]), baseline);
      }
      if count >= expected {
        return;
      }
    }
  }

  lemma LeadOfMax(ns: seq<Node>, a: int, b: int)
    requires CostSorted(ns)
    ensures Lead(ns, Max(a, b)) == Max(Lead(ns, a), Lead(ns, b))
  {
    if a <= b {
      LeadMonotone(ns, a, b);
    } else {
      LeadMonotone(ns, b, a);
    }
  }

  lemma {:induction false} LeadMonotone(ns: seq<Node>, a: int, b: int)
    requires a <= b
    ensures Lead(ns, a) <= Lead(ns, b)
  {
    if ns != [] {
      LeadMonotone(ns[1..], a, b);
    }
  }

  /** The inner loop: on from `count`, as long as the nodes are below the baseline. */
  method Extend(nodes: seq<Node>, start: nat, baseline: int) returns (count: nat)
    requires CostSorted(nodes) && start <= |nodes|
    ensures count == Max(start, Lead(nodes, baseline))
  {
    count := start;
    LeadIsBelow(nodes, baseline);
    var i := start;
    while i < |nodes|
      invariant start <= i <= |nodes| && count == i
      invariant forall j :: start <= j < i ==> nodes[j].cost < baseline
    {
      if nodes[i].cost >= baseline {
        break;
      }
      count := i + 1;
      i := i + 1;
    }
    assert i > start ==> nodes[i - 1].cost < baseline;
  }

  // ---- From the observations ----

  datatype HealthPing = HealthPing(all: int, fail: int, average: int, deviation: int)

  datatype Status = Status(alive: bool, delay: int, tag: string, ping: Option<HealthPing>)

  const MILLISECOND: int := 1_000_000

  predicate Qualified(v: Status, candidates: set<string>, maxRTT: int) {
    v.alive && (v.delay < Truncated(maxRTT) || maxRTT == 0) && v.tag in candidates
  }

  /** Duration.Milliseconds truncates towards zero. */
  function Truncated(d: int): int {
    if d >= 0 then d / MILLISECOND else -(-d / MILLISECOND)
  }

  function NodeOf(v: Status, scale: (string, int) -> int): Node {
    var delay := v.delay * MILLISECOND;
    if v.ping.None? then Node(v.tag, 1, 1, delay, delay, scale(v.tag, delay))
    else
      var p := v.ping.value;
      Node(v.tag, p.all, p.fail, p.average, p.deviation, scale(v.tag, p.deviation))
  }

  function Candidates(vs: seq<Status>, candidates: set<string>, maxRTT: int, scale: (string, int) -> int): seq<Node> {
    if vs == [] then []
    else
      (if Qualified(vs[0], candidates, maxRTT) then [NodeOf(vs[0], scale)] else [])
      + Candidates(vs[1..], candidates, maxRTT, scale)
  }

  /** What getNodes makes of an outbound that qualifies: the scaler is applied to the deviation its health
      ping found, or to its delay if it has not been pinged; a delay counts as one sample, and as failed. */
  predicate Shows(n: Node, v: Status, scale: (string, int) -> int) {
    && n.tag == v.tag
    && match v.ping
       case Some(p) =>
         && n.average == p.average && n.deviation == p.deviation && n.cost == scale(v.tag, p.deviation)
         && n.countAll == p.all && n.countFail == p.fail
       case None =>
         && n.average == n.deviation == v.delay * MILLISECOND && n.cost == scale(v.tag, v.delay * MILLISECOND)
         && n.countAll == n.countFail == 1
  }

  /** It is alive, it may be chosen, and its delay, in whole milliseconds, is under the limit if there is
      a limit; one below zero lets through only what is at least a millisecond below it. */
  predicate Usable(v: Status, candidates: set<string>, maxRTT: int) {
    && v.alive && v.tag in candidates
    && (maxRTT > 0 ==> (v.delay + 1) * MILLISECOND <= maxRTT)
    && (maxRTT < 0 ==> v.delay * MILLISECOND < maxRTT)
  }

  lemma UnderLimit(d: int, maxRTT: int)
    requires maxRTT != 0
    ensures d < Truncated(maxRTT) <==>
              if maxRTT > 0 then (d + 1) * MILLISECOND <= maxRTT else d * MILLISECOND < maxRTT
  {
  }

  lemma QualifiedIsUsable(v: Status, candidates: set<string>, maxRTT: int, scale: (string, int) -> int)
    ensures Qualified(v, candidates, maxRTT) <==> Usable(v, candidates, maxRTT)
    ensures Shows(NodeOf(v, scale), v, scale)
  {
    if maxRTT != 0 {
      UnderLimit(v.delay, maxRTT);
    }
  }

  /** Every node is that of a usable outbound. */
  ghost predicate OnlyUsable(vs: seq<Status>, candidates: set<string>, maxRTT: int, scale: (string, int) -> int,
                             ns: seq<Node>) {
    forall n :: n in ns ==> exists v :: v in vs && Usable(v, candidates, maxRTT) && Shows(n, v, scale)
  }

  /** Every usable outbound has its node. */
  ghost predicate EveryUsable(vs: seq<Status>, candidates: set<string>, maxRTT: int, scale: (string, int) -> int,
                              ns: seq<Node>) {
    forall v :: v in vs && Usable(v, candidates, maxRTT) ==> exists n :: n in ns && Shows(n, v, scale)
  }

  /** The list before it is sorted. */
  lemma {:induction false} CandidatesAre(vs: seq<Status>, candidates: set<string>, maxRTT: int,
                                         scale: (string, int) -> int)
    ensures OnlyUsable(vs, candidates, maxRTT, scale, Candidates(vs, candidates, maxRTT, scale))
    ensures EveryUsable(vs, candidates, maxRTT, scale, Candidates(vs, candidates, maxRTT, scale))
  {
    hide Usable, Shows, Qualified, NodeOf;
    if vs != [] {
      CandidatesAre(vs[1..], candidates, maxRTT, scale);
      QualifiedIsUsable(vs[0], candidates, maxRTT, scale);
      assert vs == [vs[0]] + vs[1..];
    }
  }

  /** Outbounds with different tags give nodes with different tags, so each gives one. */
  lemma {:induction false} CandidatesDistinct(vs: seq<Status>, candidates: set<string>, maxRTT: int,
                                              scale: (string, int) -> int)
    requires forall i, j :: 0 <= i < j < |vs| ==> vs[i].tag != vs[j].tag
    ensures DistinctTags(Candidates(vs, candidates, maxRTT, scale))
  {
    if vs != [] {
      hide Qualified, OnlyUsable, EveryUsable;
      CandidatesDistinct(vs[1..], candidates, maxRTT, scale);
      CandidatesAre(vs[1..], candidates, maxRTT, scale);
      OthersTags(vs, candidates, maxRTT, scale, Candidates(vs[1..], candidates, maxRTT, scale));
      assert NodeOf(vs[0], scale).tag == vs[0].tag;
    }
  }

  lemma OthersTags(vs: seq<Status>, candidates: set<string>, maxRTT: int, scale: (string, int) -> int, ns: seq<Node>)
    requires vs != [] && forall j :: 0 < j < |vs| ==> vs[0].tag != vs[j].tag
    requires OnlyUsable(vs[1..], candidates, maxRTT, scale, ns)
    ensures forall k :: 0 <= k < |ns| ==> ns[k].tag != vs[0].tag
  {
    forall k | 0 <= k < |ns| ensures ns[k].tag != vs[0].tag {
      assert ns[k] in ns;
      var v :| v in vs[1..] && Shows(ns[k], v, scale);
      var i :| 0 <= i < |vs[1..]| && vs[1..][i] == v;
      assert vs[i + 1] == v;
    }
  }

  lemma SortedNodes(vs: seq<Status>, candidates: set<string>, maxRTT: int, scale: (string, int) -> int, r: seq<Node>)
    requires multiset(r) == multiset(Candidates(vs, candidates, maxRTT, scale))
    ensures OnlyUsable(vs, candidates, maxRTT, scale, r) && EveryUsable(vs, candidates, maxRTT, scale, r)
  {
    hide Usable, Shows, Candidates;
    var ns := Candidates(vs, candidates, maxRTT, scale);
    CandidatesAre(vs, candidates, maxRTT, scale);
    assert forall n :: n in r <==> n in multiset(r);
    assert forall n :: n in ns <==> n in multiset(ns);
    assert OnlyUsable(vs, candidates, maxRTT, scale, r) by { hide EveryUsable; }
    hide OnlyUsable;
  }

  /** getNodes: the qualified outbounds, in the order of the comparator. */
  method GetNodes(vs: seq<Status>, candidates: set<string>, maxRTT: int, scale: (string, int) -> int)
    returns (r: seq<Node>)
    ensures multiset(r) == multiset(Candidates(vs, candidates, maxRTT, scale)) && Sorted(r)
    ensures OnlyUsable(vs, candidates, maxRTT, scale, r) && EveryUsable(vs, candidates, maxRTT, scale, r)
  {
    hide OnlyUsable, EveryUsable, Qualified, NodeOf, Sorted;
    var found: seq<Node> := [];
    ghost var all := Candidates(vs, candidates, maxRTT, scale);
    assert vs[0..] == vs;
    for i := 0 to |vs|
      invariant all == found + Candidates(vs[i..], candidates, maxRTT, scale)
    {
      assert vs[i..][0] == vs[i] && vs[i..][1..] == vs[i + 1..];
      if Qualified(vs[i], candidates, maxRTT) {
        found := found + [NodeOf(vs[i], scale)];
      }
    }
    r := Sort(found);
    SortedNodes(vs, candidates, maxRTT, scale, r);
  }

  /** pickOutbounds: getNodes, then the selection. */
  method PickOutbounds(vs: seq<Status>, candidates: set<string>, maxRTT: int, scale: (string, int) -> int,
                       expected: int, baselines: seq<int>) returns (r: seq<Node>, ghost all: seq<Node>)
    ensures Sorted(all) && multiset(all) == multiset(Candidates(vs, candidates, maxRTT, scale))
    ensures OnlyUsable(vs, candidates, maxRTT, scale, all) && EveryUsable(vs, candidates, maxRTT, scale, all)
    ensures r == all[..Chosen(all, expected, baselines)]
  {
    var qualified := GetNodes(vs, candidates, maxRTT, scale);
    all := qualified;
    SortedByCost(qualified);
    r := SelectLeastLoad(qualified, expected, baselines);
  }
}
