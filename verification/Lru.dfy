/** common/cache/lru.go: a cache that is looked up from both sides. */
module LruCaches {
  import opened Bytes

  // ---- The cache as an ordered map, most recently touched first ----

  datatype Pair<K, V> = Pair(key: K, value: V)

  predicate Has<K(==), V>(s: seq<Pair<K, V>>, k: K) {
    s != [] && (s[0].key == k || Has(s[1..], k))
  }

  predicate Keyed<K(==), V>(s: seq<Pair<K, V>>) {
    s == [] || (!Has(s[1..], s[0].key) && Keyed(s[1..]))
  }

  function Without<K(==), V>(s: seq<Pair<K, V>>, k: K): seq<Pair<K, V>> {
    if s == [] then [] else if s[0].key == k then Without(s[1..], k) else [s[0]] + Without(s[1..], k)
  }

  function Lookup<K(==), V>(s: seq<Pair<K, V>>, k: K): V
    requires Has(s, k)
  {
    if s[0].key == k then s[0].value else Lookup(s[1..], k)
  }

  /** Get: a hit moves the entry to the front. */
  function Touch<K(==), V>(s: seq<Pair<K, V>>, k: K): seq<Pair<K, V>> {
    if Has(s, k) then [Pair(k, Lookup(s, k))] + Without(s, k) else s
  }

  function Cap(n: int): nat {
    if n < 0 then 0 else n
  }

  function Front<T>(s: seq<T>, n: nat): seq<T> {
    if n < |s| then s[..n] else s
  }

  /** Put: the entry goes to the front, and the last one goes if there are too many. */
  function Insert<K(==), V>(s: seq<Pair<K, V>>, k: K, v: V, cap: int): seq<Pair<K, V>> {
    if Has(s, k) then [Pair(k, v)] + Without(s, k) else Front([Pair(k, v)] + s, Cap(cap))
  }

  /** What the value map says of a value: the key of an element, and whether the element is in the list
      still. */
  datatype Ref<K> = Ref(key: K, live: bool)

  datatype Cache<K, V> = Cache(entries: seq<Pair<K, V>>, names: map<V, Ref<K>>)

  /** The value map when an entry is evicted: its value goes, and elements that are still named are dead. */
  function Forget<K(==), V(==)>(names: map<V, Ref<K>>, last: Pair<K, V>): map<V, Ref<K>> {
    map v | v in names && v != last.value :: if names[v] == Ref(last.key, true) then Ref(last.key, false) else names[v]
  }

  /** Put on both sides: a key that is there already leaves the value map alone. */
  function PutIn<K(==), V(==)>(c: Cache<K, V>, k: K, v: V, cap: int): Cache<K, V> {
    var s := c.entries;
    Cache(Insert(s, k, v, cap),
          if Has(s, k) then c.names
          else
            var m := c.names[v := Ref(k, true)];
            if |s| < cap then m else Forget(m, ([Pair(k, v)] + s)[|s|]))
  }

  /** GetKeyFromValue: the value map is believed, even where it names an element that is gone. */
  function Find<K(==), V(==)>(c: Cache<K, V>, v: V): (Cache<K, V>, Option<K>) {
    if v !in c.names then (c, None)
    else
      var r := c.names[v];
      (if r.live then c.(entries := Touch(c.entries, r.key)) else c, Some(r.key))
  }

  lemma {:induction false} WithoutFacts<K, V>(s: seq<Pair<K, V>>, k: K, x: K)
    ensures Has(Without(s, k), x) <==> x != k && Has(s, x)
    ensures Keyed(s) ==> Keyed(Without(s, k)) && |Without(s, k)| == |s| - if Has(s, k) then 1 else 0
    ensures !Has(s, k) ==> Without(s, k) == s
  {
    if s != [] {
      WithoutFacts(s[1..], k, x);
      WithoutFacts(s[1..], k, s[0].key);
      if s[0].key != k {
        assert Without(s, k)[1..] == Without(s[1..], k);
      }
    }
  }

  lemma {:induction false} HasAt<K, V>(s: seq<Pair<K, V>>, k: K)
    ensures Has(s, k) <==> exists i :: 0 <= i < |s| && s[i].key == k
  {
    if s != [] {
      HasAt(s[1..], k);
      if Has(s[1..], k) {
        var i :| 0 <= i < |s[1..]| && s[1..][i].key == k;
        assert s[i + 1].key == k;
      }
      if i :| 0 <= i < |s| && s[i].key == k && i > 0 {
        assert s[1..][i - 1].key == k;
      }
    }
  }

  /** An ordered map after Put: the new entry is found, the others as before unless evicted, no key
      twice, never more than the capacity, and only the last entry is ever evicted. */
  lemma InsertIsMap<K, V>(s: seq<Pair<K, V>>, k: K, v: V, cap: int)
    requires Keyed(s) && |s| <= Cap(cap)
    ensures var r := Insert(s, k, v, cap);
            && Keyed(r) && |r| <= Cap(cap)
            && (cap > 0 ==> r[0] == Pair(k, v))
            && (Has(s, k) ==> r[1..] == Without(s, k))
            && (!Has(s, k) && |s| < Cap(cap) ==> r[1..] == s)
            && (!Has(s, k) && 0 < |s| == Cap(cap) ==> r[1..] == s[..|s| - 1])
  {
    WithoutFacts(s, k, k);
    var all := [Pair(k, v)] + s;
    assert all[1..] == s;
    if Has(s, k) {
      assert ([Pair(k, v)] + Without(s, k))[1..] == Without(s, k);
    } else {
      FrontKeyed(all, Cap(cap));
      if 0 < |s| == Cap(cap) {
        assert all[..|s|][1..] == s[..|s| - 1];
      }
    }
  }

  lemma {:induction false} FrontKeyed<K, V>(s: seq<Pair<K, V>>, n: nat)
    requires Keyed(s)
    ensures Keyed(Front(s, n)) && forall k :: Has(Front(s, n), k) ==> Has(s, k)
  {
    if 0 < n < |s| {
      FrontKeyed(s[1..], n - 1);
      assert Front(s, n)[1..] == Front(s[1..], n - 1);
    }
  }

  // ---- What is kept: the most recently touched entries ----

  datatype Op<K, V> = OpGet(k: K) | OpFind(v: V) | OpPut(k: K, v: V)

  function Step<K(==), V(==)>(c: Cache<K, V>, op: Op<K, V>, cap: int): Cache<K, V> {
    match op
    case OpGet(k) => c.(entries := Touch(c.entries, k))
    case OpFind(v) => Find(c, v).0
    case OpPut(k, v) => PutIn(c, k, v, cap)
  }

  function Run<K(==), V(==)>(c: Cache<K, V>, ops: seq<Op<K, V>>, cap: int): Cache<K, V>
    decreases |ops|
  {
    if ops == [] then c else Run(Step(c, ops[0], cap), ops[1..], cap)
  }

  /** The key that an operation touches if the cache holds it. */
  function Touches<K(==), V(==)>(c: Cache<K, V>, op: Op<K, V>): Option<K> {
    match op
    case OpGet(k) => Some(k)
    case OpFind(v) => if v in c.names && c.names[v].live then Some(c.names[v].key) else None
    case OpPut(k, _) => Some(k)
  }

  /** The same on a list that forgets nothing: every key ever put, by how recently it was touched; a look-up
      touches a key only if the cache, which is the front of the list, holds it. */
  function Recall<K(==), V(==)>(c: Cache<K, V>, op: Op<K, V>, cap: int): Cache<K, V> {
    var front := Front(c.entries, Cap(cap));
    var k := Touches(c, op);
    Cache(if op.OpPut? then [Pair(op.k, op.v)] + Without(c.entries, op.k)
          else if k.Some? && Has(front, k.value) then Touch(c.entries, k.value) else c.entries,
          Step(c.(entries := front), op, cap).names)
  }

  function RecallAll<K(==), V(==)>(c: Cache<K, V>, ops: seq<Op<K, V>>, cap: int): Cache<K, V>
    decreases |ops|
  {
    if ops == [] then c else RecallAll(Recall(c, ops[0], cap), ops[1..], cap)
  }

  /** Within the front part, taking a key out of the whole is taking it out of the part. */
  lemma {:induction false} FrontHit<K, V>(r: seq<Pair<K, V>>, k: K, n: nat)
    requires Keyed(r) && Has(Front(r, n), k)
    ensures n > 0 && Has(r, k) && Lookup(Front(r, n), k) == Lookup(r, k)
    ensures Front(Without(r, k), n - 1) == Without(Front(r, n), k)
  {
    var f := Front(r, n);
    assert f[1..] == Front(r[1..], n - 1) && f[0] == r[0];
    if r[0].key == k {
      WithoutFacts(r[1..], k, k);
      FrontMisses(r[1..], k, n - 1);
      WithoutFacts(f[1..], k, k);
    } else {
      FrontHit(r[1..], k, n - 1);
      FrontCons(r[0], Without(r[1..], k), n - 1);
    }
  }

  /** Behind the front part, taking a key out does not matter. */
  lemma {:induction false} FrontMiss<K, V>(r: seq<Pair<K, V>>, k: K, n: nat)
    requires Keyed(r) && !Has(Front(r, n), k) && n > 0
    ensures Front(Without(r, k), n - 1) == Front(r, n - 1)
  {
    if r != [] && n > 1 {
      var f := Front(r, n);
      assert f[1..] == Front(r[1..], n - 1) && f[0] == r[0];
      FrontMiss(r[1..], k, n - 1);
      FrontCons(r[0], Without(r[1..], k), n - 1);
      FrontCons(r[0], r[1..], n - 1);
      assert [r[0]] + r[1..] == r;
    }
  }

  lemma FrontCons<T>(x: T, s: seq<T>, n: nat)
    requires n > 0
    ensures Front([x] + s, n) == [x] + Front(s, n - 1)
  {
  }

  lemma {:induction false} FrontMisses<K, V>(r: seq<Pair<K, V>>, k: K, n: nat)
    requires !Has(r, k)
    ensures !Has(Front(r, n), k)
  {
    HasAt(r, k);
    HasAt(Front(r, n), k);
  }

  /** A key that is touched goes to the front of both. */
  lemma ToFront<K, V>(r: seq<Pair<K, V>>, p: Pair<K, V>, n: nat)
    requires Keyed(r)
    ensures Keyed([p] + Without(r, p.key))
    ensures Front([p] + Without(r, p.key), n) ==
              if Has(Front(r, n), p.key) then [p] + Without(Front(r, n), p.key) else Front([p] + Front(r, n), n)
  {
    WithoutFacts(r, p.key, p.key);
    assert ([p] + Without(r, p.key))[1..] == Without(r, p.key);
    if Has(Front(r, n), p.key) {
      FrontHit(r, p.key, n);
    } else if n > 0 {
      FrontMiss(r, p.key, n);
      FrontCons(p, Front(r, n), n);
    }
    if n > 0 {
      FrontCons(p, Without(r, p.key), n);
    }
  }

  lemma StepRecalls<K, V>(c: Cache<K, V>, op: Op<K, V>, cap: int)
    requires Keyed(c.entries)
    ensures Keyed(Recall(c, op, cap).entries)
    ensures var r := Recall(c, op, cap);
            r.(entries := Front(r.entries, Cap(cap))) == Step(c.(entries := Front(c.entries, Cap(cap))), op, cap)
  {
    var n := Cap(cap);
    var front, k := Front(c.entries, n), Touches(c, op);
    if op.OpPut? {
      ToFront(c.entries, Pair(op.k, op.v), n);
    } else if k.Some? && Has(front, k.value) {
      FrontHit(c.entries, k.value, n);
      ToFront(c.entries, Pair(k.value, Lookup(c.entries, k.value)), n);
    }
  }

  /** Over any run the cache holds exactly the most recently touched of all the keys ever put, up to its
      capacity, in that order: eviction takes the one touched longest ago. Looking up by value touches too. */
  lemma {:induction false} KeepsMostRecent<K, V>(c: Cache<K, V>, ops: seq<Op<K, V>>, cap: int)
    requires Keyed(c.entries)
    ensures var r := RecallAll(c, ops, cap);
            Run(c.(entries := Front(c.entries, Cap(cap))), ops, cap) == r.(entries := Front(r.entries, Cap(cap)))
    decreases |ops|
  {
    hide Recall, Step;
    if ops != [] {
      StepRecalls(c, ops[0], cap);
      KeepsMostRecent(Recall(c, ops[0], cap), ops[1..], cap);
    }
  }

  // ---- The value map ----

  /** The value map is the exact inverse of the entries. */
  predicate Exact<K(==), V(==)>(c: Cache<K, V>) {
    && (forall i :: 0 <= i < |c.entries| ==>
          c.entries[i].value in c.names && c.names[c.entries[i].value] == Ref(c.entries[i].key, true))
    && (forall v :: v in c.names ==>
          c.names[v].live && Has(c.entries, c.names[v].key) && Lookup(c.entries, c.names[v].key) == v)
  }

  predicate Bounded<K(==), V>(c: Cache<K, V>, cap: int) {
    Keyed(c.entries) && |c.entries| <= Cap(cap)
  }

  lemma {:induction false} LookupAt<K, V>(s: seq<Pair<K, V>>, i: nat)
    requires Keyed(s) && i < |s|
    ensures Has(s, s[i].key) && Lookup(s, s[i].key) == s[i].value
  {
    if i > 0 {
      LookupAt(s[1..], i - 1);
    }
  }

  lemma {:induction false} HasIndex<K, V>(s: seq<Pair<K, V>>, k: K) returns (i: nat)
    requires Has(s, k)
    ensures i < |s| && s[i] == Pair(k, Lookup(s, k))
  {
    if s[0].key == k {
      i := 0;
    } else {
      i := HasIndex(s[1..], k);
      i := i + 1;
    }
  }

  /** The same entries in another order. */
  lemma ExactReordered<K, V>(c: Cache<K, V>, s: seq<Pair<K, V>>)
    requires Exact(c) && Keyed(c.entries) && Keyed(s) && forall p :: p in s <==> p in c.entries
    ensures Exact(c.(entries := s))
  {
    forall i | 0 <= i < |s| ensures s[i].value in c.names && c.names[s[i].value] == Ref(s[i].key, true) {
      assert s[i] in c.entries;
    }
    forall v | v in c.names ensures Has(s, c.names[v].key) && Lookup(s, c.names[v].key) == v {
      var i := HasIndex(c.entries, c.names[v].key);
      assert c.entries[i] in s;
      var j :| 0 <= j < |s| && s[j] == c.entries[i];
      LookupAt(s, j);
    }
  }

  lemma {:induction false} WithoutMembers<K, V>(s: seq<Pair<K, V>>, k: K)
    ensures forall p :: p in Without(s, k) <==> p in s && p.key != k
  {
    if s != [] {
      WithoutMembers(s[1..], k);
    }
  }

  lemma TouchReorders<K, V>(s: seq<Pair<K, V>>, k: K)
    requires Keyed(s)
    ensures Keyed(Touch(s, k)) && |Touch(s, k)| == |s| && forall p :: p in Touch(s, k) <==> p in s
  {
    if Has(s, k) {
      WithoutFacts(s, k, k);
      WithoutMembers(s, k);
      var i := HasIndex(s, k);
      var q := [s[i]] + Without(s, k);
      assert Touch(s, k) == q && q[1..] == Without(s, k);
      forall p | p in s ensures p in q {
        if p.key == k {
          var j :| 0 <= j < |s| && s[j] == p;
          LookupAt(s, j);
        }
      }
    }
  }

  /** Looking something up, by key or by value, never changes what the value map says. */
  lemma LookUpExact<K, V>(c: Cache<K, V>, op: Op<K, V>, cap: int)
    requires Exact(c) && Bounded(c, cap) && !op.OpPut?
    ensures Exact(Step(c, op, cap)) && Bounded(Step(c, op, cap), cap)
  {
    var k := Touches(c, op);
    if k.Some? {
      TouchReorders(c.entries, k.value);
      ExactReordered(c, Touch(c.entries, k.value));
    }
  }

  /** While the map is exact, a look-up by value answers as a search of the entries. */
  lemma FindSearches<K, V>(c: Cache<K, V>, v: V)
    requires Exact(c)
    ensures Find(c, v).1.Some? <==> exists i :: 0 <= i < |c.entries| && c.entries[i].value == v
    ensures Find(c, v).1.Some? ==> Has(c.entries, Find(c, v).1.value) && Lookup(c.entries, Find(c, v).1.value) == v
  {
    if v in c.names {
      var i := HasIndex(c.entries, c.names[v].key);
      assert c.entries[i].value == v;
    }
  }

  /** A Put that repeats a pair, or brings a key and a value that are both new. */
  predicate Harmless<K(==), V(==)>(c: Cache<K, V>, k: K, v: V) {
    if Has(c.entries, k) then Lookup(c.entries, k) == v else v !in c.names
  }

  /** A Put keeps the map exact if and only if it is harmless. */
  lemma PutExactIff<K, V>(c: Cache<K, V>, k: K, v: V, cap: int)
    requires Exact(c) && Bounded(c, cap)
    ensures Bounded(PutIn(c, k, v, cap), cap)
    ensures Exact(PutIn(c, k, v, cap)) <==> Harmless(c, k, v)
  {
    InsertIsMap(c.entries, k, v, cap);
    if Has(c.entries, k) {
      if Lookup(c.entries, k) == v {
        TouchReorders(c.entries, k);
        ExactReordered(c, Touch(c.entries, k));
      } else {
        ReplacedIsNotExact(c, k, v);
      }
    } else if v in c.names {
      TakenOverIsNotExact(c, k, v, cap);
    } else {
      PushedIsExact(c, k, v, cap);
    }
  }

  /** The old value still names the key, or the new one does not. */
  lemma ReplacedIsNotExact<K, V>(c: Cache<K, V>, k: K, v: V)
    requires Exact(c) && Keyed(c.entries) && Has(c.entries, k) && Lookup(c.entries, k) != v
    ensures !Exact(c.(entries := [Pair(k, v)] + Without(c.entries, k)))
  {
    var i := HasIndex(c.entries, k);
    var w := Lookup(c.entries, k);
    var s := [Pair(k, v)] + Without(c.entries, k);
    assert c.entries[i] == Pair(k, w) && c.names[w] == Ref(k, true);
    assert s[0] == Pair(k, v) && Lookup(s, k) == v;
  }

  lemma PushedIsExact<K, V>(c: Cache<K, V>, k: K, v: V, cap: int)
    requires Exact(c) && Bounded(c, cap) && !Has(c.entries, k) && v !in c.names
    ensures Exact(PutIn(c, k, v, cap))
  {
    var all := [Pair(k, v)] + c.entries;
    var d := Cache(all, c.names[v := Ref(k, true)]);
    assert all[1..] == c.entries;
    forall i | 0 <= i < |all| ensures all[i].value in d.names && d.names[all[i].value] == Ref(all[i].key, true) {
      assert i > 0 ==> all[i] == c.entries[i - 1];
    }
    assert Exact(d);
    if |c.entries| >= cap {
      EvictedIsExact(d, all[|all| - 1]);
    }
  }

  lemma EvictedIsExact<K, V>(d: Cache<K, V>, last: Pair<K, V>)
    requires Exact(d) && Keyed(d.entries) && d.entries != [] && last == d.entries[|d.entries| - 1]
    ensures Exact(Cache(d.entries[..|d.entries| - 1], Forget(d.names, last)))
  {
    var n := |d.entries| - 1;
    var s, m := d.entries[..n], Forget(d.names, last);
    FrontKeyed(d.entries, n);
    assert Front(d.entries, n) == s;
    forall i | 0 <= i < n ensures s[i].value in m && m[s[i].value] == Ref(s[i].key, true) {
      LookupAt(d.entries, i);
      LookupAt(d.entries, n);
      KeysDiffer(d.entries, i, n);
      assert s[i] == d.entries[i];
    }
    forall v | v in m ensures m[v].live && Has(s, m[v].key) && Lookup(s, m[v].key) == v {
      var i := HasIndex(d.entries, d.names[v].key);
      LookupAt(d.entries, n);
      assert i != n;
      KeysDiffer(d.entries, i, n);
      assert s[i] == d.entries[i];
      LookupAt(s, i);
    }
  }

  lemma {:induction false} KeysDiffer<K, V>(s: seq<Pair<K, V>>, i: nat, j: nat)
    requires Keyed(s) && i < j < |s|
    ensures s[i].key != s[j].key
  {
    if i == 0 {
      HasAt(s[1..], s[0].key);
      assert s[j] == s[1..][j - 1];
    } else {
      KeysDiffer(s[1..], i - 1, j - 1);
    }
  }

  /** A new key under a value that is already there takes the value over; even an eviction does not mend
      that: the entry that had the value is still there, or the map has lost the new one with it. */
  lemma TakenOverIsNotExact<K, V>(c: Cache<K, V>, k: K, v: V, cap: int)
    requires Exact(c) && Bounded(c, cap) && !Has(c.entries, k) && v in c.names
    ensures !Exact(PutIn(c, k, v, cap))
  {
    var d := PutIn(c, k, v, cap);
    var all := [Pair(k, v)] + c.entries;
    var j := HasIndex(c.entries, c.names[v].key);
    assert c.entries[j].value == v && c.entries[j] == all[j + 1];
    HasAt(c.entries, k);
    assert |c.entries| > 0 && cap > 0 && d.entries[0] == Pair(k, v);
    if |c.entries| >= cap && j == |c.entries| - 1 {
      assert v !in d.names;
    } else {
      assert d.entries[j + 1] == c.entries[j];
    }
  }

  /** Every Put of the run is harmless when its turn comes. */
  predicate AllHarmless<K(==), V(==)>(c: Cache<K, V>, ops: seq<Op<K, V>>, cap: int)
    decreases |ops|
  {
    ops == [] ||
    ((ops[0].OpPut? ==> Harmless(c, ops[0].k, ops[0].v)) && AllHarmless(Step(c, ops[0], cap), ops[1..], cap))
  }

  /** Over any run of look-ups and harmless Puts the value map is the exact inverse throughout. */
  lemma {:induction false} RunStaysExact<K, V>(c: Cache<K, V>, ops: seq<Op<K, V>>, cap: int)
    requires Exact(c) && Bounded(c, cap) && AllHarmless(c, ops, cap)
    ensures Exact(Run(c, ops, cap)) && Bounded(Run(c, ops, cap), cap)
    decreases |ops|
  {
    hide Exact, Harmless, Bounded;
    if ops != [] {
      if ops[0].OpPut? {
        PutExactIff(c, ops[0].k, ops[0].v, cap);
      } else {
        LookUpExact(c, ops[0], cap);
      }
      RunStaysExact(Step(c, ops[0], cap), ops[1..], cap);
    }
  }

  const EMPTY: Cache<int, int> := Cache([], map[])

  /** It happens: put a key again with another value, and the new value is not found. */
  lemma ReplacedValueIsLost()
    ensures var c := Run(EMPTY, [OpPut(1, 5), OpPut(1, 2)], 2);
            c.entries == [Pair(1, 2)] && Find(c, 2).1 == None
  {
    var c1 := PutIn(EMPTY, 1, 5, 2);
    assert c1 == Cache([Pair(1, 5)], map[5 := Ref(1, true)]);
    assert Without([Pair(1, 5)], 1) == [];
    assert PutIn(c1, 1, 2, 2) == Cache([Pair(1, 2)], map[5 := Ref(1, true)]);
    RunTwo(EMPTY, OpPut(1, 5), OpPut(1, 2), 2);
  }

  /** And: after that key is evicted, its first value still finds it. */
  lemma StaleValueIsFound()
    ensures var c := PutIn(Cache([Pair(1, 2)], map[5 := Ref(1, true)]), 3, 4, 1);
            c.entries == [Pair(3, 4)] && Find(c, 5).1 == Some(1)
  {
    var c := Cache([Pair(1, 2)], map[5 := Ref(1, true)]);
    assert !Has(c.entries, 3);
    assert Front([Pair(3, 4)] + c.entries, 1) == [Pair(3, 4)];
  }

  lemma RunTwo<K, V>(c: Cache<K, V>, a: Op<K, V>, b: Op<K, V>, cap: int)
    ensures Run(c, [a, b], cap) == Step(Step(c, a, cap), b, cap)
  {
    assert [a, b][1..] == [b] && [b][1..] == [];
    assert Run(Step(c, a, cap), [b], cap) == Step(Step(c, a, cap), b, cap);
  }

  // ---- On the heap ----

  /** A list element; its value is replaced when its key is put again. */
  class Element<K, V> {
    const key: K
    var value: V

    constructor (key: K, value: V)
      ensures this.key == key && this.value == value
    {
      this.key, this.value := key, value;
    }
  }

  ghost function Entries<K, V>(list: seq<Element<K, V>>): (s: seq<Pair<K, V>>)
    reads list
    ensures |s| == |list| && forall i :: 0 <= i < |list| ==> s[i] == Pair(list[i].key, list[i].value)
  {
    seq(|list|, i requires 0 <= i < |list| reads list => Pair(list[i].key, list[i].value))
  }

  ghost function NamesOf<K, V>(list: seq<Element<K, V>>, index: map<V, Element<K, V>>): map<V, Ref<K>> {
    map v | v in index :: Ref(index[v].key, index[v] in list)
  }

  /** The map finds each element of the list by its key, and no other. */
  ghost predicate Indexed<K, V>(list: seq<Element<K, V>>, index: map<K, Element<K, V>>) {
    && (forall i, j :: 0 <= i < j < |list| ==> list[i] != list[j])
    && (forall e :: e in list ==> e.key in index && index[e.key] == e)
    && (forall k :: k in index ==> index[k] in list && index[k].key == k)
  }

  lemma SameMembers<K, V>(a: seq<Element<K, V>>, b: seq<Element<K, V>>, index: map<V, Element<K, V>>)
    requires forall x :: x in a <==> x in b
    ensures NamesOf(a, index) == NamesOf(b, index)
  {
  }

  lemma PushedIndexed<K, V>(list: seq<Element<K, V>>, index: map<K, Element<K, V>>, e: Element<K, V>)
    requires Indexed(list, index) && e !in list && e.key !in index
    ensures Indexed([e] + list, index[e.key := e])
  {
  }

  lemma DropLast<K, V>(list: seq<Element<K, V>>)
    requires list != [] && forall i, j :: 0 <= i < j < |list| ==> list[i] != list[j]
    ensures var n := |list| - 1; forall x :: x in list[..n] <==> x in list && x != list[n]
  {
    var n := |list| - 1;
    forall x | x in list && x != list[n] ensures x in list[..n] {
      var i :| 0 <= i < |list| && list[i] == x;
      assert list[..n][i] == x;
    }
  }

  lemma DroppedIndexed<K, V>(list: seq<Element<K, V>>, index: map<K, Element<K, V>>)
    requires Indexed(list, index) && list != []
    ensures var n := |list| - 1; Indexed(list[..n], index - {list[n].key})
  {
    DropLast(list);
  }

  /** The value map when a new element is pushed, and when the last one is dropped. */
  lemma PushedNames<K, V>(list: seq<Element<K, V>>, index: map<V, Element<K, V>>, e: Element<K, V>)
    requires forall v :: v in index ==> index[v] != e
    ensures NamesOf([e] + list, index[e.value := e]) == NamesOf(list, index)[e.value := Ref(e.key, true)]
  {
    assert forall x :: x in [e] + list <==> x == e || x in list;
  }

  lemma DroppedNames<K, V>(list: seq<Element<K, V>>, byKey: map<K, Element<K, V>>, index: map<V, Element<K, V>>)
    requires Indexed(list, byKey) && list != []
    ensures var n := |list| - 1;
            NamesOf(list[..n], index - {list[n].value}) ==
              Forget(NamesOf(list, index), Pair(list[n].key, list[n].value))
  {
    DropLast(list);
    var last := list[|list| - 1];
    assert last in list;
  }

  lemma KeyedByElements<K, V>(list: seq<Element<K, V>>, index: map<K, Element<K, V>>)
    requires Indexed(list, index)
    ensures Keyed(Entries(list)) && forall k :: Has(Entries(list), k) <==> k in index
  {
    forall i, j | 0 <= i < j < |list| ensures list[i].key != list[j].key {
      assert list[i] in list && list[j] in list;
    }
    DistinctKeyed(Entries(list));
    forall k ensures Has(Entries(list), k) <==> k in index {
      HasAt(Entries(list), k);
      if k in index {
        var i :| 0 <= i < |list| && list[i] == index[k];
        assert Entries(list)[i].key == k;
      }
      if i :| 0 <= i < |list| && Entries(list)[i].key == k {
        assert list[i] in list;
      }
    }
  }

  lemma {:induction false} DistinctKeyed<K, V>(s: seq<Pair<K, V>>)
    requires forall i, j :: 0 <= i < j < |s| ==> s[i].key != s[j].key
    ensures Keyed(s)
  {
    if s != [] {
      DistinctKeyed(s[1..]);
      HasAt(s[1..], s[0].key);
    }
  }

  /** Element i in front of the others: the same elements, and their entries in the same order. */
  lemma MovedList<K, V>(list: seq<Element<K, V>>, i: nat)
    requires i < |list| && forall a, b :: 0 <= a < b < |list| ==> list[a] != list[b]
    ensures var moved := [list[i]] + (list[..i] + list[i + 1..]);
            && |moved| == |list| && (forall x :: x in moved <==> x in list)
            && (forall a, b :: 0 <= a < b < |moved| ==> moved[a] != moved[b])
            && Entries(moved) == [Entries(list)[i]] + (Entries(list)[..i] + Entries(list)[i + 1..])
  {
    var moved := [list[i]] + (list[..i] + list[i + 1..]);
    forall a | 0 <= a < |moved| ensures moved[a] == list[if a == 0 then i else if a <= i then a - 1 else a] {}
    forall x | x in list ensures x in moved {
      var j :| 0 <= j < |list| && list[j] == x;
      assert x == moved[if j == i then 0 else if j < i then j + 1 else j];
    }
  }

  /** Taking entry i out, by position and by key. */
  lemma {:induction false} Pulled<K, V>(s: seq<Pair<K, V>>, i: nat)
    requires Keyed(s) && i < |s|
    ensures Has(s, s[i].key) && Lookup(s, s[i].key) == s[i].value
    ensures Without(s, s[i].key) == s[..i] + s[i + 1..]
  {
    if i == 0 {
      WithoutFacts(s[1..], s[0].key, s[0].key);
    } else {
      Pulled(s[1..], i - 1);
      assert s[1..][i - 1] == s[i] && s[1..][..i - 1] == s[1..i] && s[1..][i..] == s[i + 1..];
    }
  }

  /** What the list and the maps come to when element i is moved to the front. */
  lemma MovedFacts<K, V>(list: seq<Element<K, V>>, byKey: map<K, Element<K, V>>, byValue: map<V, Element<K, V>>, i: nat)
    requires Indexed(list, byKey) && i < |list|
    ensures var moved := [list[i]] + (list[..i] + list[i + 1..]);
            && |moved| == |list| && (forall x :: x in moved <==> x in list)
            && Indexed(moved, byKey) && NamesOf(moved, byValue) == NamesOf(list, byValue)
            && Entries(moved) == Touch(Entries(list), list[i].key)
  {
    var moved := [list[i]] + (list[..i] + list[i + 1..]);
    KeyedByElements(list, byKey);
    MovedList(list, i);
    hide Indexed, NamesOf, Keyed, Has, Without;
    SameMembers(list, moved, byValue);
    SameIndexed(list, moved, byKey);
    TouchAt(Entries(list), i);
  }

  lemma SameIndexed<K, V>(a: seq<Element<K, V>>, b: seq<Element<K, V>>, byKey: map<K, Element<K, V>>)
    requires Indexed(a, byKey) && forall x :: x in b <==> x in a
    requires forall i, j :: 0 <= i < j < |b| ==> b[i] != b[j]
    ensures Indexed(b, byKey)
  {
  }

  lemma TouchAt<K, V>(s: seq<Pair<K, V>>, i: nat)
    requires Keyed(s) && i < |s|
    ensures Touch(s, s[i].key) == [s[i]] + (s[..i] + s[i + 1..])
  {
    Pulled(s, i);
  }

  /** Replacing a value, and then moving its entry to the front. */
  lemma {:induction false} Replaced<K, V>(s: seq<Pair<K, V>>, i: nat, v: V)
    requires Keyed(s) && i < |s|
    ensures var t := s[i := Pair(s[i].key, v)];
            && Keyed(t) && Touch(t, s[i].key) == [Pair(s[i].key, v)] + Without(s, s[i].key)
  {
    var t := s[i := Pair(s[i].key, v)];
    KeysOnly(s, t);
    Pulled(s, i);
    Pulled(t, i);
    assert t[..i] == s[..i] && t[i + 1..] == s[i + 1..];
  }

  lemma {:induction false} KeysOnly<K, V>(s: seq<Pair<K, V>>, t: seq<Pair<K, V>>)
    requires Keyed(s) && |t| == |s| && forall i :: 0 <= i < |s| ==> t[i].key == s[i].key
    ensures Keyed(t)
  {
    if s != [] {
      KeysOnly(s[1..], t[1..]);
      HasAt(s[1..], s[0].key);
      HasAt(t[1..], s[0].key);
      assert forall i :: 0 <= i < |t[1..]| ==> t[1..][i].key == s[1..][i].key;
    }
  }

  class Lru<K(==), V(==)> {
    const capacity: int
    var list: seq<Element<K, V>>
    var keyToElement: map<K, Element<K, V>>
    var valueToElement: map<V, Element<K, V>>

    ghost predicate Valid()
      reads this
    {
      |list| <= Cap(capacity) && Indexed(list, keyToElement)
    }

    ghost function Model(): Cache<K, V>
      reads this, list
    {
      Cache(Entries(list), NamesOf(list, valueToElement))
    }

    constructor (capacity: int)
      ensures Valid() && Model() == Cache([], map[]) && this.capacity == capacity
    {
      this.capacity := capacity;
      list, keyToElement, valueToElement := [], map[], map[];
    }

    /** MoveToFront does nothing to an element that is no longer in the list. */
    method MoveToFront(e: Element<K, V>)
      requires Valid()
      modifies this`list
      ensures Valid() && NamesOf(list, valueToElement) == old(NamesOf(list, valueToElement))
      ensures Entries(list) == if e in old(list) then Touch(old(Entries(list)), e.key) else old(Entries(list))
      ensures forall x :: x in list <==> x in old(list)
    {
      hide Indexed, Touch, NamesOf;
      if e in list {
        var i :| 0 <= i < |list| && list[i] == e;
        MovedFacts(list, keyToElement, valueToElement, i);
        list := [e] + (list[..i] + list[i + 1..]);
      }
    }

    method Get(key: K) returns (value: Option<V>)
      requires Valid()
      modifies this`list
      ensures Valid() && Model() == Step(old(Model()), OpGet(key), capacity)
      ensures value == if Has(old(Model()).entries, key) then Some(Lookup(old(Model()).entries, key)) else None
    {
      KeyedByElements(list, keyToElement);
      if key !in keyToElement {
        return None;
      }
      var e := keyToElement[key];
      ghost var i :| 0 <= i < |list| && list[i] == e;
      Pulled(Entries(list), i);
      MoveToFront(e);
      value := Some(e.value);
    }

    method GetKeyFromValue(value: V) returns (key: Option<K>)
      requires Valid()
      modifies this`list
      ensures Valid() && (Model(), key) == Find(old(Model()), value)
    {
      if value !in valueToElement {
        return None;
      }
      var e := valueToElement[value];
      MoveToFront(e);
      key := Some(e.key);
    }

    method Put(key: K, value: V)
      requires Valid()
      modifies this, list
      ensures Valid() && Model() == PutIn(old(Model()), key, value, capacity)
      ensures forall e :: e in list ==> e in old(list) || fresh(e)
    {
      KeyedByElements(list, keyToElement);
      if key in keyToElement {
        Replace(key, value);
      } else {
        PushNew(key, value);
      }
    }

    method Replace(key: K, value: V)
      requires Valid() && key in keyToElement
      modifies `list, keyToElement[key]
      ensures Valid() && forall e :: e in list ==> e in old(list)
      ensures Model() == old(Model()).(entries := [Pair(key, value)] + Without(old(Model()).entries, key))
    {
      KeyedByElements(list, keyToElement);
      hide Touch, Without, Keyed;
      ghost var s := Entries(list);
      var e := keyToElement[key];
      ghost var i :| 0 <= i < |list| && list[i] == e;
      Replaced(s, i, value);
      e.value := value;
      assert Entries(list) == s[i := Pair(key, value)];
      MoveToFront(e);
    }

    method PushNew(key: K, value: V)
      requires Valid() && key !in keyToElement
      modifies this
      ensures Valid() && forall e :: e in list ==> e in old(list) || fresh(e)
      ensures Entries(list) == Front([Pair(key, value)] + old(Entries(list)), Cap(capacity))
      ensures var m := old(Model()).names[value := Ref(key, true)];
              var s := old(Model()).entries;
              Model().names == if |s| < capacity then m else Forget(m, ([Pair(key, value)] + s)[|s|])
    {
      hide Indexed, NamesOf, Forget, Keyed, Has, Entries;
      PushFront(key, value);
      if |list| > capacity {
        EvictLast();
      }
    }

    method PushFront(key: K, value: V)
      requires Indexed(list, keyToElement) && key !in keyToElement
      modifies this
      ensures Indexed(list, keyToElement) && |list| == |old(list)| + 1
      ensures forall e :: e in list ==> e in old(list) || fresh(e)
      ensures Model() == Cache([Pair(key, value)] + old(Model()).entries, old(Model()).names[value := Ref(key, true)])
    {
      ghost var s := Entries(list);
      var e := new Element(key, value);
      PushedIndexed(list, keyToElement, e);
      PushedNames(list, valueToElement, e);
      hide Indexed, NamesOf;
      list := [e] + list;
      keyToElement := keyToElement[key := e];
      valueToElement := valueToElement[value := e];
      assert Entries(list) == [Pair(key, value)] + s;
    }

    method EvictLast()
      requires Indexed(list, keyToElement) && list != []
      modifies this
      ensures Indexed(list, keyToElement) && |list| == |old(list)| - 1
      ensures forall e :: e in list ==> e in old(list)
      ensures var c, n := old(Model()), |old(list)| - 1;
              Model() == Cache(c.entries[..n], Forget(c.names, c.entries[n]))
    {
      ghost var s := Entries(list);
      DroppedIndexed(list, keyToElement);
      DroppedNames(list, keyToElement, valueToElement);
      hide Indexed, NamesOf, Forget;
      var last := list[|list| - 1];
      list := list[..|list| - 1];
      keyToElement := keyToElement - {last.key};
      valueToElement := valueToElement - {last.value};
      assert Entries(list) == s[..|list|];
    }
  }
}
