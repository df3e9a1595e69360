/** common/protocol/server_picker.go: a list that drops invalid servers as it meets them, and picking from
    it in turn. */
module ServerPickers {
  import opened Bytes

  /** A server; the strategy behind IsValid is not part of the model. */
  class ServerSpec {
    var valid: bool

    constructor (valid: bool)
      ensures this.valid == valid
    {
      this.valid := valid;
    }
  }

  // ---- On values: `ok` is the set of the servers that are valid now ----

  /** removeServer: the last server takes the place of the one removed. */
  function Remove<T>(s: seq<T>, i: nat): seq<T>
    requires i < |s|
  {
    s[i := s[|s| - 1]][..|s| - 1]
  }

  /** GetServer: the list it leaves. */
  function Pruned<T>(s: seq<T>, ok: set<T>, i: nat): seq<T>
    decreases |s|
  {
    if i >= |s| || s[i] in ok then s else Pruned(Remove(s, i), ok, i)
  }

  /** GetServer: the server it finds in the list it leaves. */
  function At<T>(s: seq<T>, i: nat): Option<T> {
    if i < |s| then Some(s[i]) else None
  }

  lemma RemoveTakesOne<T>(s: seq<T>, i: nat)
    requires i < |s|
    ensures multiset(Remove(s, i)) == multiset(s) - multiset{s[i]}
  {
    var n := |s| - 1;
    if i == n {
      assert Remove(s, i) == s[..n] && s == s[..n] + [s[n]];
    } else {
      var a, b := s[..i], s[i + 1..n];
      assert s == a + [s[i]] + b + [s[n]];
      assert Remove(s, i) == a + [s[n]] + b;
    }
  }

  /** GetServer drops invalid servers only, and keeps every valid one; what it then finds at the index,
      if anything, is valid. It leaves the front of the list alone. */
  lemma {:induction false} PrunedKeepsValid<T>(s: seq<T>, ok: set<T>, i: nat)
    ensures multiset(Pruned(s, ok, i)) <= multiset(s)
    ensures forall x :: x in ok ==> multiset(Pruned(s, ok, i))[x] == multiset(s)[x]
    ensures At(Pruned(s, ok, i), i).Some? ==> At(Pruned(s, ok, i), i).value in ok
    ensures At(Pruned(s, ok, i), i).None? ==> |Pruned(s, ok, i)| <= i
    ensures i <= |s| ==> i <= |Pruned(s, ok, i)| && Pruned(s, ok, i)[..i] == s[..i]
    decreases |s|
  {
    if i < |s| && s[i] !in ok {
      RemoveTakesOne(s, i);
      RemoveKeepsFront(s, i);
      hide Remove;
      PrunedKeepsValid(Remove(s, i), ok, i);
    }
  }

  lemma RemoveKeepsFront<T>(s: seq<T>, i: nat)
    requires i < |s|
    ensures |Remove(s, i)| == |s| - 1 && Remove(s, i)[..i] == s[..i]
  {
  }

  /** Which servers those are: in place of an invalid one at the index comes the last valid server behind
      it, if there is one, and all that was behind that one is gone. */
  lemma {:induction false} PrunedIs<T>(s: seq<T>, ok: set<T>, i: nat, m: nat)
    requires i <= m < |s| && s[i] !in ok && (m > i ==> s[m] in ok) && forall k :: m < k < |s| ==> s[k] !in ok
    ensures Pruned(s, ok, i) == if m > i then s[i := s[m]][..m] else s[..i]
    decreases |s|
  {
    var n := |s| - 1;
    var s1 := Remove(s, i);
    assert forall k :: 0 <= k < n ==> s1[k] == if k == i then s[n] else s[k];
    if i == n {
      assert s1 == s[..i];
    } else if m == n {
      assert s1 == s[i := s[m]][..m] && s1[i] in ok;
    } else {
      PrunedIs(s1, ok, i, m);
      assert m > i ==> s1[i := s1[m]][..m] == s[i := s[m]][..m];
      assert s1[..i] == s[..i];
    }
  }

  /** PickServer: the list, the server and the next index. */
  function Pick<T>(s: seq<T>, ok: set<T>, next: nat): (seq<T>, Option<T>, nat) {
    var s1 := Pruned(s, ok, next);
    var i := if At(s1, next).None? then 0 else next;
    var s2 := if At(s1, next).None? then Pruned(s1, ok, 0) else s1;
    (s2, At(s2, i), if i + 1 >= |s2| then 0 else i + 1)
  }

  /** PickServer finds a server exactly when there is a valid one; it loses none of them, and its next
      index is in range again. */
  lemma PickFindsIff<T>(s: seq<T>, ok: set<T>, next: nat)
    ensures var (s', r, next') := Pick(s, ok, next);
            && (r.Some? <==> exists x :: x in s && x in ok)
            && (r.Some? ==> r.value in ok && r.value in s)
            && multiset(s') <= multiset(s) && (forall x :: x in ok ==> multiset(s')[x] == multiset(s)[x])
            && (next' == 0 || next' < |s'|)
  {
    PrunedKeepsValid(s, ok, next);
    var s1 := Pruned(s, ok, next);
    PrunedKeepsValid(s1, ok, 0);
    var (s', r, next') := Pick(s, ok, next);
    assert forall x :: x in s' ==> x in multiset(s') && x in multiset(s);
    if x :| x in s && x in ok {
      assert x in multiset(s) && x in multiset(s') && x in s';
    }
  }

  /** Only the validity of the servers in the list matters. */
  lemma {:induction false} SamePruned<T>(s: seq<T>, ok: set<T>, ok': set<T>, i: nat)
    requires forall x :: x in s ==> (x in ok <==> x in ok')
    ensures Pruned(s, ok, i) == Pruned(s, ok', i)
    decreases |s|
  {
    if i < |s| && s[i] !in ok {
      assert forall x :: x in Remove(s, i) ==> x in s;
      SamePruned(Remove(s, i), ok, ok', i);
    }
  }

  // ---- Fairness ----

  /** The servers that n picks in a row give. */
  function Picks<T>(s: seq<T>, ok: set<T>, next: nat, n: nat): seq<Option<T>>
    decreases n
  {
    if n == 0 then []
    else
      var (s', r, next') := Pick(s, ok, next);
      [r] + Picks(s', ok, next', n - 1)
  }

  function Start<T>(s: seq<T>, next: nat): nat {
    if next < |s| then next else 0
  }

  /** The place i steps on from k, around a list of n. */
  function Place(k: nat, i: nat, n: nat): (r: nat)
    requires k < n && i <= n
    ensures r < n
  {
    if k + i < n then k + i else k + i - n
  }

  /** With valid servers only, picking goes round the list. */
  lemma {:induction false} PicksGoRound<T>(s: seq<T>, ok: set<T>, next: nat, n: nat, i: nat)
    requires s != [] && (forall x :: x in s ==> x in ok) && i < n <= |s|
    ensures |Picks(s, ok, next, n)| == n
    ensures Picks(s, ok, next, n)[i] == Some(s[Place(Start(s, next), i, |s|)])
    decreases n
  {
    var (s', r, next') := Pick(s, ok, next);
    var k := Start(s, next);
    assert s' == s && r == Some(s[k]) && next' == if k + 1 >= |s| then 0 else k + 1;
    if n > 1 {
      PicksGoRound(s, ok, next', n - 1, if i > 0 then i - 1 else 0);
    }
    if i > 0 {
      assert Picks(s, ok, next, n)[i] == Picks(s, ok, next', n - 1)[i - 1];
    }
  }

  /** Any n picks in a row from n distinct valid servers give n different ones. */
  lemma PicksAreFair<T>(s: seq<T>, ok: set<T>, next: nat, i: nat, j: nat)
    requires (forall x :: x in s ==> x in ok) && forall a, b :: 0 <= a < b < |s| ==> s[a] != s[b]
    requires i < j < |s|
    ensures var ps := Picks(s, ok, next, |s|);
            |ps| == |s| && ps[i].Some? && ps[j].Some? && ps[i] != ps[j]
  {
    PicksGoRound(s, ok, next, |s|, i);
    PicksGoRound(s, ok, next, |s|, j);
  }

  // ---- On the heap ----

  class ServerList {
    var servers: seq<ServerSpec>

    constructor ()
      ensures servers == []
    {
      servers := [];
    }

    method AddServer(server: ServerSpec)
      modifies this
      ensures servers == old(servers) + [server]
    {
      servers := servers + [server];
    }

    /** The servers of the list that are valid now. */
    ghost function Ok(): set<ServerSpec>
      reads this, servers
    {
      set x | x in servers && x.valid
    }

    /** removeServer. */
    method RemoveServer(idx: nat)
      requires idx < |servers|
      modifies this
      ensures servers == Remove(old(servers), idx)
      ensures |servers| == |old(servers)| - 1
      ensures forall k :: 0 <= k < |servers| ==>
                servers[k] == if k == idx then old(servers)[|servers|] else old(servers)[k]
    {
      var n := |servers|;
      servers := servers[idx := servers[n - 1]];
      servers := servers[..n - 1];
    }

    method GetServer(idx: nat) returns (server: Option<ServerSpec>)
      modifies this
      ensures servers == Pruned(old(servers), old(Ok()), idx) && server == At(servers, idx)
    {
      while true
        invariant Pruned(servers, old(Ok()), idx) == Pruned(old(servers), old(Ok()), idx)
        invariant forall x :: x in servers ==> x in old(servers)
        decreases |servers|
      {
        if idx >= |servers| {
          return None;
        }
        var s := servers[idx];
        if !s.valid {
          RemoveServer(idx);
          continue;
        }
        return Some(s);
      }
    }
  }

  class RoundRobinServerPicker {
    const serverlist: ServerList
    var nextIndex: nat

    constructor (serverlist: ServerList)
      ensures this.serverlist == serverlist && nextIndex == 0
    {
      this.serverlist, nextIndex := serverlist, 0;
    }

    method PickServer() returns (server: Option<ServerSpec>)
      modifies this, serverlist
      ensures (serverlist.servers, server, nextIndex) ==
                Pick(old(serverlist.servers), old(serverlist.Ok()), old(nextIndex))
    {
      ghost var s, ok := serverlist.servers, serverlist.Ok();
      var next := nextIndex;
      server := serverlist.GetServer(next);
      if server.None? {
        next := 0;
        PrunedKeepsValid(s, ok, nextIndex);
        assert forall x :: x in serverlist.servers ==> x in multiset(serverlist.servers) && x in multiset(s);
        SamePruned(serverlist.servers, ok, serverlist.Ok(), 0);
        server := serverlist.GetServer(0);
      }
      next := next + 1;
      if next >= |serverlist.servers| {
        next := 0;
      }
      nextIndex := next;
    }
  }
}
