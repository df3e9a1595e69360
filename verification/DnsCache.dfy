/** app/dns/dnscommon.go and the cache of app/dns/nameserver_udp.go, on values. Times are instants of one
    clock; an address is its bytes. */
module DnsRecords {
  import opened Bytes

  datatype IPRecord = IPRecord(id: uint16, ips: seq<Bytes>, expire: int, rcode: nat)

  datatype Record = Record(a: Option<IPRecord>, aaaa: Option<IPRecord>)

  const RCODE_SUCCESS: nat := 0

  /** What a lookup answers. */
  datatype Answer = Found(ips: seq<Bytes>) | NotFound | Failed(rcode: nat) | EmptyResponse

  predicate Expired(r: Option<IPRecord>, now: int) {
    r.None? || r.value.expire < now
  }

  /** getIPs: addresses, or the reason there are none. */
  function GetIPs(r: Option<IPRecord>, now: int): (seq<Bytes>, Option<Answer>) {
    if Expired(r, now) then ([], Some(NotFound))
    else if r.value.rcode != RCODE_SUCCESS then ([], Some(Failed(r.value.rcode)))
    else (r.value.ips, None)
  }

  predicate IsNewer(base: Option<IPRecord>, r: Option<IPRecord>) {
    r.Some? && (base.None? || base.value.expire < r.value.expire)
  }

  function Newer(base: Option<IPRecord>, r: Option<IPRecord>): Option<IPRecord> {
    if IsNewer(base, r) then r else base
  }

  datatype IPOption = IPOption(ipv4: bool, ipv6: bool)

  /** The answer of two records; each family is asked at its own time. */
  function AnswerOf(r: Record, option: IPOption, t4: int, t6: int): Answer {
    var (ips4, err4) := if option.ipv4 then GetIPs(r.a, t4) else ([], None);
    var (ips6, err6) := if option.ipv6 then GetIPs(r.aaaa, t6) else ([], None);
    if ips4 + ips6 != [] then Found(ips4 + ips6)
    else if err6.Some? then err6.value
    else if err4.Some? then err4.value
    else EmptyResponse
  }

  // ---- The cache ----

  type Cache = map<string, Record>

  /** findIPsForDomain. */
  function Find(c: Cache, domain: string, option: IPOption, t4: int, t6: int): Answer {
    if domain !in c then NotFound else AnswerOf(c[domain], option, t4, t6)
  }

  function At(c: Cache, domain: string): Record {
    if domain in c then c[domain] else Record(None, None)
  }

  /** updateIP. */
  function Update(c: Cache, domain: string, r: Record): Cache {
    var prior := At(c, domain);
    if IsNewer(prior.a, r.a) || IsNewer(prior.aaaa, r.aaaa)
    then c[domain := Record(Newer(prior.a, r.a), Newer(prior.aaaa, r.aaaa))]
    else c
  }

  function Pruned(r: Record, now: int): Record {
    Record(if Expired(r.a, now) then None else r.a, if Expired(r.aaaa, now) then None else r.aaaa)
  }

  /** Cleanup. */
  function Clean(c: Cache, now: int): Cache {
    map d | d in c && Pruned(c[d], now) != Record(None, None) :: Pruned(c[d], now)
  }

  // ---- The history ----

  datatype Event = Response(domain: string, r: Record) | Cleanup(now: int)

  function Step(c: Cache, e: Event): Cache {
    match e
    case Response(d, r) => Update(c, d, r)
    case Cleanup(now) => Clean(c, now)
  }

  function Run(c: Cache, es: seq<Event>): Cache
    decreases |es|
  {
    if es == [] then c else Run(Step(c, es[0]), es[1..])
  }

  /** What the responses for a domain come to when nothing is ever cleaned up. */
  function Scan(r: Record, es: seq<Event>, domain: string): Record
    decreases |es|
  {
    if es == [] then r
    else if es[0].Response? && es[0].domain == domain
    then Scan(Record(Newer(r.a, es[0].r.a), Newer(r.aaaa, es[0].r.aaaa)), es[1..], domain)
    else Scan(r, es[1..], domain)
  }

  /** No cleanup comes from after t. */
  predicate SweptBy(es: seq<Event>, t: int) {
    forall i :: 0 <= i < |es| && es[i].Cleanup? ==> es[i].now <= t
  }

  // ---- Cleanup cannot be observed ----

  function Part(e: Event, domain: string, v6: bool): Option<IPRecord> {
    if e.Response? && e.domain == domain then (if v6 then e.r.aaaa else e.r.a) else None
  }

  function Side(r: Record, v6: bool): Option<IPRecord> {
    if v6 then r.aaaa else r.a
  }

  /** A record of the cache stands for one of the history: they are the same, or nobody will see either
      from now on. */
  predicate StandsFor(c: Option<IPRecord>, h: Option<IPRecord>, now: int) {
    c == h || (Expired(c, now) && Expired(h, now))
  }

  predicate Mirrors(c: Record, h: Record, now: int) {
    StandsFor(c.a, h.a, now) && StandsFor(c.aaaa, h.aaaa, now)
  }

  lemma StepMirrors(c: Cache, h: Record, e: Event, domain: string, t: int)
    requires Mirrors(At(c, domain), h, t) && (e.Cleanup? ==> e.now <= t)
    ensures Mirrors(At(Step(c, e), domain), Scan(h, [e], domain), t)
  {
    assert [e][1..] == [];
    if e.Cleanup? && domain in c {
      assert At(Step(c, e), domain) == Pruned(c[domain], e.now);
    }
  }

  lemma ScanCons(r: Record, es: seq<Event>, domain: string)
    requires es != []
    ensures Scan(r, es, domain) == Scan(Scan(r, [es[0]], domain), es[1..], domain)
  {
    assert [es[0]][1..] == [];
    assert forall q :: Scan(q, [es[0]][1..], domain) == q;
  }

  lemma {:induction false} RunMirrors(c: Cache, h: Record, es: seq<Event>, domain: string, t: int)
    requires Mirrors(At(c, domain), h, t) && SweptBy(es, t)
    ensures Mirrors(At(Run(c, es), domain), Scan(h, es, domain), t)
    decreases |es|
  {
    if es != [] {
      StepMirrors(c, h, es[0], domain, t);
      ScanCons(h, es, domain);
      RunMirrors(Step(c, es[0]), Scan(h, [es[0]], domain), es[1..], domain, t);
    }
  }

  lemma MirrorsAnswerAlike(c: Record, h: Record, option: IPOption, now: int, t4: int, t6: int)
    requires Mirrors(c, h, now) && now <= t4 && now <= t6
    ensures AnswerOf(c, option, t4, t6) == AnswerOf(h, option, t4, t6)
  {
  }

  /** For any interleaving of responses, cleanups and a lookup after them, at least one family being
      asked for: the cache answers exactly as a scan of the whole history would. */
  lemma CacheAnswersAsHistory(es: seq<Event>, domain: string, option: IPOption, t4: int, t6: int)
    requires SweptBy(es, t4) && t4 <= t6 && (option.ipv4 || option.ipv6)
    ensures Find(Run(map[], es), domain, option, t4, t6) ==
              AnswerOf(Scan(Record(None, None), es, domain), option, t4, t6)
  {
    var c := Run(map[], es);
    RunMirrors(map[], Record(None, None), es, domain, t4);
    MirrorsAnswerAlike(At(c, domain), Scan(Record(None, None), es, domain), option, t4, t4, t6);
  }

  // ---- What an answer is ----

  /** One family asked: the addresses of its record, or the reason there are none. */
  lemma OneFamily(r: Record, v6: bool, t4: int, t6: int)
    ensures AnswerOf(r, IPOption(!v6, v6), t4, t6) ==
              match Side(r, v6)
              case None => NotFound
              case Some(q) =>
                if q.expire < (if v6 then t6 else t4) then NotFound
                else if q.rcode != RCODE_SUCCESS then Failed(q.rcode)
                else if q.ips == [] then EmptyResponse else Found(q.ips)
  {
  }

  /** Both asked: the addresses of both, IPv4 first; with none, the reason IPv6 has none, then IPv4's. */
  lemma BothFamilies(c: Cache, domain: string, t4: int, t6: int)
    ensures var a4 := Find(c, domain, IPOption(true, false), t4, t6);
            var a6 := Find(c, domain, IPOption(false, true), t4, t6);
            Find(c, domain, IPOption(true, true), t4, t6) ==
              if a4.Found? && a6.Found? then Found(a4.ips + a6.ips)
              else if a4.Found? then a4
              else if a6.EmptyResponse? then a4 else a6
  {
    if domain in c {
      OneFamily(c[domain], false, t4, t6);
      OneFamily(c[domain], true, t4, t6);
    }
  }

  /** So a cleanup in between is unobservable. With no family asked for it is not: an entry that is gone
      is not found, and one that is there has an empty response. */
  lemma CleanupObservableIff(c: Cache, domain: string, option: IPOption, now: int, t4: int, t6: int)
    requires now <= t4 && now <= t6
    ensures Find(Clean(c, now), domain, option, t4, t6) == Find(c, domain, option, t4, t6)
            <==> option.ipv4 || option.ipv6 || (domain in c ==> domain in Clean(c, now))
  {
    if domain in c {
      MirrorsAnswerAlike(Pruned(c[domain], now), c[domain], option, now, t4, t6);
    }
  }

  // ---- What the scan finds ----

  /** r is the first of the records of es that expire last. */
  ghost predicate FirstGreatest(es: seq<Event>, domain: string, v6: bool, r: Option<IPRecord>) {
    if r.None? then forall i :: 0 <= i < |es| ==> Part(es[i], domain, v6) == None
    else exists k :: 0 <= k < |es| && LeadsAt(es, domain, v6, r, k)
  }

  ghost predicate LeadsAt(es: seq<Event>, domain: string, v6: bool, r: Option<IPRecord>, k: nat)
    requires k < |es| && r.Some?
  {
    && Part(es[k], domain, v6) == r
    && (forall i :: 0 <= i < k && Part(es[i], domain, v6).Some? ==>
          Part(es[i], domain, v6).value.expire < r.value.expire)
    && (forall i :: k < i < |es| && Part(es[i], domain, v6).Some? ==>
          Part(es[i], domain, v6).value.expire <= r.value.expire)
  }

  lemma {:induction false} ScanSnoc(r: Record, es: seq<Event>, e: Event, domain: string)
    ensures Scan(r, es + [e], domain) == Scan(Scan(r, es, domain), [e], domain)
    decreases |es|
  {
    if es == [] {
      assert es + [e] == [e];
    } else {
      assert (es + [e])[1..] == es[1..] + [e] && (es + [e])[0] == es[0];
      ScanSnoc(Scan(r, [es[0]], domain), es[1..], e, domain);
      ScanCons(r, es, domain);
      ScanCons(r, es + [e], domain);
    }
  }

  /** In each family the scan finds the first received of the responses that expire last. */
  lemma {:induction false} ScanFindsFirstGreatest(es: seq<Event>, domain: string, v6: bool)
    ensures FirstGreatest(es, domain, v6, Side(Scan(Record(None, None), es, domain), v6))
    decreases |es|
  {
    if es != [] {
      var init, e := es[..|es| - 1], es[|es| - 1];
      assert es == init + [e];
      ScanFindsFirstGreatest(init, domain, v6);
      ScanSnoc(Record(None, None), init, e, domain);
      assert [e][1..] == [];
      var was := Side(Scan(Record(None, None), init, domain), v6);
      var r := Side(Scan(Record(None, None), es, domain), v6);
      assert r == Newer(was, Part(e, domain, v6));
      NewerLeads(init, e, domain, v6, was);
    }
  }

  lemma NewerLeads(init: seq<Event>, e: Event, domain: string, v6: bool, was: Option<IPRecord>)
    requires FirstGreatest(init, domain, v6, was)
    ensures FirstGreatest(init + [e], domain, v6, Newer(was, Part(e, domain, v6)))
  {
    var es, p := init + [e], Part(e, domain, v6);
    if was.Some? {
      var k :| 0 <= k < |init| && LeadsAt(init, domain, v6, was, k);
      if IsNewer(was, p) {
        forall i | 0 <= i < |init| && Part(es[i], domain, v6).Some?
          ensures Part(es[i], domain, v6).value.expire < p.value.expire {
          assert es[i] == init[i];
        }
        assert LeadsAt(es, domain, v6, p, |init|);
      } else {
        assert LeadsAt(es, domain, v6, was, k);
      }
    } else if p.Some? {
      forall i | 0 <= i < |init| ensures Part(es[i], domain, v6).None? {
        assert es[i] == init[i];
      }
      assert LeadsAt(es, domain, v6, p, |init|);
    }
  }
}

/** app/dns/nameserver_udp.go: the record cache and the table of pending requests. */
module DnsServers {
  import opened Bytes
  import opened DnsRecords

  datatype RequestType = TypeA | TypeAAAA

  datatype Request = Request(kind: RequestType, domain: string, expire: int)

  /** A pending request lives for 8 seconds, in nanoseconds. */
  const PENDING: int := 8_000_000_000

  /** The requests that have not expired. */
  function Waiting(requests: map<uint16, Request>, now: int): map<uint16, Request> {
    map id | id in requests && !(requests[id].expire < now) :: requests[id]
  }

  // ---- When a response counts ----

  /** What happens to the pending requests. */
  datatype Act =
    | Asks(id: uint16, kind: RequestType, domain: string, now: int)
    | Answers(id: uint16, r: IPRecord)
    | Sweeps(now: int)

  function Asked(kind: RequestType, domain: string, now: int): Request {
    Request(kind, domain, now + PENDING)
  }

  function Acted(requests: map<uint16, Request>, act: Act): map<uint16, Request> {
    match act
    case Asks(id, kind, domain, now) => requests[id := Asked(kind, domain, now)]
    case Answers(id, _) => requests - {id}
    case Sweeps(now) => Waiting(requests, now)
  }

  function Pending(acts: seq<Act>): map<uint16, Request>
    decreases |acts|
  {
    if acts == [] then map[] else Acted(Pending(acts[..|acts| - 1]), acts[|acts| - 1])
  }

  /** Leaves the request q under id alone: no other takes its id, no response comes in under it, and no
      cleanup finds it more than 8 seconds old. */
  predicate Spares(act: Act, id: uint16, q: Request) {
    match act
    case Asks(other, _, _, _) => other != id
    case Answers(other, _) => other != id
    case Sweeps(now) => now <= q.expire
  }

  predicate AskedAt(acts: seq<Act>, i: nat, id: uint16, q: Request)
    requires i < |acts|
  {
    acts[i].Asks? && acts[i].id == id && q == Asked(acts[i].kind, acts[i].domain, acts[i].now)
  }

  /** Over any run, a response under an id counts, and for which request, exactly when that request was
      made and everything since has spared it. */
  lemma {:induction false} PendingIff(acts: seq<Act>, id: uint16, q: Request)
    ensures id in Pending(acts) && Pending(acts)[id] == q <==>
              exists i ::
                && 0 <= i < |acts| && AskedAt(acts, i, id, q)
                && forall j :: i < j < |acts| ==> Spares(acts[j], id, q)
    decreases |acts|
  {
    if acts != [] {
      var n, init := |acts| - 1, acts[..|acts| - 1];
      PendingIff(init, id, q);
      if !AskedAt(acts, n, id, q) && Spares(acts[n], id, q) && id in Pending(init) && Pending(init)[id] == q {
        var i :| 0 <= i < |init| && AskedAt(init, i, id, q) && forall j :: i < j < |init| ==> Spares(init[j], id, q);
        assert AskedAt(acts, i, id, q);
        forall j | i < j < |acts| ensures Spares(acts[j], id, q) {
          assert j < n ==> acts[j] == init[j];
        }
      }
      if i :| 0 <= i < n && AskedAt(acts, i, id, q) && forall j :: i < j < |acts| ==> Spares(acts[j], id, q) {
        assert AskedAt(init, i, id, q);
        assert forall j :: i < j < |init| ==> init[j] == acts[j];
        assert Spares(acts[n], id, q);
      }
    }
  }

  /** What a response to a request says about its domain. */
  function RecordFor(kind: RequestType, r: IPRecord): Record {
    match kind
    case TypeA => Record(Some(r), None)
    case TypeAAAA => Record(None, Some(r))
  }

  // ---- From the requests to the answers ----

  /** What the acts come to for the cache: a response counts while its request is pending. */
  function Heard(acts: seq<Act>): seq<Event>
    decreases |acts|
  {
    if acts == [] then []
    else
      var init := acts[..|acts| - 1];
      Heard(init) +
      match acts[|acts| - 1]
      case Asks(_, _, _, _) => []
      case Sweeps(now) => [Cleanup(now)]
      case Answers(id, r) =>
        if id in Pending(init) && Pending(init)[id].domain != ""
        then [Response(Pending(init)[id].domain, RecordFor(Pending(init)[id].kind, r))]
        else []
  }

  /** The k-th act is an answer to a request for the addresses of this family of the domain, made by the
      i-th, and everything in between has spared it. */
  predicate AnswersFor(acts: seq<Act>, i: nat, k: nat, domain: string, v6: bool)
    requires i < k < |acts|
  {
    && acts[k].Answers? && acts[i].Asks? && acts[i].id == acts[k].id
    && acts[i].kind == (if v6 then TypeAAAA else TypeA) && acts[i].domain == domain
    && forall j :: i < j < k ==> Spares(acts[j], acts[k].id, Asked(acts[i].kind, domain, acts[i].now))
  }

  ghost predicate Tells(acts: seq<Act>, k: nat, domain: string, v6: bool): (b: bool)
    requires k < |acts|
    ensures b ==> acts[k].Answers?
  {
    exists i :: 0 <= i < k && AnswersFor(acts, i, k, domain, v6)
  }

  /** It is the first of those that expire last. */
  ghost predicate Leads(acts: seq<Act>, k: nat, domain: string, v6: bool): (b: bool)
    requires k < |acts|
    ensures b ==> acts[k].Answers?
  {
    && Tells(acts, k, domain, v6)
    && forall j :: 0 <= j < |acts| && j != k && Tells(acts, j, domain, v6) ==>
         if j < k then acts[j].r.expire < acts[k].r.expire else acts[j].r.expire <= acts[k].r.expire
  }

  lemma TellsFront(acts: seq<Act>, k: nat, domain: string, v6: bool)
    requires k + 1 < |acts|
    ensures Tells(acts, k, domain, v6) <==> Tells(acts[..|acts| - 1], k, domain, v6)
  {
    var init := acts[..|acts| - 1];
    forall i | 0 <= i < k ensures AnswersFor(acts, i, k, domain, v6) <==> AnswersFor(init, i, k, domain, v6) {
      assert forall j :: 0 <= j <= k ==> init[j] == acts[j];
    }
  }

  /** The last act tells something when its request is pending. */
  lemma TellsLast(acts: seq<Act>, domain: string, v6: bool)
    requires acts != []
    ensures var init, a := acts[..|acts| - 1], acts[|acts| - 1];
            Tells(acts, |acts| - 1, domain, v6) <==>
              && a.Answers? && a.id in Pending(init)
              && Pending(init)[a.id].kind == (if v6 then TypeAAAA else TypeA) && Pending(init)[a.id].domain == domain
  {
    var n := |acts| - 1;
    var init, a := acts[..n], acts[n];
    assert forall j :: 0 <= j < n ==> init[j] == acts[j];
    if a.Answers? {
      if i :| 0 <= i < n && AnswersFor(acts, i, n, domain, v6) {
        var q := Asked(acts[i].kind, domain, acts[i].now);
        assert AskedAt(init, i, a.id, q);
        PendingIff(init, a.id, q);
      }
      if a.id in Pending(init) {
        var q := Pending(init)[a.id];
        PendingIff(init, a.id, q);
        var i :| 0 <= i < n && AskedAt(init, i, a.id, q) && forall j :: i < j < n ==> Spares(init[j], a.id, q);
        assert q.kind == (if v6 then TypeAAAA else TypeA) && q.domain == domain ==> AnswersFor(acts, i, n, domain, v6);
      }
    }
  }

  /** What the responses that counted come to, for one family of a domain. */
  function Best(acts: seq<Act>, domain: string, v6: bool): Option<IPRecord> {
    Side(Scan(Record(None, None), Heard(acts), domain), v6)
  }

  lemma BestStep(acts: seq<Act>, domain: string, v6: bool)
    requires acts != [] && domain != ""
    ensures var n := |acts| - 1;
            Best(acts, domain, v6) ==
              Newer(Best(acts[..n], domain, v6), if Tells(acts, n, domain, v6) then Some(acts[n].r) else None)
  {
    var n := |acts| - 1;
    var init, a := acts[..n], acts[n];
    TellsLast(acts, domain, v6);
    var e := Heard(acts)[|Heard(init)|..];
    assert Heard(acts) == Heard(init) + e;
    if e == [] {
      assert Heard(acts) == Heard(init);
    } else {
      ScanSnoc(Record(None, None), Heard(init), e[0], domain);
      assert e == [e[0]] && e[1..] == [];
    }
  }

  /** r, if there is one, is what the leading act says. */
  ghost predicate Led(acts: seq<Act>, domain: string, v6: bool, r: Option<IPRecord>) {
    match r
    case None => forall k :: 0 <= k < |acts| ==> !Tells(acts, k, domain, v6)
    case Some(q) => exists k :: 0 <= k < |acts| && Leads(acts, k, domain, v6) && acts[k].r == q
  }

  lemma LedOn(acts: seq<Act>, domain: string, v6: bool, was: Option<IPRecord>)
    requires acts != [] && Led(acts[..|acts| - 1], domain, v6, was)
    ensures var n := |acts| - 1;
            Led(acts, domain, v6, Newer(was, if Tells(acts, n, domain, v6) then Some(acts[n].r) else None))
  {
    hide Tells;
    var n := |acts| - 1;
    var init := acts[..n];
    forall k | 0 <= k < n ensures Tells(acts, k, domain, v6) <==> Tells(init, k, domain, v6) {
      TellsFront(acts, k, domain, v6);
    }
    if was.Some? {
      var k :| 0 <= k < n && Leads(init, k, domain, v6) && init[k].r == was.value;
      assert forall j :: 0 <= j < n ==> init[j] == acts[j];
      if Tells(acts, n, domain, v6) && was.value.expire < acts[n].r.expire {
        assert Leads(acts, n, domain, v6);
      } else {
        assert Leads(acts, k, domain, v6);
      }
    } else if Tells(acts, n, domain, v6) {
      assert Leads(acts, n, domain, v6);
    }
  }

  lemma {:induction false} BestLed(acts: seq<Act>, domain: string, v6: bool)
    requires domain != ""
    ensures Led(acts, domain, v6, Best(acts, domain, v6))
    decreases |acts|
  {
    if acts != [] {
      hide Best, Led;
      BestLed(acts[..|acts| - 1], domain, v6);
      BestStep(acts, domain, v6);
      LedOn(acts, domain, v6, Best(acts[..|acts| - 1], domain, v6));
    }
  }

  /** There is one leading act at most. */
  lemma LeaderUnique(acts: seq<Act>, i: nat, k: nat, domain: string, v6: bool)
    requires i < |acts| && k < |acts| && Leads(acts, i, domain, v6) && Leads(acts, k, domain, v6)
    ensures i == k
  {
  }

  /** No cleanup was made after t. */
  predicate Current(acts: seq<Act>, t: int) {
    forall i :: 0 <= i < |acts| && acts[i].Sweeps? ==> acts[i].now <= t
  }

  lemma {:induction false} HeardSwept(acts: seq<Act>, t: int)
    requires Current(acts, t)
    ensures SweptBy(Heard(acts), t)
    decreases |acts|
  {
    if acts != [] {
      HeardSwept(acts[..|acts| - 1], t);
    }
  }

  /** The answer is what the leading response for one family of the domain said, if it has not expired at
      t, and nothing if there was no such response. */
  ghost predicate Truthful(acts: seq<Act>, domain: string, v6: bool, t: int, answer: Answer) {
    && (forall k :: 0 <= k < |acts| && Leads(acts, k, domain, v6) ==>
          var r := acts[k].r;
          answer == if r.expire < t then NotFound
                    else if r.rcode != RCODE_SUCCESS then Failed(r.rcode)
                    else if r.ips == [] then EmptyResponse else Found(r.ips))
    && (answer == NotFound || exists k :: 0 <= k < |acts| && Leads(acts, k, domain, v6))
  }

  /** From the requests to the answer, over any run of requests, responses and cleanups: so is that of a
      lookup for one family. */
  lemma LookupTells(acts: seq<Act>, domain: string, v6: bool, t4: int, t6: int)
    requires domain != "" && t4 <= t6 && Current(acts, t4)
    ensures Truthful(acts, domain, v6, if v6 then t6 else t4,
                     Find(Run(map[], Heard(acts)), domain, IPOption(!v6, v6), t4, t6))
  {
    hide Find, Tells, Leads, Heard;
    HeardSwept(acts, t4);
    CacheAnswersAsHistory(Heard(acts), domain, IPOption(!v6, v6), t4, t6);
    OneFamily(Scan(Record(None, None), Heard(acts), domain), v6, t4, t6);
    BestLed(acts, domain, v6);
    forall k | 0 <= k < |acts| && Leads(acts, k, domain, v6)
      ensures Best(acts, domain, v6) == Some(acts[k].r) {
      OnlyLeader(acts, k, domain, v6, Best(acts, domain, v6));
    }
  }

  lemma OnlyLeader(acts: seq<Act>, k: nat, domain: string, v6: bool, r: Option<IPRecord>)
    requires k < |acts| && Leads(acts, k, domain, v6) && Led(acts, domain, v6, r)
    ensures r == Some(acts[k].r)
  {
    if r.Some? {
      var i :| 0 <= i < |acts| && Leads(acts, i, domain, v6) && acts[i].r == r.value;
      LeaderUnique(acts, i, k, domain, v6);
    }
  }

  lemma {:induction false} RunSnoc(c: Cache, es: seq<Event>, e: Event)
    ensures Run(c, es + [e]) == Step(Run(c, es), e)
    decreases |es|
  {
    if es == [] {
      assert [] + [e] == [e] && [e][1..] == [];
    } else {
      assert (es + [e])[0] == es[0] && (es + [e])[1..] == es[1..] + [e];
      RunSnoc(Step(c, es[0]), es[1..], e);
    }
  }

  function Cached(c: Cache, requests: map<uint16, Request>, a: Act): Cache {
    match a
    case Asks(_, _, _, _) => c
    case Sweeps(now) => Clean(c, now)
    case Answers(id, r) =>
      if id in requests && requests[id].domain != ""
      then Update(c, requests[id].domain, RecordFor(requests[id].kind, r)) else c
  }

  /** One more act. */
  lemma ActsOn(acts: seq<Act>, a: Act)
    ensures Pending(acts + [a]) == Acted(Pending(acts), a)
    ensures Run(map[], Heard(acts + [a])) == Cached(Run(map[], Heard(acts)), Pending(acts), a)
  {
    assert (acts + [a])[..|acts|] == acts;
    var e := Heard(acts + [a])[|Heard(acts)|..];
    assert Heard(acts + [a]) == Heard(acts) + e;
    if e == [] {
      assert Heard(acts + [a]) == Heard(acts);
    } else {
      assert e == [e[0]];
      RunSnoc(map[], Heard(acts), e[0]);
    }
  }

  class ClassicNameServer {
    var ips: map<string, Record>
    var requests: map<uint16, Request>
    ghost var acts: seq<Act>  // what has happened

    ghost predicate Valid()
      reads this
    {
      ips == Run(map[], Heard(acts)) && requests == Pending(acts)
    }

    constructor ()
      ensures Valid() && acts == []
    {
      ips, requests, acts := map[], map[], [];
    }

    /** Cleanup. The loop deletes and stores entries of the map it goes over. */
    method Cleanup(now: int) returns (err: Error)
      requires Valid()
      modifies this
      ensures Valid() && acts == old(acts) + [Sweeps(now)]
      ensures err == NoError <==> old(ips) != map[] || old(requests) != map[]
      ensures ips == Clean(old(ips), now) && requests == Acted(old(requests), Sweeps(now))
    {
      ActsOn(acts, Sweeps(now));
      acts := acts + [Sweeps(now)];
      assert |ips| == 0 <==> ips == map[] by { EmptyMap(ips); }
      assert |requests| == 0 <==> requests == map[] by { EmptyMap(requests); }
      if |ips| == 0 && |requests| == 0 {
        return Failure("nothing to do. stopping...");
      }
      CleanRecords(now);
      CleanRequests(now);
      err := NoError;
    }

    method CleanRecords(now: int)
      modifies `ips
      ensures ips == Clean(old(ips), now)
    {
      var left := ips.Keys;
      ghost var before := ips;
      while left != {}
        invariant left <= before.Keys
        invariant forall d :: d in left ==> d in ips && ips[d] == before[d]
        invariant forall d :: d !in left ==>
                    (d in ips <==> d in Clean(before, now)) && (d in ips ==> ips[d] == Clean(before, now)[d])
        decreases |left|
      {
        var domain :| domain in left;
        left := left - {domain};
        var r := ips[domain];
        if r.a.Some? && r.a.value.expire < now {
          r := r.(a := None);
        }
        if r.aaaa.Some? && r.aaaa.value.expire < now {
          r := r.(aaaa := None);
        }
        if r.a.None? && r.aaaa.None? {
          ips := ips - {domain};
        } else {
          ips := ips[domain := r];
        }
      }
    }

    method CleanRequests(now: int)
      modifies `requests
      ensures requests == Waiting(old(requests), now)
    {
      var left := requests.Keys;
      ghost var before := requests;
      while left != {}
        invariant left <= before.Keys
        invariant forall id :: id in left ==> id in requests && requests[id] == before[id]
        invariant forall id :: id !in left ==>
                    (id in requests <==> id in Waiting(before, now)) && (id in requests ==> requests[id] == before[id])
        decreases |left|
      {
        var id :| id in left;
        left := left - {id};
        if requests[id].expire < now {
          requests := requests - {id};
        }
      }
    }

    /** updateIP. */
    method UpdateIP(domain: string, newRec: Record)
      modifies `ips
      ensures ips == Update(old(ips), domain, newRec)
    {
      var rec := At(ips, domain);
      var updated := false;
      if IsNewer(rec.a, newRec.a) {
        rec := rec.(a := newRec.a);
        updated := true;
      }
      if IsNewer(rec.aaaa, newRec.aaaa) {
        rec := rec.(aaaa := newRec.aaaa);
        updated := true;
      }
      if updated {
        ips := ips[domain := rec];
      }
    }

    method AddPendingRequest(id: uint16, kind: RequestType, domain: string, now: int)
      requires Valid()
      modifies this
      ensures Valid() && acts == old(acts) + [Asks(id, kind, domain, now)]
      ensures ips == old(ips) && requests == old(requests)[id := Request(kind, domain, now + 8_000_000_000)]
    {
      ActsOn(acts, Asks(id, kind, domain, now));
      acts := acts + [Asks(id, kind, domain, now)];
      requests := requests[id := Request(kind, domain, now + PENDING)];
    }

    /** HandleResponse, with what parseResponse made of the packet. Only a response to a pending request
        counts, and it counts once. */
    method HandleResponse(parsed: Option<IPRecord>)
      requires Valid()
      modifies this
      ensures Valid()
      ensures acts == old(acts) + if parsed.Some? then [Answers(parsed.value.id, parsed.value)] else []
      ensures parsed.None? || parsed.value.id !in old(requests) ==> ips == old(ips) && requests == old(requests)
      ensures parsed.Some? && parsed.value.id in old(requests) ==>
                var req := old(requests)[parsed.value.id];
                && requests == old(requests) - {parsed.value.id}
                && ips ==
                     if req.domain == "" then old(ips)
                     else Update(old(ips), req.domain, RecordFor(req.kind, parsed.value))
    {
      if parsed.Some? {
        ActsOn(acts, Answers(parsed.value.id, parsed.value));
        acts := acts + [Answers(parsed.value.id, parsed.value)];
      }
      if parsed.None? || parsed.value.id !in requests {
        return;
      }
      var id := parsed.value.id;
      var req := requests[id];
      requests := requests - {id};
      var rec := Record(None, None);
      match req.kind {
        case TypeA => rec := rec.(a := parsed);
        case TypeAAAA => rec := rec.(aaaa := parsed);
      }
      if |req.domain| > 0 && (rec.a.Some? || rec.aaaa.Some?) {
        UpdateIP(req.domain, rec);
      }
    }

    /** findIPsForDomain; the two families look at the clock one after the other. */
    method FindIPsForDomain(domain: string, option: IPOption, t4: int, t6: int) returns (answer: Answer)
      requires Valid()
      ensures answer == Find(ips, domain, option, t4, t6)
      ensures domain != "" && t4 <= t6 && Current(acts, t4) && option.ipv4 != option.ipv6 ==>
                Truthful(acts, domain, option.ipv6, if option.ipv6 then t6 else t4, answer)
    {
      if domain != "" && t4 <= t6 && Current(acts, t4) && option.ipv4 != option.ipv6 {
        LookupTells(acts, domain, option.ipv6, t4, t6);
      }
      if domain !in ips {
        return NotFound;
      }
      var record := ips[domain];
      var found: seq<Bytes>, lastErr: Option<Answer> := [], None;
      if option.ipv4 {
        var (a, err) := GetIPs(record.a, t4);
        if err.Some? {
          lastErr := err;
        }
        found := found + a;
      }
      if option.ipv6 {
        var (aaaa, err) := GetIPs(record.aaaa, t6);
        if err.Some? {
          lastErr := err;
        }
        found := found + aaaa;
      }
      if |found| > 0 {
        return Found(found);
      }
      if lastErr.Some? {
        return lastErr.value;
      }
      answer := EmptyResponse;
    }
  }

  lemma EmptyMap<K, V>(m: map<K, V>)
    ensures |m| == 0 <==> m == map[]
  {
    assert |m| == 0 ==> m.Keys == {};
  }

  // ---- parseResponse ----

  /** One answer of the message: its TTL, and what it is; the parser may fail on it. */
  datatype Resource = A(ip: Bytes) | AAAA(ip: Bytes) | Other | Broken

  datatype RawAnswer = RawAnswer(ttl: nat, resource: Resource)

  const SECOND: int := 1_000_000_000

  function Lifetime(ttl: nat): int {
    (if ttl == 0 then 600 else ttl) * SECOND
  }

  /** The answers up to the first the parser fails on, which still counts for the time. */
  function Read(answers: seq<RawAnswer>): nat {
    if answers == [] then 0 else if answers[0].resource.Broken? then 1 else 1 + Read(answers[1..])
  }

  function Addresses(answers: seq<RawAnswer>): seq<Bytes> {
    if answers == [] then []
    else
      match answers[0].resource
      case A(ip) => [ip] + Addresses(answers[1..])
      case AAAA(ip) => [ip] + Addresses(answers[1..])
      case Other => Addresses(answers[1..])
      case Broken => []
  }

  /** What is read: everything up to the first answer the parser fails on; the addresses are those of it. */
  lemma {:induction false} ReadStops(answers: seq<RawAnswer>)
    ensures var n := Read(answers);
            && n <= |answers| && (forall i :: 0 <= i < n - 1 ==> !answers[i].resource.Broken?)
            && (n < |answers| ==> n > 0 && answers[n - 1].resource.Broken?)
    ensures forall ip :: ip in Addresses(answers) <==>
                           exists i :: 0 <= i < Read(answers) && answers[i].resource in {A(ip), AAAA(ip)}
  {
    if answers != [] {
      var rest := answers[1..];
      ReadStops(rest);
      assert forall i :: 0 <= i < |rest| ==> rest[i] == answers[i + 1];
      forall ip ensures ip in Addresses(answers) <==>
                          exists i :: 0 <= i < Read(answers) && answers[i].resource in {A(ip), AAAA(ip)} {
        if !answers[0].resource.Broken? {
          if i :| 0 <= i < Read(rest) && rest[i].resource in {A(ip), AAAA(ip)} {
            assert answers[i + 1].resource in {A(ip), AAAA(ip)};
          }
          if i :| 0 <= i < Read(answers) && answers[i].resource in {A(ip), AAAA(ip)} {
            assert i > 0 ==> rest[i - 1].resource in {A(ip), AAAA(ip)};
          }
        }
      }
    }
  }

  /** An answer takes the expiry down to its own, and adds its address. */
  function Absorb(r: IPRecord, answer: RawAnswer, now: int): IPRecord {
    var e := now + Lifetime(answer.ttl);
    var r1 := r.(expire := if r.expire > e then e else r.expire);
    match answer.resource
    case A(ip) => r1.(ips := r1.ips + [ip])
    case AAAA(ip) => r1.(ips := r1.ips + [ip])
    case Other => r1
    case Broken => r1
  }

  function AbsorbAll(r: IPRecord, answers: seq<RawAnswer>, now: int): IPRecord
    decreases |answers|
  {
    if answers == [] then r
    else if answers[0].resource.Broken? then Absorb(r, answers[0], now)
    else AbsorbAll(Absorb(r, answers[0], now), answers[1..], now)
  }

  /** The record expires with the first of the answers read, or when it would have anyway, and holds the
      addresses of all of them in order. */
  lemma {:induction false} AbsorbsAll(r: IPRecord, answers: seq<RawAnswer>, now: int)
    ensures var r' := AbsorbAll(r, answers, now);
            && r'.id == r.id && r'.rcode == r.rcode && r'.ips == r.ips + Addresses(answers)
            && Read(answers) <= |answers| && r'.expire <= r.expire
            && (forall i :: 0 <= i < Read(answers) ==> r'.expire <= now + Lifetime(answers[i].ttl))
            && (r'.expire == r.expire
                || exists i :: 0 <= i < Read(answers) && r'.expire == now + Lifetime(answers[i].ttl))
    decreases |answers|
  {
    if answers != [] {
      var r1, r' := Absorb(r, answers[0], now), AbsorbAll(r, answers, now);
      if answers[0].resource.Broken? {
        assert r'.ips == r.ips + [];
      } else {
        AbsorbsAll(r1, answers[1..], now);
        forall i | 0 <= i < Read(answers) ensures r'.expire <= now + Lifetime(answers[i].ttl) {
          assert i > 0 ==> answers[i] == answers[1..][i - 1];
        }
        if r'.expire != r1.expire {
          var i :| 0 <= i < Read(answers[1..]) && r'.expire == now + Lifetime(answers[1..][i].ttl);
          assert answers[1..][i] == answers[i + 1];
        }
      }
    }
  }

  /** parseResponse: the record lives for ten minutes, or as long as the answer that lives least; one without
      a time to live has no say in it. */
  method ParseResponse(id: uint16, rcode: nat, answers: seq<RawAnswer>, now: int) returns (r: IPRecord)
    ensures r == AbsorbAll(IPRecord(id, [], now + 600 * SECOND, rcode), answers, now)
    ensures r.id == id && r.rcode == rcode && r.ips == Addresses(answers) && r.expire <= now + 600 * SECOND
    ensures Read(answers) <= |answers|
    ensures forall i :: 0 <= i < Read(answers) && answers[i].ttl > 0 ==> r.expire <= now + answers[i].ttl * SECOND
    ensures r.expire == now + 600 * SECOND
            || exists i :: 0 <= i < Read(answers) && answers[i].ttl > 0 && r.expire == now + answers[i].ttl * SECOND
  {
    AbsorbsAll(IPRecord(id, [], now + 600 * SECOND, rcode), answers, now);
    r := IPRecord(id, [], now + 600 * SECOND, rcode);
    ghost var result := AbsorbAll(r, answers, now);
    var i := 0;
    while i < |answers|
      invariant i <= |answers| && AbsorbAll(r, answers[i..], now) == result
    {
      var answer := answers[i];
      assert answers[i..][0] == answer && answers[i..][1..] == answers[i + 1..];
      var expire := now + Lifetime(answer.ttl);
      if r.expire > expire {
        r := r.(expire := expire);
      }
      match answer.resource {
        case A(ip) => r := r.(ips := r.ips + [ip]);
        case AAAA(ip) => r := r.(ips := r.ips + [ip]);
        case Other =>
        case Broken => return;
      }
      i := i + 1;
    }
  }
}
