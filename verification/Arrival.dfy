/** Whole authenticated streams: what arrives of what was written. */
module Arrivals {
  import opened Auth
  import opened AuthWires
  import opened Buffers
  import opened Bytes
  import opened Sealing
  import Nonces
  import Streams

  // ---- The writes of a stream ----

  /** What one write asks to be delivered: its packets, or pieces of its content. */
  function Parts(s: Setup, packets: bool, ps: seq<Bytes>): seq<Bytes>
    requires PayloadSize(s) > 0
  {
    if packets && Flat(ps) != [] then NonEmpty(ps) else Pieces(Flat(ps), PayloadSize(s))
  }

  /** The writes of a stream, on a link that takes everything. */
  ghost function Send(s: Setup, l: Lane, noise: Noise, packets: bool, ws: seq<seq<Bytes>>): (Option<Bytes>, Lane)
    requires PayloadSize(s) > 0
    decreases |ws|
  {
    if ws == [] then (Some([]), l)
    else
      var (bs, l1) := Write(s, l, noise, packets, ws[0]);
      var (more, l2) := Send(s, l1, noise, packets, ws[1..]);
      (if bs.None? || more.None? then None else Some(Flat(bs.value) + more.value), l2)
  }

  function AllParts(s: Setup, packets: bool, ws: seq<seq<Bytes>>): seq<Bytes>
    requires PayloadSize(s) > 0
  {
    if ws == [] then [] else Parts(s, packets, ws[0]) + AllParts(s, packets, ws[1..])
  }
  lemma WriteSends(s: Setup, l: Lane, noise: Noise, packets: bool, ps: seq<Bytes>)
    requires Ready(s, l, noise) && PayloadSize(s) > 0
    ensures var (bs, l1) := Write(s, l, noise, packets, ps);
            var (cs, l2) := Sealed(s, l, noise, Parts(s, packets, ps));
            bs.Some? && l1 == l2 && Flat(bs.value) == Wire(s, noise, cs)
  {
    hide SealChunk, SealAll, Sealed;
    if packets && Flat(ps) != [] {
      SealPacketsSends(s, l, noise, ps);
    } else {
      PiecesFit(Flat(ps), PayloadSize(s));
      SealAllFits(s, l, noise, Parts(s, packets, ps));
      SealAllSends(s, l, noise, Parts(s, packets, ps));
    }
  }

  lemma PartsCarry(s: Setup, packets: bool, ps: seq<Bytes>)
    requires PayloadSize(s) > 0
    ensures Flat(Parts(s, packets, ps)) == Flat(ps)
    ensures if Flat(ps) == [] then Parts(s, packets, ps) == [[]]
            else forall i :: 0 <= i < |Parts(s, packets, ps)| ==> Parts(s, packets, ps)[i] != []
  {
    if packets && Flat(ps) != [] {
      NonEmptyFlat(ps);
      NonEmptyOnly(ps);
    } else {
      PiecesFit(Flat(ps), PayloadSize(s));
    }
  }

  lemma {:induction false} NonEmptyOnly(ps: seq<Bytes>)
    ensures forall i :: 0 <= i < |NonEmpty(ps)| ==> NonEmpty(ps)[i] != []
  {
    if ps != [] {
      NonEmptyOnly(ps[1..]);
    }
  }

  /** The chunks that a stream's writes put on the link. */
  function Sent(s: Setup, l: Lane, noise: Noise, packets: bool, ws: seq<seq<Bytes>>): seq<Chunk>
    requires PayloadSize(s) > 0
  {
    Sealed(s, l, noise, AllParts(s, packets, ws)).0
  }

  /** The bytes of a stream's writes are the sealed form of all their parts, one after the other, but for
      those that are refused; and the parts carry exactly what was written. */
  lemma {:induction false} SendIsWire(s: Setup, l: Lane, noise: Noise, packets: bool, ws: seq<seq<Bytes>>)
    requires Ready(s, l, noise) && PayloadSize(s) > 0
    ensures Flat(AllParts(s, packets, ws)) == FlatAll(ws)
    ensures var (b, l1) := Send(s, l, noise, packets, ws);
            b == Some(Wire(s, noise, Sent(s, l, noise, packets, ws)))
            && l1 == Sealed(s, l, noise, AllParts(s, packets, ws)).1
    decreases |ws|
  {
    hide Write, Parts, Sealed, Wire, PayloadSize, Ready, FlatAll;
    if ws == [] {
      NothingSent(s, l, noise);
    } else {
      var parts, rest := Parts(s, packets, ws[0]), AllParts(s, packets, ws[1..]);
      WriteSends(s, l, noise, packets, ws[0]);
      SealerLeads(s, l, noise, parts);
      var (bs, l1) := Write(s, l, noise, packets, ws[0]);
      SendIsWire(s, l1, noise, packets, ws[1..]);
      SealedAppend(s, l, noise, parts, rest);
      WireAppend(s, noise, Sealed(s, l, noise, parts).0, Sealed(s, l1, noise, rest).0);
      PartsCarry(s, packets, ws[0]);
      FlatAppend(parts, rest);
      assert FlatAll(ws) == Flat(ws[0]) + FlatAll(ws[1..]) by { FlatAllCons(ws); }
    }
  }

  lemma NothingSent(s: Setup, l: Lane, noise: Noise)
    ensures Sealed(s, l, noise, []) == ([], l) && Wire(s, noise, []) == [] && Flat([]) == [] && FlatAll([]) == []
  {
  }

  lemma FlatAllCons(ws: seq<seq<Bytes>>)
    requires ws != []
    ensures FlatAll(ws) == Flat(ws[0]) + FlatAll(ws[1..])
  {
  }

  lemma {:induction false} AllPartsNonEmpty(s: Setup, packets: bool, ws: seq<seq<Bytes>>)
    requires PayloadSize(s) > 0 && forall i :: 0 <= i < |ws| ==> Flat(ws[i]) != []
    ensures forall i :: 0 <= i < |AllParts(s, packets, ws)| ==> AllParts(s, packets, ws)[i] != []
    ensures AllParts(s, packets, ws + [[]]) == AllParts(s, packets, ws) + [[]]
    decreases |ws|
  {
    hide Parts, PayloadSize;
    if ws == [] {
      PartsCarry(s, packets, []);
      assert ws + [[]] == [[]] && (ws + [[]])[1..] == [];
    } else {
      PartsCarry(s, packets, ws[0]);
      AllPartsNonEmpty(s, packets, ws[1..]);
      assert (ws + [[]])[1..] == ws[1..] + [[]] && (ws + [[]])[0] == ws[0];
    }
  }

  /** The chunk of an empty write, after these. */
  function EndChunk(s: Setup, l: Lane, noise: Noise, packets: bool, ws: seq<seq<Bytes>>): Chunk
    requires PayloadSize(s) > 0
  {
    Chunk(Sealed(s, l, noise, AllParts(s, packets, ws)).1, [])
  }

  lemma StreamEnds(s: Setup, l: Lane, noise: Noise, packets: bool, ws: seq<seq<Bytes>>)
    requires Ready(s, l, noise) && PayloadSize(s) > 0 && forall i :: 0 <= i < |ws| ==> Flat(ws[i]) != []
    ensures var body, end := Sent(s, l, noise, packets, ws), EndChunk(s, l, noise, packets, ws);
            Whole(body, end) && Sent(s, l, noise, packets, ws + [[]]) == body + [end]
  {
    hide SealChunk, Ready, AllParts;
    var parts := AllParts(s, packets, ws);
    AllPartsNonEmpty(s, packets, ws);
    SealedOf(s, l, noise, parts);
    SealedAppend(s, l, noise, parts, [[]]);
    SealerLeads(s, l, noise, parts);
    var l1 := Sealed(s, l, noise, parts).1;
    SealChunkFits(s, l1, noise, []);
    var last: seq<Bytes> := [[]];
    assert last[1..] == [] && [Chunk(l1, [])] + [] == [Chunk(l1, [])];
    forall i | 0 <= i < |Sent(s, l, noise, packets, ws)| ensures Sent(s, l, noise, packets, ws)[i].payload != [] {
      assert Sent(s, l, noise, packets, ws)[i] in Sent(s, l, noise, packets, ws);
    }
  }

  /** The reader starts where the writer started, with the writer's bytes ahead of it. */
  ghost predicate Opposite(r: Reader, l: Lane, wire: Bytes, tail: Bytes) {
    && r.lane == l && !r.hasSize && !r.done && r.stream.end != NoError
    && Streams.Pending(r.stream) == wire + tail
  }

  /** A stream as it was sent, non-empty writes and then an empty one, with nothing read of it yet. */
  ghost predicate Stream(s: Setup, l: Lane, noise: Noise, packets: bool, ws: seq<seq<Bytes>>, r: Reader, tail: Bytes) {
    && Ready(s, l, noise) && PayloadSize(s) > 0 && (forall i :: 0 <= i < |ws| ==> Flat(ws[i]) != [])
    && Send(s, l, noise, packets, ws + [[]]).0.Some?
    && Opposite(r, l, Send(s, l, noise, packets, ws + [[]]).0.value, tail)
  }

  /** Exactly what the writer accepted is delivered, one entry each, and then EOF. */
  ghost predicate Arrives(s: Setup, l: Lane, noise: Noise, packets: bool, ws: seq<seq<Bytes>>, r: Reader)
    requires PayloadSize(s) > 0
  {
    && r.stream.end != NoError
    && ReadAll(s, r).1 == Payloads(Sent(s, l, noise, packets, ws)) && ReadAll(s, r).2 == EOF
  }

  /** Every size was masked with the word that the reader will unmask it with. */
  predicate MasksMatch(s: Setup, l: Lane, cs: seq<Chunk>)
    decreases |cs|
  {
    cs == [] || (Mask(s, cs[0].at) == Mask(s, l) && MasksMatch(s, Past(s, l), cs[1..]))
  }

  lemma {:induction false} SealedInTune(s: Setup, m: Lane, l: Lane, noise: Noise, ps: seq<Bytes>)
    requires Ready(s, m, noise) && SameNonces(m, l)
    requires s.size.Masked? ==> MasksMatch(s, l, Sealed(s, m, noise, ps).0)
    ensures InTune(s, l, noise, Sealed(s, m, noise, ps).0)
    decreases |ps|
  {
    hide SealChunk, Ready, Mask, PastSize, Past;
    if ps != [] {
      var (b, m1) := SealChunk(s, m, noise, ps[0]);
      var cs := Sealed(s, m1, noise, ps[1..]).0;
      if b.Some? {
        TakenSteps(s, m, noise, ps[0]);
        PastReady(s, m, noise);
        PastSame(s, m, l);
        assert ([Chunk(m, ps[0])] + cs)[1..] == cs;
        SealedInTune(s, m1, Past(s, l), noise, ps[1..]);
      } else {
        RefusedSteps(s, m, noise, ps[0]);
        assert [] + cs == cs;
        SealedInTune(s, m1, l, noise, ps[1..]);
      }
    }
  }

  /** A reader opposite the writer faces all the chunks. */
  lemma StreamFaces(s: Setup, l: Lane, noise: Noise, packets: bool, ws: seq<seq<Bytes>>, r: Reader, tail: Bytes)
    requires Stream(s, l, noise, packets, ws, r, tail)
    requires s.size.Masked? ==> MasksMatch(s, l, Sent(s, l, noise, packets, ws + [[]]))
    ensures var body, end := Sent(s, l, noise, packets, ws), EndChunk(s, l, noise, packets, ws);
            && Whole(body, end) && Sent(s, l, noise, packets, ws + [[]]) == body + [end]
            && Facing(s, r, l, noise, body + [end], tail)
  {
    hide InTune, Wire, Sealed, Send, AllParts, Ready, MasksMatch, PayloadSize;
    StreamEnds(s, l, noise, packets, ws);
    SendIsWire(s, l, noise, packets, ws + [[]]);
    SealedInTune(s, l, l, noise, AllParts(s, packets, ws + [[]]));
  }

  /** Packets may be refused, and a refused one has used up a padding draw that the reader never makes. A
      stream, whatever its packets, arrives if and only if that does no harm at any chunk: there the draw
      at the sealer's place, which leads the reader's by the refusals before it (`SealerLeads`), is the
      same as the draw at the reader's. With masked sizes this holds as long as the masks match too. */
  lemma ArrivesIff(s: Setup, l: Lane, noise: Noise, packets: bool, ws: seq<seq<Bytes>>, r: Reader, tail: Bytes)
    requires Stream(s, l, noise, packets, ws, r, tail)
    requires s.size.Masked? ==> MasksMatch(s, l, Sent(s, l, noise, packets, ws + [[]]))
    ensures Arrives(s, l, noise, packets, ws, r) <==> AllHeard(s, l, Sent(s, l, noise, packets, ws + [[]]))
  {
    hide Facing, ReadAll, AllHeard, Sent, Send, Whole;
    StreamFaces(s, l, noise, packets, ws, r, tail);
    ReadAllIff(s, r, l, noise, Sent(s, l, noise, packets, ws), EndChunk(s, l, noise, packets, ws), tail);
  }

  // ---- Nothing refused, or no padding: both ends in step ----

  /** The writer accepts everything. */
  predicate NoneRefused(s: Setup, l: Lane, noise: Noise, packets: bool, ws: seq<seq<Bytes>>)
    requires PayloadSize(s) > 0
  {
    |Sent(s, l, noise, packets, ws)| == |AllParts(s, packets, ws)|
  }

  lemma {:induction false} AllTaken(s: Setup, l: Lane, noise: Noise, ps: seq<Bytes>)
    requires Ready(s, l, noise) && |Sealed(s, l, noise, ps).0| == |ps|
    ensures Payloads(Sealed(s, l, noise, ps).0) == ps
    decreases |ps|
  {
    hide SealChunk, Ready, Past;
    if ps != [] {
      var (b, l1) := SealChunk(s, l, noise, ps[0]);
      if b.Some? {
        TakenSteps(s, l, noise, ps[0]);
        PastReady(s, l, noise);
        AllTaken(s, l1, noise, ps[1..]);
        var cs := Sealed(s, l1, noise, ps[1..]).0;
        assert Payloads([Chunk(l, ps[0])] + cs) == [ps[0]] + Payloads(cs);
      } else {
        RefusedSteps(s, l, noise, ps[0]);
        SealerLeads(s, l1, noise, ps[1..]);
      }
    }
  }

  /** Then every chunk is sealed where the reader will open it. */
  lemma {:induction false} InStep(s: Setup, l: Lane, noise: Noise, ps: seq<Bytes>)
    requires Ready(s, l, noise) && (!s.padded || |Sealed(s, l, noise, ps).0| == |ps|)
    ensures var cs := Sealed(s, l, noise, ps).0;
            && AllHeard(s, l, cs) && MasksMatch(s, l, cs)
            && forall i :: 0 <= i < |cs| ==> cs[i].at == Nth(s, l, i)
    decreases |ps|
  {
    hide SealChunk, Ready, Past, Mask;
    if ps != [] {
      var (b, l1) := SealChunk(s, l, noise, ps[0]);
      var cs := Sealed(s, l1, noise, ps[1..]).0;
      if b.Some? {
        TakenSteps(s, l, noise, ps[0]);
        PastReady(s, l, noise);
        InStep(s, l1, noise, ps[1..]);
        var all := [Chunk(l, ps[0])] + cs;
        assert all[1..] == cs;
        forall i | 0 <= i < |all| ensures all[i].at == Nth(s, l, i) {
          assert i > 0 ==> all[i] == cs[i - 1];
        }
      } else {
        RefusedSteps(s, l, noise, ps[0]);
        SealerLeads(s, l1, noise, ps[1..]);
        assert [] + cs == cs;
        InStep(s, l1, noise, ps[1..]);
      }
    }
  }

  /** A stream of which nothing is refused, or that has no padding, arrives. */
  lemma InStepArrives(s: Setup, l: Lane, noise: Noise, packets: bool, ws: seq<seq<Bytes>>, r: Reader, tail: Bytes)
    requires Stream(s, l, noise, packets, ws, r, tail)
    requires !s.padded || NoneRefused(s, l, noise, packets, ws)
    ensures Arrives(s, l, noise, packets, ws, r)
    ensures ReadAll(s, r).0.lane == PastSize(s, Nth(s, l, |Sent(s, l, noise, packets, ws)|))
  {
    hide Facing, ReadAll, AllHeard, MasksMatch, Sealed, Send, Whole, AllParts;
    StreamEnds(s, l, noise, packets, ws);
    AllPartsNonEmpty(s, packets, ws);
    InStep(s, l, noise, AllParts(s, packets, ws + [[]]));
    StreamFaces(s, l, noise, packets, ws, r, tail);
    ReadAllIff(s, r, l, noise, Sent(s, l, noise, packets, ws), EndChunk(s, l, noise, packets, ws), tail);
  }

  /** Whatever is written, in non-empty writes and then an empty one, is what is read, and then EOF: in
      stream mode the same bytes; in packet mode the same packets, if none of them is refused with the
      padding drawn for it. The segmentation of the transport and whatever follows on it do not matter.
      The reader ends past the size of the empty chunk, in step with the writer. */
  lemma StreamRoundTrip(s: Setup, l: Lane, noise: Noise, packets: bool, ws: seq<seq<Bytes>>, r: Reader, tail: Bytes)
    requires Ready(s, l, noise) && PayloadSize(s) > 0
    requires forall i :: 0 <= i < |ws| ==> Flat(ws[i]) != []
    requires packets ==> NoneRefused(s, l, noise, packets, ws)
    requires Send(s, l, noise, packets, ws + [[]]).0.Some? ==>
               Opposite(r, l, Send(s, l, noise, packets, ws + [[]]).0.value, tail)
    ensures Send(s, l, noise, packets, ws + [[]]).0.Some?
    ensures var (r', ps, err) := ReadAll(s, r);
            && ps == AllParts(s, packets, ws) && Flat(ps) == FlatAll(ws) && err == EOF
            && r'.lane == PastSize(s, Send(s, l, noise, packets, ws).1)
  {
    hide AllParts, Send, Wire, Sealed, PayloadSize, ReadAll, Ready;
    SendIsWire(s, l, noise, packets, ws);
    SendIsWire(s, l, noise, packets, ws + [[]]);
    if !packets {
      StreamsNotRefused(s, l, noise, ws);
    }
    AllTaken(s, l, noise, AllParts(s, packets, ws));
    InStepArrives(s, l, noise, packets, ws, r, tail);
    SealerLeads(s, l, noise, AllParts(s, packets, ws));
  }

  /** In stream mode nothing is ever refused, */
  lemma {:induction false} StreamsNotRefused(s: Setup, l: Lane, noise: Noise, ws: seq<seq<Bytes>>)
    requires Ready(s, l, noise) && PayloadSize(s) > 0
    ensures NoneRefused(s, l, noise, false, ws)
    decreases |ws|
  {
    forall i, j | 0 <= i < |ws| && 0 <= j < |Parts(s, false, ws[i])| ensures Fits(s, Parts(s, false, ws[i])[j]) {
      PiecesFit(Flat(ws[i]), PayloadSize(s));
    }
    PartsNotRefused(s, l, noise, false, ws);
  }

  /** nor are packets that fit a chunk with the longest padding. */
  lemma PacketsNotRefused(s: Setup, l: Lane, noise: Noise, ws: seq<seq<Bytes>>)
    requires Ready(s, l, noise) && PayloadSize(s) > 0
    requires forall i, j :: 0 <= i < |ws| && 0 <= j < |ws[i]| ==> Fits(s, ws[i][j])
    ensures NoneRefused(s, l, noise, true, ws)
  {
    forall i, j | 0 <= i < |ws| && 0 <= j < |Parts(s, true, ws[i])| ensures Fits(s, Parts(s, true, ws[i])[j]) {
      PiecesFit(Flat(ws[i]), PayloadSize(s));
      if Flat(ws[i]) != [] {
        NonEmptyAmong(ws[i]);
        assert Parts(s, true, ws[i])[j] in ws[i];
      }
    }
    PartsNotRefused(s, l, noise, true, ws);
  }

  lemma {:induction false} NonEmptyAmong(ps: seq<Bytes>)
    ensures forall b :: b in NonEmpty(ps) ==> b in ps
  {
    if ps != [] {
      NonEmptyAmong(ps[1..]);
    }
  }

  lemma {:induction false} PartsNotRefused(s: Setup, l: Lane, noise: Noise, packets: bool, ws: seq<seq<Bytes>>)
    requires Ready(s, l, noise) && PayloadSize(s) > 0
    requires forall i, j :: 0 <= i < |ws| && 0 <= j < |Parts(s, packets, ws[i])| ==>
               Fits(s, Parts(s, packets, ws[i])[j])
    ensures NoneRefused(s, l, noise, packets, ws)
    decreases |ws|
  {
    hide Ready, Parts, Fits, PayloadSize, Sealed;
    if ws == [] {
      NothingSent(s, l, noise);
    } else {
      var parts := Parts(s, packets, ws[0]);
      SealAllFits(s, l, noise, parts);
      SealAllSends(s, l, noise, parts);
      SealerLeads(s, l, noise, parts);
      SealedAppend(s, l, noise, parts, AllParts(s, packets, ws[1..]));
      PartsNotRefused(s, Sealed(s, l, noise, parts).1, noise, packets, ws[1..]);
    }
  }

  /** In packet mode the entries delivered are the non-empty packets of each write, in order. */
  lemma {:induction false} PacketsStayWhole(s: Setup, ws: seq<seq<Bytes>>)
    requires PayloadSize(s) > 0 && forall i :: 0 <= i < |ws| ==> Flat(ws[i]) != []
    ensures AllParts(s, true, ws) == NonEmptyAll(ws)
    decreases |ws|
  {
    if ws != [] {
      PacketsStayWhole(s, ws[1..]);
    }
  }

  /** Reads of a stream, hard or soft as `softs` has it, until one fails: what they deliver, and how. */
  ghost function Reads(s: Setup, r: Reader, softs: seq<bool>): (Reader, seq<Bytes>, Error)
    requires r.stream.end != NoError
    decreases |softs|
  {
    if softs == [] then (r, [], NoError)
    else
      ReadInternalProgress(s, r, softs[0]);
      var (r1, p, err) := ReadInternal(s, r, softs[0]);
      if err == SOFT then Reads(s, r1, softs[1..])
      else if err != NoError || p.None? then (r1, [], err)
      else
        var (r2, ps, err2) := Reads(s, r1, softs[1..]);
        (r2, [p.value] + ps, err2)
  }

  /** Where a reader stands that set out at l and has delivered n payloads: at the next chunk, or past its
      size. */
  predicate StandsAt(s: Setup, r: Reader, l: Lane, n: nat) {
    r.lane == if r.hasSize || r.done then PastSize(s, Nth(s, l, n)) else Nth(s, l, n)
  }

  lemma {:induction false} ReadsStand(s: Setup, r: Reader, l: Lane, noise: Noise, body: seq<Chunk>, end: Chunk,
                                      tail: Bytes, softs: seq<bool>)
    requires Facing(s, r, l, noise, body + [end], tail) && Whole(body, end) && AllHeard(s, l, body + [end])
    ensures r.stream.end != NoError
    ensures var (r1, qs, err) := Reads(s, r, softs);
            && qs <= Payloads(body) && StandsAt(s, r1, l, |qs|)
            && (err != NoError ==> err == EOF && qs == Payloads(body))
    decreases |softs|
  {
    hide ReadInternal, InTune, Heard, Past, PastSize, BodyAhead, Wire;
    var cs := body + [end];
    if softs != [] {
      ReadInternalProgress(s, r, softs[0]);
      ReadInternalStep(s, r, l, noise, cs, tail, softs[0]);
      var (r1, p, err) := ReadInternal(s, r, softs[0]);
      if err == SOFT {
        ReadsStand(s, r1, l, noise, body, end, tail, softs[1..]);
      } else if err == NoError {
        assert cs[1..] == body[1..] + [end] && Payloads(body) == [body[0].payload] + Payloads(body[1..]);
        ReadsStand(s, r1, Past(s, l), noise, body[1..], end, tail, softs[1..]);
      }
    }
  }

  /** Lockstep. Whatever hard and soft reads are made of a stream of which nothing is refused, and whenever
      one looks: having delivered the payloads qs, the reader stands where the writer stood when it had
      sealed just these, with the same nonces and the same draws from the keystream ahead of it; or, if it
      has read a size ahead, where the writer was past that size. */
  lemma Lockstep(s: Setup, l: Lane, noise: Noise, ps: seq<Bytes>, r: Reader, tail: Bytes, softs: seq<bool>)
    requires Ready(s, l, noise) && forall i :: 0 <= i < |ps| ==> ps[i] != []
    requires SealAll(s, l, noise, ps + [[]]).0.Some?
    requires Opposite(r, l, Flat(SealAll(s, l, noise, ps + [[]]).0.value), tail)
    ensures var (r1, qs, err) := Reads(s, r, softs);
            && qs <= ps && (err != NoError ==> err == EOF && qs == ps)
            && var m := SealAll(s, l, noise, qs).1;
               r1.lane == if r1.hasSize || r1.done then PastSize(s, m) else m
  {
    hide SealAll, Sealed, Reads, Ready, MasksMatch, InTune, AllHeard, PastSize, Wire;
    var all := ps + [[]];
    SealAllSends(s, l, noise, all);
    var cs := Sealed(s, l, noise, all).0;
    var body, end := cs[..|ps|], cs[|ps|];
    assert cs == body + [end];
    assert forall i :: 0 <= i < |cs| ==> cs[i].payload == all[i];
    assert Payloads(body) == ps;
    InStep(s, l, noise, all);
    SealedInTune(s, l, l, noise, all);
    ReadsStand(s, r, l, noise, body, end, tail, softs);
    var qs := Reads(s, r, softs).1;
    assert all == qs + all[|qs|..];
    SealAllFront(s, l, noise, qs, all[|qs|..]);
    SealAllSends(s, l, noise, qs);
    SealerLeads(s, l, noise, qs);
  }

  lemma {:induction false} SealAllFront(s: Setup, l: Lane, noise: Noise, a: seq<Bytes>, b: seq<Bytes>)
    requires SealAll(s, l, noise, a + b).0.Some?
    ensures SealAll(s, l, noise, a).0.Some?
    decreases |a|
  {
    hide SealChunk;
    if a != [] {
      assert (a + b)[0] == a[0] && (a + b)[1..] == a[1..] + b;
      SealAllFront(s, SealChunk(s, l, noise, a[0]).1, noise, a[1..], b);
    }
  }

  // ---- No padding ----

  /** The packets that are neither empty nor too long. */
  function Kept(s: Setup, ps: seq<Bytes>): seq<Bytes> {
    if ps == [] then []
    else (if ps[0] != [] && Fits(s, ps[0]) then [ps[0]] else []) + Kept(s, ps[1..])
  }

  function KeptAll(s: Setup, ws: seq<seq<Bytes>>): seq<Bytes> {
    if ws == [] then [] else Kept(s, ws[0]) + KeptAll(s, ws[1..])
  }

  lemma {:induction false} PassedOver(s: Setup, l: Lane, noise: Noise, ps: seq<Bytes>)
    requires Ready(s, l, noise) && !s.padded
    ensures Payloads(Sealed(s, l, noise, NonEmpty(ps)).0) == Kept(s, ps)
    decreases |ps|
  {
    hide SealChunk, Ready;
    if ps != [] {
      if ps[0] == [] {
        PassedOver(s, l, noise, ps[1..]);
      } else {
        var (b, l1) := SealChunk(s, l, noise, ps[0]);
        FitsUnpadded(s, l, noise, ps[0]);
        PassedOver(s, l1, noise, ps[1..]);
        assert NonEmpty(ps)[0] == ps[0] && NonEmpty(ps)[1..] == NonEmpty(ps[1..]);
        var cs := Sealed(s, l1, noise, NonEmpty(ps[1..])).0;
        assert Payloads([Chunk(l, ps[0])] + cs) == [ps[0]] + Payloads(cs);
        assert [] + cs == cs;
      }
    }
  }

  lemma FitsUnpadded(s: Setup, l: Lane, noise: Noise, b: Bytes)
    requires Ready(s, l, noise) && !s.padded
    ensures SealChunk(s, l, noise, b).0.Some? <==> Fits(s, b)
    ensures Ready(s, SealChunk(s, l, noise, b).1, noise)
  {
    SealChunkSteps(s, l, noise, b);
  }

  lemma PayloadsAppend(cs: seq<Chunk>, ds: seq<Chunk>)
    ensures Payloads(cs + ds) == Payloads(cs) + Payloads(ds)
  {
  }

  lemma {:induction false} SentIsKept(s: Setup, l: Lane, noise: Noise, ws: seq<seq<Bytes>>)
    requires Ready(s, l, noise) && PayloadSize(s) > 0 && !s.padded
    requires forall i :: 0 <= i < |ws| ==> Flat(ws[i]) != []
    ensures Payloads(Sent(s, l, noise, true, ws)) == KeptAll(s, ws)
    decreases |ws|
  {
    hide Sealed, Kept, Ready, PayloadSize, NonEmpty, Flat, Payloads;
    if ws == [] {
      NothingSent(s, l, noise);
    } else {
      PassedOver(s, l, noise, ws[0]);
      SealerLeads(s, l, noise, NonEmpty(ws[0]));
      SealedAppend(s, l, noise, NonEmpty(ws[0]), AllParts(s, true, ws[1..]));
      var l1 := Sealed(s, l, noise, NonEmpty(ws[0])).1;
      SentIsKept(s, l1, noise, ws[1..]);
      PayloadsAppend(Sealed(s, l, noise, NonEmpty(ws[0])).0, Sent(s, l1, noise, true, ws[1..]));
    }
  }

  /** Without padding, any packets at all: those that fit a chunk are delivered, in order, and the others
      are passed over without a trace. */
  lemma UnpaddedArrives(s: Setup, l: Lane, noise: Noise, ws: seq<seq<Bytes>>, r: Reader, tail: Bytes)
    requires Stream(s, l, noise, true, ws, r, tail) && !s.padded
    ensures ReadAll(s, r).1 == KeptAll(s, ws) && ReadAll(s, r).2 == EOF
  {
    hide ReadAll, Send, Sent, KeptAll, PayloadSize;
    SentIsKept(s, l, noise, ws);
    InStepArrives(s, l, noise, true, ws, r, tail);
  }

  // ---- A refused packet that does harm ----

  // The reader takes padding for payload, or payload for padding, from then on.

  // With padding it may happen that they are not: a refused packet has used up a padding draw that the
  // reader never makes, and from then on the reader takes padding for payload, or payload for padding.

  const NO_SEAL: Aead := Aead(0, 0, (n, p) => p, (n, c) => Some(c))

  /** Paddings of 0, 1, 1 and then 0 bytes. */
  const UNSTEADY: Setup :=
    Setup(NO_SEAL, Nonces.Static, Plain, true, 1, w => if w == 0 then 0 else 1, i => if i == 1 || i == 2 then 1 else 0)

  const START: Lane := Lane([], [], 0)

  function ZeroNoise(i: nat, n: nat): Bytes {
    seq(n, _ => 0)
  }

  /** A packet longer than a buffer, and a packet of one byte. */
  const TWO_PACKETS: seq<Bytes> := [seq(SIZE + 1, _ => 0), [7]]

  /** The chunks after the first draw have one byte of padding. */
  lemma UnsteadyChunk(d: nat, b: Bytes)
    requires 1 <= d <= 2 && |b| < 10
    ensures SealChunk(UNSTEADY, Lane([], [], d), ZeroNoise, b) == (Some([0, |b| + 1] + b + [0]), Lane([], [], d + 1))
  {
    assert ZeroNoise(d, 1) == [0] && Be16(|b| + 1) == [0, |b| + 1];
  }
  lemma UnsteadyParts()
    ensures AllParts(UNSTEADY, true, [TWO_PACKETS]) == TWO_PACKETS && Flat(TWO_PACKETS) != []
  {
    var ws: seq<seq<Bytes>> := [TWO_PACKETS];
    assert ws[0] == TWO_PACKETS && ws[1..] == [];
    var seven: seq<Bytes> := [[7]];
    assert TWO_PACKETS[1..] == seven && seven[1..] == [];
    assert NonEmpty(TWO_PACKETS) == TWO_PACKETS && TWO_PACKETS + [] == TWO_PACKETS;
  }

  /** The long packet is refused after the first draw; the other goes out with a byte of padding, */
  lemma UnsteadySealed()
    ensures Ready(UNSTEADY, START, ZeroNoise)
    ensures Sealed(UNSTEADY, START, ZeroNoise, TWO_PACKETS) == ([Chunk(Lane([], [], 1), [7])], Lane([], [], 2))
  {
    var s, l1, l2, big := UNSTEADY, Lane([], [], 1), Lane([], [], 2), TWO_PACKETS[0];
    assert SealChunk(s, START, ZeroNoise, big) == (None, l1);
    UnsteadyChunk(1, [7]);
    hide SealChunk;
    var seven: seq<Bytes> := [[7]];
    assert TWO_PACKETS[1..] == seven && seven[0] == [7] && seven[1..] == [];
    var c := Chunk(l1, [7]);
    assert Sealed(s, l2, ZeroNoise, []) == ([], l2);
    assert [c] + [] == [c] && [] + [c] == [c];
    assert Sealed(s, l1, ZeroNoise, seven) == ([c], l2);
  }

  /** and so does the end of the stream. */
  lemma UnsteadyWire()
    ensures Wire(UNSTEADY, ZeroNoise, [Chunk(Lane([], [], 1), [7])] + [Chunk(Lane([], [], 2), [])]) ==
              [0, 2, 7, 0, 0, 1, 0]
  {
    var s, c, e := UNSTEADY, Chunk(Lane([], [], 1), [7]), Chunk(Lane([], [], 2), []);
    UnsteadyChunk(1, [7]);
    UnsteadyChunk(2, []);
    assert [0, |[7]| + 1] + [7] + [0] == [0, 2, 7, 0] && [0, 1] + [] + [0] == [0, 1, 0];
    hide SealChunk;
    var cs := [c] + [e];
    assert cs[0] == c && cs[1..] == [e] && [e][1..] == [];
    assert Wire(s, ZeroNoise, [e]) == [0, 1, 0];
    assert Wire(s, ZeroNoise, cs) == [0, 2, 7, 0] + [0, 1, 0] == [0, 2, 7, 0, 0, 1, 0];
  }

  lemma UnsteadySent()
    ensures Ready(UNSTEADY, START, ZeroNoise)
    ensures Send(UNSTEADY, START, ZeroNoise, true, [TWO_PACKETS] + [[]]).0 == Some([0, 2, 7, 0, 0, 1, 0])
    ensures Payloads(Sent(UNSTEADY, START, ZeroNoise, true, [TWO_PACKETS])) == [[7]]
  {
    hide Sealed, Wire, Send, AllParts;
    UnsteadyParts();
    UnsteadySealed();
    UnsteadyWire();
    StreamEnds(UNSTEADY, START, ZeroNoise, true, [TWO_PACKETS]);
    SendIsWire(UNSTEADY, START, ZeroNoise, true, [TWO_PACKETS] + [[]]);
    assert Payloads([Chunk(Lane([], [], 1), [7])]) == [[7]];
  }

  /** The other end, with all of it buffered. */
  function Unsuspecting(): Reader {
    Reader(0, 0, false, false, START, Streams.State([[0, 2, 7, 0, 0, 1, 0]], [], EOF))
  }

  /** Reading the size of a buffered chunk: the next padding is drawn for it. */
  lemma UnsteadySize(r: Reader, n: byte, rest: Bytes)
    requires !r.hasSize && r.stream.segs == [] && r.stream.end == EOF && Flat(r.stream.buffer) == [0, n] + rest
    ensures var (r1, size, pad, err) := ReadSize(UNSTEADY, r);
            && err == NoError && size == n && pad == NextPadding(UNSTEADY, r.lane).0
            && r1 == r.(stream := r1.stream, lane := NextPadding(UNSTEADY, r.lane).1)
            && r1.stream.segs == [] && r1.stream.end == EOF && Flat(r1.stream.buffer) == rest
  {
    hide Streams.ReadFull, Flat;
    var p: Bytes := [0, n] + rest;
    Streams.ReadFullDelivers(r.stream, 2);
    var (st, head, err) := Streams.ReadFull(r.stream, 2);
    assert Streams.Pending(r.stream) == p by { assert p + [] == p; }
    assert head == [0, n] && head + Flat(st.buffer) == p;
    assert p[2..] == rest && (head + Flat(st.buffer))[2..] == Flat(st.buffer);
  }

  /** The reader takes the first chunk for one without padding, and delivers the padding with the payload. */
  lemma UnsteadyFirst()
    ensures var (r1, p, err) := ReadInternal(UNSTEADY, Unsuspecting(), false);
            && p == Some([7, 0]) && err == NoError && !r1.hasSize && !r1.done && r1.lane == Lane([], [], 1)
            && r1.stream.segs == [] && r1.stream.end == EOF && Flat(r1.stream.buffer) == [0, 1, 0]
  {
    hide Streams.ReadFull;
    var r, all := Unsuspecting(), [0, 2, 7, 0, 0, 1, 0];
    FlatOne(all);
    assert all == [0, 2] + [7, 0, 0, 1, 0];
    UnsteadySize(r, 2, [7, 0, 0, 1, 0]);
    var (r0, size, pad, e) := ReadSize(UNSTEADY, r);
    hide Flat;
    Streams.ReadFullDelivers(r0.stream, 2);
    var (st, block, err) := Streams.ReadFull(r0.stream, 2);
    assert Streams.Pending(r0.stream) == [7, 0, 0, 1, 0] by { assert [7, 0, 0, 1, 0] + [] == [7, 0, 0, 1, 0]; }
    assert block == [7, 0] && block[..2] == block;
    assert (block + Flat(st.buffer))[2..] == Flat(st.buffer);
  }

  /** And takes the second for the end, which it happens to be. */
  lemma UnsteadySecond(r: Reader)
    requires !r.hasSize && !r.done && r.lane == Lane([], [], 1)
    requires r.stream.segs == [] && r.stream.end == EOF && Flat(r.stream.buffer) == [0, 1, 0]
    ensures var (r1, p, err) := ReadInternal(UNSTEADY, r, true);
            err == EOF && r1.done && r1.stream.end == EOF
  {
    hide ReadSize, ReadChunk, Flat;
    assert [0, 1] + [0] == [0, 1, 0];
    UnsteadySize(r, 1, [0]);
    assert SizeBytes(UNSTEADY) == 2 && NextPadding(UNSTEADY, r.lane).0 == 1;
  }

  lemma UnsteadyReading()
    ensures ReadAll(UNSTEADY, Unsuspecting()).1 == [[7, 0]] && ReadAll(UNSTEADY, Unsuspecting()).2 == EOF
  {
    hide ReadSize, ReadBody, Weight;
    var s, r := UNSTEADY, Unsuspecting();
    UnsteadyFirst();
    var r1 := ReadInternal(s, r, false).0;
    UnsteadySecond(r1);
    var r2 := ReadInternal(s, r1, true).0;
    assert ReadMore(s, r1, READ_SIZE - 1) == (r2, [], NoError);
    assert [[7, 0]] + [] == [[7, 0]];
    assert ReadMultiBuffer(s, r) == (r2, [[7, 0]], NoError);
    assert ReadMultiBuffer(s, r2) == (r2, [], EOF) by { NotSoft(); }
    ReadProgress(s, r);
    assert ReadAll(s, r2) == (r2, [], EOF);
  }

  /** It happens: what arrives is not what was accepted. */
  lemma RefusedLosesStep()
    ensures Stream(UNSTEADY, START, ZeroNoise, true, [TWO_PACKETS], Unsuspecting(), [])
    ensures Payloads(Sent(UNSTEADY, START, ZeroNoise, true, [TWO_PACKETS])) == [[7]]
    ensures ReadAll(UNSTEADY, Unsuspecting()).1 == [[7, 0]]
  {
    hide ReadAll, Send, Sent;
    UnsteadyParts();
    UnsteadySent();
    UnsteadyReading();
    var all: Bytes := [0, 2, 7, 0, 0, 1, 0];
    FlatOne(all);
    assert all + [] == all;
  }

  // ---- Configurations ----

  /** In this configuration whatever is accepted arrives. */
  ghost predicate AllArrive(s: Setup)
    requires PayloadSize(s) > 0
  {
    forall l, noise, packets, ws, r, tail | Stream(s, l, noise, packets, ws, r, tail) ::
      Arrives(s, l, noise, packets, ws, r)
  }

  /** There is no padding, or its length is always the same. */
  ghost predicate Steady(s: Setup) {
    s.padded ==> forall d: nat :: s.padOf(s.words(d)) == s.padOf(s.words(d + 1))
  }

  lemma {:induction false} SteadyDraws(s: Setup, d: nat)
    requires Steady(s) && s.padded
    ensures s.padOf(s.words(d)) == s.padOf(s.words(0))
    decreases d
  {
    if d > 0 {
      SteadyDraws(s, d - 1);
    }
  }

  lemma {:induction false} SteadyHeard(s: Setup, l: Lane, cs: seq<Chunk>)
    requires Steady(s)
    ensures AllHeard(s, l, cs)
    decreases |cs|
  {
    if cs != [] {
      if s.padded {
        SteadyDraws(s, l.draws);
        SteadyDraws(s, cs[0].at.draws);
      }
      SteadyHeard(s, Past(s, l), cs[1..]);
    }
  }

  /** A packet longer than a buffer, and nothing else. */
  const LONG_PACKET: seq<seq<Bytes>> := [[seq(SIZE + 1, _ => 0)]]

  /** It is refused, and leaves the writer a padding draw ahead at the end of the stream. */
  lemma LongPacketSent(s: Setup, l: Lane)
    requires Ready(s, l, ZeroNoise) && PayloadSize(s) > 0
    ensures Flat(LONG_PACKET[0]) != [] && Sent(s, l, ZeroNoise, true, LONG_PACKET) == []
    ensures Sent(s, l, ZeroNoise, true, LONG_PACKET + [[]]) == [Chunk(NextPadding(s, l).1, [])]
  {
    hide Ready, SealChunk;
    var big, ws := LONG_PACKET[0][0], LONG_PACKET;
    FlatOne(big);
    var one: seq<Bytes> := [big];
    assert ws[0] == one && ws[1..] == [] && one[1..] == [];
    assert NonEmpty(one) == one;
    assert AllParts(s, true, ws) == one;
    SealRefusesIff(s, l, ZeroNoise, big);
    RefusedSteps(s, l, ZeroNoise, big);
    var l1 := NextPadding(s, l).1;
    assert Sealed(s, l1, ZeroNoise, []) == ([], l1);
    var none: seq<Chunk> := [];
    assert one[0] == big && one[1..] == [] && none + none == none;
    assert Sealed(s, l, ZeroNoise, one) == ([], l1);
    StreamEnds(s, l, ZeroNoise, true, ws);
    assert [] + [Chunk(l1, [])] == [Chunk(l1, [])];
  }

  /** A lane at the d-th draw, and the reader at its other end. */
  function LaneAt(s: Setup, d: nat): Lane {
    Lane(seq(s.aead.nonceSize, _ => 0), if s.size.SealedOwn? then seq(s.size.aead.nonceSize, _ => 0) else [], d)
  }

  lemma UnsteadyLoses(s: Setup, d: nat)
    requires Sound(s) && PayloadSize(s) > 0 && !s.size.Masked? && s.padded
    requires s.padOf(s.words(d)) != s.padOf(s.words(d + 1))
    ensures !AllArrive(s)
  {
    hide Send, ReadAll, Sent, PayloadSize, Sound;
    var l, ws := LaneAt(s, d), LONG_PACKET;
    assert Ready(s, l, ZeroNoise);
    LongPacketSent(s, l);
    assert !AllHeard(s, l, Sent(s, l, ZeroNoise, true, ws + [[]])) by {
      assert !Heard(s, Chunk(NextPadding(s, l).1, []), l);
    }
    SendIsWire(s, l, ZeroNoise, true, ws + [[]]);
    var bytes := Send(s, l, ZeroNoise, true, ws + [[]]).0.value;
    var r := Reader(0, 0, false, false, l, Streams.State([bytes], [], EOF));
    FlatOne(bytes);
    assert bytes + [] == bytes;
    assert Stream(s, l, ZeroNoise, true, ws, r, []);
    ArrivesIff(s, l, ZeroNoise, true, ws, r, []);
  }

  /** Unless sizes are masked: whatever packets there are, exactly the accepted ones arrive, in a
      configuration without padding or with padding of one length, and in no other. */
  lemma AllArriveIff(s: Setup)
    requires Sound(s) && PayloadSize(s) > 0 && !s.size.Masked?
    ensures AllArrive(s) <==> Steady(s)
  {
    hide Stream, Arrives, AllHeard, Sent;
    if Steady(s) {
      forall l, noise, packets, ws, r, tail | Stream(s, l, noise, packets, ws, r, tail)
        ensures Arrives(s, l, noise, packets, ws, r) {
        SteadyHeard(s, l, Sent(s, l, noise, packets, ws + [[]]));
        ArrivesIff(s, l, noise, packets, ws, r, tail);
      }
    } else {
      var d: nat :| s.padOf(s.words(d)) != s.padOf(s.words(d + 1));
      UnsteadyLoses(s, d);
    }
  }
  // ---- Masked sizes that do not match ----

  /** Sizes masked, and paddings of no bytes: a refused packet shifts the masks alone. */
  const MASKED: Setup := Setup(NO_SEAL, Nonces.Static, Masked, true, 0, w => 0, i => if i == 1 then 3 else 0)

  lemma {:induction false} XorZeros(n: nat)
    ensures XorBits(n, 0, 0) == 0
  {
    if n > 0 {
      XorZeros(n - 1);
    }
  }

  lemma MaskedEnd()
    ensures SealChunk(MASKED, Lane([], [], 1), ZeroNoise, []).0 == Some([0, 0])
  {
    var l1, l2 := Lane([], [], 1), Lane([], [], 2);
    XorZeros(16);
    assert NextPadding(MASKED, l1) == (0, l2) && Xor(0, 0) == 0 && Be16(0) == [0, 0];
    assert EncodeSize(MASKED, l2, 0).0 == Some([0, 0]);
    assert ZeroNoise(1, 0) == [] && [0, 0] + [] + [] == [0, 0];
  }

  /** A reader that has used up the stream for a size, and takes it for that of a chunk, finds the end. */
  lemma DryRead(s: Setup, r: Reader)
    requires r.stream.end == EOF && !r.done
    requires var (r1, size, padding, err) := ReadSize(s, r);
             && err == NoError && size > 0 && size != (s.aead.overhead + padding) % 0x1_0000
             && Streams.Pending(r1.stream) == []
    ensures ReadAll(s, r).1 == [] && ReadAll(s, r).2 == EOF
  {
    hide ReadSize, Weight, Streams.ReadFull;
    ReadSizeKeepsEnd(s, r);
    var (r1, size, padding, err) := ReadSize(s, r);
    Streams.ReadFullDelivers(r1.stream, size);
    assert ReadInternal(s, r, false).2 == EOF;
    ReadProgress(s, r);
  }

  lemma MaskedSize(r: Reader)
    requires r == Reader(0, 0, false, false, START, Streams.State([[0, 0]], [], EOF))
    ensures var (r1, size, padding, err) := ReadSize(MASKED, r);
            err == NoError && size == Xor(3, 0) && padding == 0 && Streams.Pending(r1.stream) == []
  {
    hide Streams.ReadFull, Xor;
    FlatOne([0, 0]);
    assert Streams.Pending(r.stream) == [0, 0];
    Streams.ReadFullDelivers(r.stream, 2);
  }

  lemma XorThree()
    ensures Xor(3, 0) != 0
  {
  }

  /** The long packet is refused, and the end of the stream goes out with the second mask. */
  lemma MaskedSent()
    ensures Ready(MASKED, START, ZeroNoise) && Flat(LONG_PACKET[0]) != []
    ensures Send(MASKED, START, ZeroNoise, true, LONG_PACKET + [[]]).0 == Some([0, 0])
    ensures Sent(MASKED, START, ZeroNoise, true, LONG_PACKET) == []
    ensures !MasksMatch(MASKED, START, Sent(MASKED, START, ZeroNoise, true, LONG_PACKET + [[]]))
  {
    LongPacketSent(MASKED, START);
    MaskedEnd();
    hide SealChunk, Sent, Send;
    var e := Chunk(Lane([], [], 1), []);
    assert NextPadding(MASKED, START).1 == e.at && Mask(MASKED, e.at) != Mask(MASKED, START);
    assert [e][1..] == [] && [0, 0] + [] == [0, 0];
    SendIsWire(MASKED, START, ZeroNoise, true, LONG_PACKET + [[]]);
  }

  /** Where masks do not match the keystream no longer decides: here the reader takes the end of the stream
      for a chunk of at least one byte, and the transport happens to end where the bytes of it would be. */
  lemma MisreadCanArrive()
    ensures var r := Reader(0, 0, false, false, START, Streams.State([[0, 0]], [], EOF));
            && Stream(MASKED, START, ZeroNoise, true, LONG_PACKET, r, [])
            && !MasksMatch(MASKED, START, Sent(MASKED, START, ZeroNoise, true, LONG_PACKET + [[]]))
            && Arrives(MASKED, START, ZeroNoise, true, LONG_PACKET, r)
  {
    hide Sent, Send, ReadAll, ReadSize, Xor, MasksMatch;
    var r := Reader(0, 0, false, false, START, Streams.State([[0, 0]], [], EOF));
    MaskedSent();
    FlatOne([0, 0]);
    assert Streams.Pending(r.stream) == [0, 0] + [];
    MaskedSize(r);
    XorThree();
    DryRead(MASKED, r);
  }
}
