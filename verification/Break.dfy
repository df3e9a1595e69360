/** A connection that breaks: what is delivered when it ends anywhere, in the middle of a frame included. */
module Breaks {
  import opened Bytes
  import opened Buffers
  import opened Addresses
  import opened Demux
  import opened Frames
  import opened Links
  import opened MuxReads
  import opened MuxWrites
  import opened MuxServes
  import opened Sessions
  import Chunks
  import Sealing
  import Streams

  // ---- Copying the data of a frame of which a part is missing ----

  /** a is a proper front part of b. */
  predicate Short(a: Bytes, b: Bytes) {
    a <= b && |a| < |b|
  }

  ghost predicate Dry(st: Streams.State) {
    st.end != NoError && Streams.Pending(st) == []
  }

  /** Nothing comes of a source that has nothing. */
  lemma DryReadOnce(r: Reader)
    requires Dry(StreamOf(r))
    ensures Dry(StreamOf(ReadOnce(r).0)) && Flat(ReadOnce(r).1.mb) == []
  {
    hide Streams.Pending, Streams.ReadFull, Streams.Work, Sealing.DecodeSize;
    match r
    case StreamReader(c) =>
      if c.left != 0 {
        Chunks.DeliverFacts(c);
      } else {
        Streams.ReadFullDelivers(c.stream, 2);
      }
    case PacketReader(eof, st) =>
      Streams.ReadFullDelivers(st, 2);
  }

  lemma {:induction false} DryCopy(r: Reader, out: Option<Link>)
    requires Dry(StreamOf(r))
    ensures var (r', out', e) := Copy(r, out);
            Dry(StreamOf(r')) && out' == out && !e.WriteError?
    decreases Streams.Work(StreamOf(r))
  {
    hide ReadOnce, Copy, Streams.Work, Streams.Pending;
    CopyUnfold(r, out);
    DryReadOnce(r);
    var (r1, o) := ReadOnce(r);
    if o.err == NoError {
      DryCopy(r1, out);
    }
  }

  /** The reader is within its only chunk, of which `cur` is there and more is not. */
  ghost predicate CutWithin(r: Reader, cur: Bytes) {
    && r.StreamReader? && r.chunks.stream.end != NoError
    && Streams.Pending(r.chunks.stream) == cur && |cur| < r.chunks.left
  }

  /** What there is of the chunk goes to the link, or the link refuses a piece of it; a second copy then
      finds nothing at the end. */
  lemma {:induction false} CopyCutRest(r: Reader, out: Option<Link>, cur: Bytes)
    requires CutWithin(r, cur)
    ensures var (r', out', e) := Copy(r, out);
            && Copied(out, out', cur, !e.WriteError?)
            && (if e.WriteError? then exists left: Bytes :: CutWithin(r', left) else Dry(StreamOf(r')))
    decreases Streams.Work(StreamOf(r))
  {
    hide Copied, Copy, Streams.Work, Streams.Pending, Pass;
    CopyUnfold(r, out);
    Chunks.DeliverFacts(r.chunks);
    var (r1, o) := ReadOnce(r);
    var (out1, werr) := Pass(out, o.mb);
    PassCopied(out, o.mb);
    var d := Flat(o.mb);
    var left := Streams.Pending(r1.chunks.stream);
    assert CutWithin(r1, left);
    assert d + left == cur;
    if werr != NoError {
      CopiedPart(out, out1, d, cur);
    } else if o.err == NoError {
      CopyCutRest(r1, out1, left);
      var (r', out', e) := Copy(r1, out1);
      CopiedMore(out, out1, out', d, left, !e.WriteError?);
    } else {
      assert d + [] == d;
    }
  }

  /** Reading from the start of a chunk is reading its size, if that is there, and then from within. */
  lemma CutStart(st: Streams.State, c: Bytes)
    requires st.end != NoError && |c| < 0x1_0000 && Short(Streams.Pending(st), Field(c))
    ensures var r := NewReader(false, st);
            if |Streams.Pending(st)| < 2 then
              var (r1, o) := ReadOnce(r);
              o.mb == [] && o.err != NoError && Dry(StreamOf(r1))
            else
              exists r1: Reader ::
                CutWithin(r1, Streams.Pending(st)[2..]) && ReadOnce(r1) == ReadOnce(r)
  {
    hide Streams.Pending, Streams.ReadFull, Chunks.Deliver;
    var p, r := Streams.Pending(st), NewReader(false, st);
    Streams.ReadFullDelivers(st, 2);
    var (st1, head, err) := Streams.ReadFull(st, 2);
    if |p| >= 2 {
      Be16RoundTrip(|c|);
      assert head == Be16(|c|) && Streams.Pending(st1) == p[2..];
      var r1 := StreamReader(Chunks.Reader(|c|, 1, NO_LANE, st1));
      assert CutWithin(r1, p[2..]) && ReadOnce(r1) == ReadOnce(r);
    } else {
      assert head == p && (head + Streams.Pending(st1))[|p|..] == Streams.Pending(st1);
    }
  }

  /** The output gets a front part of what there is, and of a packet nothing. Unless it is refused, that
      leaves nothing on the stream; and a second copy does. */
  lemma CopyCut(packets: bool, st: Streams.State, out: Option<Link>, c: Bytes)
    requires st.end != NoError && |c| < 0x1_0000 && Short(Streams.Pending(st), Field(c))
    ensures var (r', out', e) := Copy(NewReader(packets, st), out);
            && StreamOf(r').end == st.end && out'.Some? == out.Some?
            && (out.Some? ==> Got(out.value, out'.value, packets, c, false))
            && (e.Done? ==> Dry(StreamOf(r')))
            && (e.WriteError? ==> Dry(StreamOf(Copy(r', None).0)))
            && ((packets ==> |c| <= SIZE) ==> Dry(StreamOf(Copy(r', None).0)))
  {
    hide Copy, Streams.Pending, Streams.Work, Copied, ReadOnce;
    var r := NewReader(packets, st);
    CopyKeeps(r, out);
    if packets {
      CopyCutPacket(st, out, c);
      if out.Some? { GotNothing(out.value, out.value, true, c); }
      if Dry(StreamOf(Copy(r, out).0)) { DryCopy(Copy(r, out).0, None); }
    } else {
      var p := Streams.Pending(st);
      CutStart(st, c);
      CopyUnfold(r, out);
      if |p| < 2 {
        PassNothingTo(out);
        DryCopy(Copy(r, out).0, None);
        if out.Some? { GotNothing(out.value, out.value, false, c); }
      } else {
        var r1: Reader :| CutWithin(r1, p[2..]) && ReadOnce(r1) == ReadOnce(r);
        CopyUnfold(r1, out);
        CopyCutRest(r1, out, p[2..]);
        assert Field(c)[2..] == c && p[2..] <= c;
        var (r', out', e) := Copy(r, out);
        if out.Some? { CopiedGot(out.value, out'.value, p[2..], c, !e.WriteError?); }
        if e.WriteError? {
          var left: Bytes :| CutWithin(r', left);
          CopyCutRest(r', None, left);
          CopyKeeps(r', None);
        } else {
          DryCopy(r', None);
        }
      }
    }
  }

  lemma PassNothingTo(out: Option<Link>)
    ensures Pass(out, []) == (out, NoError)
  {
  }

  lemma CopiedGot(l: Link, l': Link, d: Bytes, c: Bytes, done: bool)
    requires Copied(Some(l), Some(l'), d, done) && d <= c
    ensures Got(l, l', false, c, false)
  {
  }

  lemma CopyCutPacket(st: Streams.State, out: Option<Link>, c: Bytes)
    requires st.end != NoError && |c| < 0x1_0000 && Short(Streams.Pending(st), Field(c))
    ensures var (r', out', e) := Copy(NewReader(true, st), out);
            && out' == out && !e.WriteError? && (e.Done? || |c| <= SIZE ==> Dry(StreamOf(r')))
  {
    hide Streams.Pending, Streams.ReadFull, Copy;
    var p, r := Streams.Pending(st), NewReader(true, st);
    PassNothingTo(out);
    CopyUnfold(r, out);
    Streams.ReadFullDelivers(st, 2);
    var (st1, head, err) := Streams.ReadFull(st, 2);
    if |p| >= 2 {
      Be16RoundTrip(|c|);
      assert head == Be16(|c|) && Streams.Pending(st1) == p[2..];
      if |c| <= SIZE {
        Streams.ReadFullDelivers(st1, |c|);
        var (st2, data, err2) := Streams.ReadFull(st1, |c|);
        assert data == p[2..] && (data + Streams.Pending(st2))[|data|..] == Streams.Pending(st2);
      }
    } else {
      assert head == p && (head + Streams.Pending(st1))[|p|..] == Streams.Pending(st1);
    }
  }

  // ---- A frame of which a part is missing ----

  /** Nothing was delivered from w to w' but, perhaps, a front part of c to the live session `id`. */
  ghost predicate Touched(w: Worker, w': Worker, id: uint16, c: Bytes) {
    && w'.opens == w.opens && |w'.outs| == |w.outs| == |w.opens|
    && forall i :: 0 <= i < |w.outs| ==>
         || w'.outs[i].writes == w.outs[i].writes
         || (w.opens[i].id == id && Live(w, i) && Got(w.outs[i], w'.outs[i], w.opens[i].packets, c, false))
  }

  /** The metadata of f is behind the worker, and its data ahead, but not all of it. */
  ghost predicate CutAhead(w: Worker, f: Frame) {
    && w.stream.end != NoError && f.data.Some? && |Flat(Data(f))| < 0x1_0000
    && Short(Streams.Pending(w.stream), Field(Flat(Data(f))))
  }

  lemma DiscardCut(w: Worker, f: Frame)
    requires CutAhead(w, f)
    ensures var (w', err) := Discard(w);
            w' == w.(stream := w'.stream) && (err == NoError ==> Dry(w'.stream))
  {
    CopyFails(NewReader(false, w.stream), None);
    CopyCut(false, w.stream, None, Flat(Data(f)));
  }

  lemma EndCut(w: Worker, m: Metadata, f: Frame)
    requires Linked(w) && CutAhead(w, f) && HasData(m.option)
    ensures var (w', err) := HandleEnd(w, m);
            Touched(w, w', m.id, []) && (err == NoError ==> Dry(w'.stream))
  {
    hide Discard;
    var g := Get(w.table, m.id);
    DiscardCut(if g.None? then w else CloseSession(w, m.id, g.value.out), f);
  }

  lemma KeepCut(p: Parser, w: Worker, m: Metadata, f: Frame)
    requires Linked(w) && CutAhead(w, f) && HasData(m.option)
    ensures var (w', err) := HandleKeep(p, w, m);
            Touched(w, w', m.id, Flat(Data(f))) && (err == NoError ==> Dry(w'.stream))
  {
    hide Discard, Copy, Got, Streams.Pending;
    var g := Get(w.table, m.id);
    if g.None? {
      DiscardCut(SendEnd(p, w, m.id, false), f);
    } else {
      var s, c := g.value, Flat(Data(f));
      var r0, out0 := NewReader(s.packets, w.stream), w.outs[s.out];
      CopyCut(s.packets, w.stream, Some(out0), c);
      CopyKeeps(r0, Some(out0));
      CopyFails(r0, Some(out0));
      var (r, out, e) := Copy(r0, Some(out0));
      var w' := HandleKeep(p, w, m).0;
      if e.WriteError? {
        GotClosed(out0, out.value, s.packets, c, false);
      }
      assert w'.outs == w.outs[s.out := w'.outs[s.out]];
    }
  }

  lemma NewCut(dispatch: Dispatcher, w: Worker, m: Metadata, f: Frame)
    requires Linked(w) && CutAhead(w, f) && HasData(m.option) && m == f.meta && m.status == NEW
    requires !Derails(Server, dispatch, w, f) && !w.table.closed
    ensures var (w', err) := HandleNew(Server, dispatch, w, m);
            Touched(Before(Server, dispatch, w, f), w', m.id, Flat(Data(f))) && (err == NoError ==> Dry(w'.stream))
  {
    hide Copy, Got, Streams.Pending;
    if dispatch(w.dispatched).None? {
      DiscardCut(w.(dispatched := w.dispatched + 1), f);
    } else {
      var packets, c := m.target.network == UDP, Flat(Data(f));
      var o, w1 := |w.outs|, OpenSession(w, m.id, packets, dispatch(w.dispatched).value);
      var r0, out0 := NewReader(packets, w1.stream), w1.outs[o];
      CopyCut(packets, w1.stream, Some(out0), c);
      CopyKeeps(r0, Some(out0));
      var (r, out, e) := Copy(r0, Some(out0));
      var w' := HandleNew(Server, dispatch, w, m).0;
      GotClosed(out0, out.value, packets, c, false);
      assert w'.outs == w1.outs[o := w'.outs[o]];
    }
  }

  /** Metadata of which a part is missing is an error. */
  lemma MetaCut(p: Parser, m0: Metadata, m: Metadata, st: Streams.State)
    requires Writable(m) && ProperTarget(m) && Encode(p, m).Some?
    requires st.end != NoError && Short(Streams.Pending(st), Encode(p, m).value)
    ensures Unmarshal(p, m0, st).2 != NoError
  {
    hide Body, UnmarshalBytes, Streams.Pending, Streams.ReadFull;
    BodyBound(p, m);
    var b, q := Body(p, m).value, Streams.Pending(st);
    Be16RoundTrip(|b|);
    Streams.ReadFullDelivers(st, 2);
    var (st1, head, err1) := Streams.ReadFull(st, 2);
    if |q| >= 2 {
      assert head == Be16(|b|) && Streams.Pending(st1) == q[2..];
      Streams.ReadFullDelivers(st1, |b|);
    }
  }

  /** The metadata is there and is read. */
  lemma MetaBeforeCut(p: Parser, m0: Metadata, w: Worker, f: Frame)
    requires Linked(w) && WellFormed(p, f) && Short(Streams.Pending(w.stream), FrameBytes(p, f))
    requires |Streams.Pending(w.stream)| >= |Encode(p, f.meta).value|
    ensures var (m, st, err) := Unmarshal(p, m0, w.stream);
            && err == NoError && Alike(m, f.meta) && HasData(m.option)
            && st.end == w.stream.end && CutAhead(w.(stream := st), f)
  {
    hide Unmarshal, Encode, Targeted, Streams.Pending;
    var b, d, q := Encode(p, f.meta).value, LenBytes(f) + Flat(Data(f)), Streams.Pending(w.stream);
    assert FrameBytes(p, f) == b + d;
    assert q == b + q[|b|..] && q[|b|..] <= d by {
      assert q == (b + d)[..|q|];
    }
    FrameRoundTripIff(p, m0, f.meta, w.stream, q[|b|..]);
    assert f.data.Some? by { assert f.data.None? ==> d == []; }
  }

  /** A frame that is cut off anywhere delivers at most a front part of its data, to its own session; and
      if that is not an error yet, there is nothing left. */
  lemma FrameCut(role: Role, p: Parser, dispatch: Dispatcher, w: Worker, m0: Metadata, f: Frame)
    requires Linked(w) && WellFormed(p, f) && Short(Streams.Pending(w.stream), FrameBytes(p, f))
    requires !Derails(role, dispatch, w, f) && (role == Server ==> !w.table.closed)
    ensures var (w', m, err) := HandleFrame(role, p, dispatch, w, m0);
            && (Touched(w, w', f.meta.id, Carried(role, f))
                || Touched(Before(role, dispatch, w, f), w', f.meta.id, Carried(role, f)))
            && (err == NoError ==> Dry(w'.stream))
  {
    hide Unmarshal, HandleKeep, HandleEnd, HandleNew, HandleKeepAlive, CutAhead, FrameBytes, Short, Streams.Pending,
         Got;
    UnmarshalKeepsEnd(p, m0, w.stream);
    if |Streams.Pending(w.stream)| < |Encode(p, f.meta).value| {
      ShortMeta(p, w, f);
      MetaCut(p, m0, f.meta, w.stream);
    } else {
      MetaBeforeCut(p, m0, w, f);
      var (m, st, err) := Unmarshal(p, m0, w.stream);
      var w1 := w.(stream := st);
      if m.status == KEEP_ALIVE || (m.status == NEW && role == Client) {
        DiscardCut(w1, f);
        assert HandleKeepAlive(w1, m) == Discard(w1) by { KeepAliveDiscards(w1, m); }
        assert m.status == NEW ==>
          HandleNew(role, dispatch, w1, m) == HandleKeepAlive(w1, m) by { ClientNew(dispatch, w1, m, role); }
      } else if m.status == END {
        EndCut(w1, m, f);
      } else if m.status == KEEP {
        KeepCut(p, w1, m, f);
      } else {
        NewCut(dispatch, w1, m, f);
      }
    }
  }

  lemma KeepAliveDiscards(w: Worker, m: Metadata)
    requires w.stream.end != NoError && HasData(m.option)
    ensures HandleKeepAlive(w, m) == Discard(w)
  {
  }

  lemma ShortMeta(p: Parser, w: Worker, f: Frame)
    requires Encodable(p, f) && Short(Streams.Pending(w.stream), FrameBytes(p, f))
    requires |Streams.Pending(w.stream)| < |Encode(p, f.meta).value|
    ensures Short(Streams.Pending(w.stream), Encode(p, f.meta).value)
  {
    hide Encode, Streams.Pending;
    var b, d, q := Encode(p, f.meta).value, LenBytes(f) + Flat(Data(f)), Streams.Pending(w.stream);
    assert FrameBytes(p, f) == b + d;
    assert q == (b + d)[..|q|] && (b + d)[..|q|] == b[..|q|];
  }

  lemma TouchedSorts(role: Role, w: Worker, w': Worker, h: seq<Frame>, f: Frame)
    requires Sorted(role, w, h, true) && Touched(w, w', f.meta.id, Carried(role, f))
    ensures Sorted(role, w', h + [f], false)
  {
    hide Fed, Got;
    forall i | 0 <= i < |w'.opens| ensures Fed(role, h + [f], w'.opens[i], w'.outs[i], false) {
      if w'.outs[i].writes == w.outs[i].writes {
        FedStill(role, h, f, w.opens[i], w.outs[i], w'.outs[i], Live(w, i));
      } else {
        FedMore(role, h, f, w.opens[i], w.outs[i], w'.outs[i], Live(w, i), false);
      }
    }
  }

  lemma CutSorts(role: Role, p: Parser, dispatch: Dispatcher, w: Worker, m0: Metadata, h: seq<Frame>, f: Frame)
    requires Inv(role, w, h) && WellFormed(p, f) && Fresh(role, h, f) && (role == Server ==> !w.table.closed)
    requires Short(Streams.Pending(w.stream), FrameBytes(p, f)) && !Derails(role, dispatch, w, f)
    ensures var (w', m, err) := HandleFrame(role, p, dispatch, w, m0);
            && Sorted(role, w', h + [f], false) && Announced(role, w', h + [f]) && Linked(w')
            && (err == NoError ==> Dry(w'.stream))
  {
    hide HandleFrame, Touched, Sorted, Announced, FrameBytes, WellFormed, Short, Derails;
    FrameCut(role, p, dispatch, w, m0, f);
    HandleLinked(role, p, dispatch, w, m0);
    var w' := HandleFrame(role, p, dispatch, w, m0).0;
    if Touched(w, w', f.meta.id, Carried(role, f)) {
      TouchedSorts(role, w, w', h, f);
      TouchedOpens(w, w', f.meta.id, Carried(role, f));
      AnnouncedMore(role, w, w', h, f);
    } else {
      var packets, w1 := f.meta.target.network == UDP, Before(role, dispatch, w, f);
      assert w1 != w;
      UnseenUnopened(w, h, f.meta.id);
      OpenSorts(role, w, h, true, f.meta.id, packets, dispatch(w.dispatched).value);
      AnnouncedNew(w, w1, h, f, Open(f.meta.id, packets));
      TouchedSorts(role, w1, w', h, f);
      TouchedOpens(w1, w', f.meta.id, Carried(role, f));
      AnnouncedSame(role, w1, w', h + [f]);
    }
  }

  lemma TouchedOpens(w: Worker, w': Worker, id: uint16, c: Bytes)
    requires Touched(w, w', id, c)
    ensures w'.opens == w.opens
  {
  }

  // ---- Whole runs ----

  /** Every output holds a front part of what the frames h carried for its session. */
  ghost predicate Fronts(role: Role, w: Worker, h: seq<Frame>) {
    Linked(w) && Sorted(role, w, h, false) && Announced(role, w, h)
  }

  lemma FrontsClosed(role: Role, w: Worker, h: seq<Frame>)
    requires Fronts(role, w, h)
    ensures Fronts(role, CloseAll(w), h)
  {
    hide Sorted;
    CloseSorts(role, w, h);
    AnnouncedSame(role, w, CloseAll(w), h);
  }

  lemma InvFronts(role: Role, w: Worker, h: seq<Frame>)
    requires Inv(role, w, h)
    ensures Fronts(role, w, h)
  {
  }

  lemma SilentFronts(role: Role, w: Worker, w': Worker, h: seq<Frame>)
    requires Fronts(role, w, h) && Linked(w') && Silent(w, w')
    ensures Fronts(role, w', h)
  {
    hide Fed;
    forall i | 0 <= i < |w'.opens| ensures Fed(role, h, w'.opens[i], w'.outs[i], false) {
      FedSame(role, h, w.opens[i], w.outs[i], w'.outs[i], false, false);
    }
    AnnouncedSame(role, w, w', h);
  }

  /** A turn with nothing pending is the last. */
  lemma DryTurn(role: Role, p: Parser, dispatch: Dispatcher, w: Worker, m0: Metadata, turns: seq<seq<Event>>,
                h: seq<Frame>)
    requires Fronts(role, w, h) && Dry(w.stream) && turns != [] && Timely(role, p, w, turns[0], h)
    ensures var (w', n, err) := MuxServes.Run(role, p, dispatch, w, m0, turns);
            err == w.stream.end && n == 1 && Fronts(role, w', h)
  {
    hide Sorted, Announced, HandleFrame, Timely, Streams.Pending;
    EventsSort(role, p, w, turns[0], h, false);
    ApplyAllLinked(p, w, turns[0]);
    var w1 := ApplyAll(p, w, turns[0]);
    NothingToHandle(role, p, dispatch, w1, m0);
    HandleLinked(role, p, dispatch, w1, m0);
    var w2 := HandleFrame(role, p, dispatch, w1, m0).0;
    SilentFronts(role, w1, w2, h);
    FrontsClosed(role, w2, h);
  }

  lemma WireCut(p: Parser, fs: seq<Frame>, q: Bytes)
    requires AllEncodable(p, fs) && fs != [] && q <= Wire(p, fs)
    ensures if |q| >= |FrameBytes(p, fs[0])|
            then
              && q == FrameBytes(p, fs[0]) + q[|FrameBytes(p, fs[0])|..]
              && q[|FrameBytes(p, fs[0])|..] <= Wire(p, fs[1..])
            else Short(q, FrameBytes(p, fs[0]))
  {
    hide FrameBytes;
    var a, b := FrameBytes(p, fs[0]), Wire(p, fs[1..]);
    assert q == (a + b)[..|q|];
  }

  /** A connection of these frames that ends anywhere: after any number of turns of either end every output
      holds, in order, a front part of what the frames begun so far carried for its session, and nothing
      else. The loop takes at most a turn for each frame and one more. */
  lemma {:induction false} RunFronts(role: Role, p: Parser, dispatch: Dispatcher, w: Worker, m0: Metadata,
                                     turns: seq<seq<Event>>, fs: seq<Frame>, h: seq<Frame>)
    returns (k: nat)
    requires Inv(role, w, h) && (role == Server ==> !w.table.closed) && Legal(role, p, fs, h)
    requires Orderly(role, p, dispatch, w, m0, turns, fs, h)
    requires AllEncodable(p, fs) && Streams.Pending(w.stream) <= Wire(p, fs)
    ensures var (w', n, err) := MuxServes.Run(role, p, dispatch, w, m0, turns);
            && k <= n && k <= |fs| && Fronts(role, w', h + fs[..k])
            && n <= |fs| + 1 && (err == NoError ==> n == |turns| <= |fs|)
    decreases |turns|
  {
    hide Fronts, Sorted, Announced, Legal, HandleFrame, FrameBytes, Timely, ApplyAll, Derails, Fresh, WellFormed,
         Streams.Pending, Short, CloseAll;
    k := 0;
    assert h + fs[..0] == h;
    if turns == [] {
      InvFronts(role, w, h);
    } else if fs == [] {
      InvFronts(role, w, h);
      DryTurn(role, p, dispatch, w, m0, turns, h);
    } else {
      var f, q := fs[0], Streams.Pending(w.stream);
      LegalTail(role, p, fs, h);
      EventsSort(role, p, w, turns[0], h, true);
      ApplyAllLinked(p, w, turns[0]);
      var w1 := ApplyAll(p, w, turns[0]);
      HandleLinked(role, p, dispatch, w1, m0);
      WireCut(p, fs, q);
      var (w2, m, err) := HandleFrame(role, p, dispatch, w1, m0);
      var m1 := if role == Server then BLANK else m;
      assert fs[..1] == [f];
      k := 1;
      if |q| >= |FrameBytes(p, f)| {
        var rest := q[|FrameBytes(p, f)|..];
        FrameSorts(role, p, dispatch, w1, m0, h, f, rest);
        if err == NoError {
          TurnAligned(role, p, dispatch, w1, m0, f, rest);
          var more := RunFronts(role, p, dispatch, w2, m1, turns[1..], fs[1..], h + [f]);
          k := 1 + more;
          assert h + [f] + fs[1..][..more] == h + fs[..k];
        } else {
          SortsFront(role, w2, h + [f]);
          FrontsClosed(role, w2, h + [f]);
        }
      } else {
        CutSorts(role, p, dispatch, w1, m0, h, f);
        SortsFront(role, w2, h + [f]);
        if err != NoError {
          FrontsClosed(role, w2, h + [f]);
        } else if |turns| > 1 {
          DryTurn(role, p, dispatch, w2, m1, turns[1..], h + [f]);
        }
      }
    }
  }

  lemma SortsFront(role: Role, w: Worker, h: seq<Frame>)
    requires Linked(w) && Sorted(role, w, h, false) && Announced(role, w, h)
    ensures Fronts(role, w, h)
  {
  }
}
