/** A session that nothing disturbs gets everything, whatever happens to the others. */
module Delivery {
  import opened Bytes
  import opened Buffers
  import opened Addresses
  import opened Demux
  import opened Frames
  import opened Links
  import opened MuxReads
  import opened MuxWrites
  import opened MuxServes
  import opened Sessions
  import Streams

  // ---- An output that refuses nothing keeps its session alive ----

  lemma {:induction false} CopyAccepts(r: Reader, out: Option<Link>)
    requires StreamOf(r).end != NoError && (out.Some? ==> AcceptsAll(out.value))
    ensures var (r', out', e) := Copy(r, out);
            !e.WriteError? && out'.Some? == out.Some? && (out.Some? ==> AcceptsAll(out'.value))
    decreases Streams.Work(StreamOf(r))
  {
    hide ReadOnce, Copy, Streams.Work;
    CopyUnfold(r, out);
    var (r1, o) := ReadOnce(r);
    var (out1, werr) := Pass(out, o.mb);
    if o.err == NoError {
      CopyAccepts(r1, out1);
    }
  }

  /** The session is live, and its output refuses nothing. */
  ghost predicate Thrives(w: Worker, id: uint16) {
    |w.outs| == |w.opens| && id in w.table.live && w.table.live[id].out < |w.outs|
    && AcceptsAll(w.outs[w.table.live[id].out])
  }

  lemma KeepThrives(p: Parser, w: Worker, m: Metadata)
    requires Linked(w) && Thrives(w, m.id) && HandleKeep(p, w, m).1 == NoError
    ensures Thrives(HandleKeep(p, w, m).0, m.id)
  {
    hide Copy;
    var s := w.table.live[m.id];
    CopyAccepts(NewReader(s.packets, w.stream), Some(w.outs[s.out]));
  }

  lemma NewThrives(dispatch: Dispatcher, w: Worker, m: Metadata, f: Frame, rest: Bytes)
    requires Ahead(w, f, rest) && Linked(w) && |Flat(Data(f))| < 0x1_0000 && !w.table.closed
    requires m == f.meta && m.status == NEW && (HasData(m.option) <==> f.data.Some?)
    requires dispatch(w.dispatched).Some? && forall i :: !dispatch(w.dispatched).value(i)
    requires m.target.network == UDP ==> |Flat(Data(f))| <= SIZE
    ensures Thrives(HandleNew(Server, dispatch, w, m).0, m.id)
  {
    hide Copy, Pass, Copied, Streams.Pending;
    var packets := m.target.network == UDP;
    var w1 := OpenSession(w, m.id, packets, dispatch(w.dispatched).value);
    assert w1.outs[|w.outs|] == Link([], 0, false, dispatch(w.dispatched).value);
    if HasData(m.option) {
      var out := Some(w1.outs[|w.outs|]);
      CopyData(w1, f, rest, packets, out);
      CopyAccepts(NewReader(packets, w1.stream), out);
      var (r, out', e) := Copy(NewReader(packets, w1.stream), out);
      assert e.Done?;
      var w' := HandleNew(Server, dispatch, w, m).0;
      assert w'.table == w1.table && w'.outs == w1.outs[|w.outs| := out'.value];
    }
  }

  /** A frame of a session that nothing disturbs, other than its last, leaves it thriving. */
  lemma FrameThrives(p: Parser, dispatch: Dispatcher, w: Worker, m0: Metadata, f: Frame, rest: Bytes)
    requires Linked(w) && WellFormed(p, f) && At(w, w.stream.end, FrameBytes(p, f) + rest) && !w.table.closed
    requires f.meta.status == KEEP ==> Thrives(w, f.meta.id)
    requires f.meta.status == NEW ==>
               && dispatch(w.dispatched).Some? && (forall i :: !dispatch(w.dispatched).value(i))
               && !Derails(Server, dispatch, w, f)
    requires f.meta.status in {NEW, KEEP} && HandleFrame(Server, p, dispatch, w, m0).2 == NoError
    ensures Thrives(HandleFrame(Server, p, dispatch, w, m0).0, f.meta.id)
  {
    hide Unmarshal, HandleKeep, HandleNew, FrameBytes;
    MetaStep(p, m0, w, f, rest);
    UnmarshalKeepsEnd(p, m0, w.stream);
    var (m, st, err) := Unmarshal(p, m0, w.stream);
    var w1 := w.(stream := st);
    if f.meta.status == KEEP {
      KeepThrives(p, w1, m);
    } else {
      NewThrives(dispatch, w1, m, f, rest);
    }
  }

  // ---- A session through a run ----

  predicate NotEnded(h: seq<Frame>, id: uint16) {
    forall i :: 0 <= i < |h| && h[i].meta.id == id ==> h[i].meta.status != END
  }

  /** The session's output holds everything so far; before the End frame, the session is live and its
      output refuses nothing. */
  ghost predicate Complete(w: Worker, h: seq<Frame>, id: uint16) {
    |w.outs| == |w.opens| &&
    (Unseen(h, id) ||
     exists i: nat :: CompleteAt(w, h, id, i))
  }

  ghost predicate CompleteAt(w: Worker, h: seq<Frame>, id: uint16, i: nat)
    requires |w.outs| == |w.opens|
  {
    && i < |w.opens| && w.opens[i].id == id && Fed(Server, h, w.opens[i], w.outs[i], true)
    && (NotEnded(h, id) ==> Live(w, i) && AcceptsAll(w.outs[i]))
  }

  /** The session's frames come in the order its writer makes them: New first, End last. */
  predicate Spoken(h: seq<Frame>, f: Frame, id: uint16) {
    f.meta.id == id ==>
      f.meta.status in {NEW, KEEP, END} && (f.meta.status == NEW <==> Unseen(h, id)) && NotEnded(h, id)
  }

  /** Events that end other sessions only. */
  predicate Spares(w: Worker, es: seq<Event>, id: uint16) {
    forall i :: 0 <= i < |es| ==> es[i].Ended? && (es[i].o < |w.opens| ==> w.opens[es[i].o].id != id)
  }

  lemma {:induction false} EventsComplete(p: Parser, w: Worker, es: seq<Event>, h: seq<Frame>, id: uint16)
    requires Linked(w) && Complete(w, h, id) && Spares(w, es, id)
    ensures Complete(ApplyAll(p, w, es), h, id)
    decreases |es|
  {
    hide Fed, AcceptsAll;
    if es != [] {
      var w1 := Apply(p, w, es[0]);
      ApplyLinked(p, w, es[0]);
      if !Unseen(h, id) {
        var i: nat :| CompleteAt(w, h, id, i);
        assert CompleteAt(w1, h, id, i);
      }
      EventsComplete(p, w1, es[1..], h, id);
    }
  }

  /** A frame for another session does not touch this one. */
  lemma OtherComplete(p: Parser, dispatch: Dispatcher, w: Worker, m0: Metadata, h: seq<Frame>, f: Frame, rest: Bytes,
                      id: uint16)
    requires Inv(Server, w, h) && WellFormed(p, f) && Fresh(Server, h, f) && !w.table.closed
    requires At(w, w.stream.end, FrameBytes(p, f) + rest) && HandleFrame(Server, p, dispatch, w, m0).2 == NoError
    requires f.meta.id != id && Complete(w, h, id)
    ensures Complete(HandleFrame(Server, p, dispatch, w, m0).0, h + [f], id)
  {
    hide HandleFrame, Fed, Got, FrameBytes, WellFormed, At, AcceptsAll;
    if f.meta.status == NEW {
      UnseenUnopened(w, h, f.meta.id);
    }
    FrameEffect(Server, p, dispatch, w, m0, f, rest);
    HandleLinked(Server, p, dispatch, w, m0);
    var w' := HandleFrame(Server, p, dispatch, w, m0).0;
    if Unseen(h, id) {
      assert Unseen(h + [f], id);
    } else {
      var i: nat :| CompleteAt(w, h, id, i);
      FedMore(Server, h, f, w.opens[i], w.outs[i], w'.outs[i], true, true);
      assert NotEnded(h + [f], id) ==> NotEnded(h, id) by {
        assert forall n :: 0 <= n < |h| ==> (h + [f])[n] == h[n];
      }
      assert CompleteAt(w', h + [f], id, i);
    }
  }

  /** Nor does a frame of its own leave anything behind. */
  lemma {:induction false} OwnComplete(p: Parser, dispatch: Dispatcher, w: Worker, m0: Metadata, h: seq<Frame>,
                                       f: Frame, rest: Bytes)
    requires Inv(Server, w, h) && WellFormed(p, f) && Fresh(Server, h, f) && !w.table.closed
    requires At(w, w.stream.end, FrameBytes(p, f) + rest) && HandleFrame(Server, p, dispatch, w, m0).2 == NoError
    requires Spoken(h, f, f.meta.id) && Complete(w, h, f.meta.id)
    requires f.meta.status == NEW ==>
               && dispatch(w.dispatched).Some? && (forall i :: !dispatch(w.dispatched).value(i))
               && !Derails(Server, dispatch, w, f)
    ensures Complete(HandleFrame(Server, p, dispatch, w, m0).0, h + [f], f.meta.id)
  {
    hide HandleFrame, Fed, Got, FrameBytes, WellFormed, At, AcceptsAll, Derails;
    var id := f.meta.id;
    var w' := HandleFrame(Server, p, dispatch, w, m0).0;
    FrameSorts(Server, p, dispatch, w, m0, h, f, rest);
    assert (h + [f])[|h|] == f;
    if f.meta.status == END {
      var i: nat :| CompleteAt(w, h, id, i);
      FrameEffect(Server, p, dispatch, w, m0, f, rest);
      EndFed(h, f, w, w', i);
      assert CompleteAt(w', h + [f], id, i);
    } else {
      FrameThrives(p, dispatch, w, m0, f, rest);
      var i := w'.table.live[id].out;
      assert Live(w', i);
      assert CompleteAt(w', h + [f], id, i);
    }
  }

  lemma EndFed(h: seq<Frame>, f: Frame, w: Worker, w': Worker, i: nat)
    requires |w.outs| == |w.opens| && CompleteAt(w, h, f.meta.id, i) && f.meta.status == END
    requires Effect(w, w', f.meta.id, Carried(Server, f))
    ensures Fed(Server, h + [f], w'.opens[i], w'.outs[i], true)
  {
    var l, l' := w.outs[i], w'.outs[i];
    assert Got(l, l', w.opens[i].packets, [], true) by {
      assert l.writes + Whole([]) == l.writes;
    }
    FedMore(Server, h, f, w.opens[i], l, l', true, true);
  }

  /** In no turn does an event end the session, and the dispatcher serves it with an output that refuses
      nothing. The other sessions may fare as they will. */
  ghost predicate Undisturbed(p: Parser, dispatch: Dispatcher, w: Worker, m0: Metadata, turns: seq<seq<Event>>,
                              fs: seq<Frame>, id: uint16)
    requires Linked(w) && |turns| <= |fs|
    decreases |turns|
  {
    turns == [] ||
    (&& Spares(w, turns[0], id)
     && (ApplyAllLinked(p, w, turns[0]);
         var w1 := ApplyAll(p, w, turns[0]);
         HandleLinked(Server, p, dispatch, w1, m0);
         var w2 := HandleFrame(Server, p, dispatch, w1, m0).0;
         && (fs[0].meta.status == NEW && fs[0].meta.id == id ==>
               dispatch(w1.dispatched).Some? && forall i :: !dispatch(w1.dispatched).value(i))
         && Undisturbed(p, dispatch, w2, BLANK, turns[1..], fs[1..], id)))
  }

  ghost predicate AllSpoken(fs: seq<Frame>, h: seq<Frame>, id: uint16) {
    forall i :: 0 <= i < |fs| ==> Spoken(h + fs[..i], fs[i], id)
  }

  lemma SpokenTail(fs: seq<Frame>, h: seq<Frame>, id: uint16)
    requires fs != [] && AllSpoken(fs, h, id)
    ensures Spoken(h, fs[0], id) && AllSpoken(fs[1..], h + [fs[0]], id)
  {
    hide Spoken;
    assert h + fs[..0] == h;
    forall i | 0 <= i < |fs[1..]| ensures Spoken(h + [fs[0]] + fs[1..][..i], fs[1..][i], id) {
      assert fs[1..][i] == fs[i + 1] && h + [fs[0]] + fs[1..][..i] == h + fs[..i + 1];
    }
  }

  /** One turn keeps the session complete. */
  lemma TurnCompletes(p: Parser, dispatch: Dispatcher, w: Worker, m0: Metadata, h: seq<Frame>, f: Frame, rest: Bytes,
                      id: uint16)
    requires Inv(Server, w, h) && WellFormed(p, f) && Fresh(Server, h, f) && !w.table.closed
    requires At(w, w.stream.end, FrameBytes(p, f) + rest) && HandleFrame(Server, p, dispatch, w, m0).2 == NoError
    requires Spoken(h, f, id) && Complete(w, h, id) && !Derails(Server, dispatch, w, f)
    requires f.meta.status == NEW && f.meta.id == id ==>
               dispatch(w.dispatched).Some? && forall i :: !dispatch(w.dispatched).value(i)
    ensures Complete(HandleFrame(Server, p, dispatch, w, m0).0, h + [f], id)
  {
    hide HandleFrame, Complete, FrameBytes, WellFormed, Derails, Inv, At;
    if f.meta.id == id {
      OwnComplete(p, dispatch, w, m0, h, f, rest);
    } else {
      OtherComplete(p, dispatch, w, m0, h, f, rest, id);
    }
  }

  lemma {:induction false} RunCompletes(p: Parser, dispatch: Dispatcher, w: Worker, m0: Metadata,
                                        turns: seq<seq<Event>>,
                                        fs: seq<Frame>, h: seq<Frame>, tail: Bytes, id: uint16)
    requires Inv(Server, w, h) && !w.table.closed && |turns| <= |fs| && Legal(Server, p, fs, h) && OnlyEnds(turns)
    requires Undisturbed(p, dispatch, w, m0, turns, fs, id) && AllSpoken(fs, h, id) && Complete(w, h, id)
    requires At(w, w.stream.end, Wire(p, fs) + tail)
    requires MuxServes.Run(Server, p, dispatch, w, m0, turns).2 == NoError
    ensures Complete(MuxServes.Run(Server, p, dispatch, w, m0, turns).0, h + fs[..|turns|], id)
    decreases |turns|
  {
    hide Sorted, Announced, Legal, HandleFrame, FrameBytes, Timely, ApplyAll, Derails, Stops, Fresh, WellFormed,
         Complete, Spoken, AllSpoken, Spares, CloseAll;
    LegalEncodable(Server, p, fs, h);
    if turns == [] {
      assert h + fs[..0] == h;
    } else {
      var f := fs[0];
      LegalTail(Server, p, fs, h);
      LegalEncodable(Server, p, fs[1..], h + [f]);
      SpokenTail(fs, h, id);
      EndsAreTimely(p, w, turns[0], h);
      EventsSort(Server, p, w, turns[0], h, true);
      ApplyAllLinked(p, w, turns[0]);
      EventsComplete(p, w, turns[0], h, id);
      var w1 := ApplyAll(p, w, turns[0]);
      HandleLinked(Server, p, dispatch, w1, m0);
      var rest := Wire(p, fs[1..]) + tail;
      Streams.Glue(FrameBytes(p, f), Wire(p, fs[1..]), tail);
      FrameSorts(Server, p, dispatch, w1, m0, h, f, rest);
      TurnAligned(Server, p, dispatch, w1, m0, f, rest);
      TurnCompletes(p, dispatch, w1, m0, h, f, rest, id);
      var w2 := HandleFrame(Server, p, dispatch, w1, m0).0;
      RunCompletes(p, dispatch, w2, BLANK, turns[1..], fs[1..], h + [f], tail, id);
      assert h + [f] + fs[1..][..|turns| - 1] == h + fs[..|turns|];
    }
  }

  // ---- The order of a session's frames on the connection ----

  lemma {:induction false} SelectAppend(a: seq<Frame>, b: seq<Frame>, id: uint16)
    ensures Select(a + b, id) == Select(a, id) + Select(b, id)
    decreases |b|
  {
    if b == [] {
      assert a + b == a;
    } else {
      var init := b[..|b| - 1];
      SelectAppend(a, init, id);
      assert (a + b)[..|a + b| - 1] == a + init && (a + b)[|a + b| - 1] == b[|b| - 1];
    }
  }

  lemma UnseenIsEmpty(h: seq<Frame>, id: uint16)
    ensures Unseen(h, id) <==> Select(h, id) == []
  {
    if Select(h, id) != [] {
      SelectedIn(h, id, Select(h, id)[0]);
    }
    forall i | 0 <= i < |h| && h[i].meta.id == id ensures h[i] in Select(h, id) {
      SelectedOnly(h, id, i);
    }
  }

  /** Where a frame stands among those of its session. */
  lemma Standing(h: seq<Frame>, id: uint16, i: nat)
    requires i < |h| && h[i].meta.id == id
    ensures var mine, before := Select(h, id), Select(h[..i], id);
            |before| < |mine| && mine[|before|] == h[i] && mine[..|before|] == before
  {
    assert h == h[..i] + ([h[i]] + h[i + 1..]);
    SelectAppend(h[..i], [h[i]] + h[i + 1..], id);
    SelectAppend([h[i]], h[i + 1..], id);
    assert Select([h[i]], id) == [h[i]];
  }

  /** A session that has sent something speaks in order. */
  lemma SpeaksInOrder(h: seq<Frame>, s: Session, j: nat)
    requires Speaks(h, s, j) && j > 0
    ensures AllSpoken(h, [], s.id)
  {
    forall i | 0 <= i < |h| ensures Spoken([] + h[..i], h[i], s.id) {
      assert [] + h[..i] == h[..i];
      if h[i].meta.id == s.id {
        SpokenAt(h, s, j, i);
      }
    }
  }

  lemma SpokenAt(h: seq<Frame>, s: Session, j: nat, i: nat)
    requires Speaks(h, s, j) && j > 0 && i < |h| && h[i].meta.id == s.id
    ensures Spoken(h[..i], h[i], s.id)
  {
    hide AllFrames, Select;
    var fs, mine, before := AllFrames(WriterOf(s), s.ws), Select(h, s.id), Select(h[..i], s.id);
    AllFramesCarryAll(WriterOf(s), s.ws);
    Standing(h, s.id, i);
    UnseenIsEmpty(h[..i], s.id);
    var k := |before|;
    assert forall x :: 0 <= x < j ==> mine[x] == fs[x];
    forall n | 0 <= n < i && h[..i][n].meta.id == s.id ensures h[..i][n].meta.status != END {
      SelectedOnly(h[..i], s.id, n);
      var x :| 0 <= x < k && before[x] == h[..i][n];
      assert mine[x] == before[x] && mine[x] == fs[x];
    }
  }

  /** If nothing disturbs a session and the loop runs on, then once all its frames were handled its
      output holds exactly what its writer was given, even after its End frame. */
  lemma UndisturbedGetsAll(p: Parser, dispatch: Dispatcher, turns: seq<seq<Event>>, fs: seq<Frame>,
                           st: Streams.State, link: Link, tail: Bytes, s: Session)
    requires Legal(Server, p, fs, []) && |turns| == |fs| && OnlyEnds(turns)
    requires st.end != NoError && Streams.Pending(st) == Wire(p, fs) + tail
    requires Writes(s.dest.network == UDP, s.ws) && s.ws != []
    requires Speaks(fs, s, |AllFrames(WriterOf(s), s.ws)|)
    requires Undisturbed(p, dispatch, Begin(st, link), BLANK, turns, fs, s.id)
    requires MuxServes.Run(Server, p, dispatch, Begin(st, link), BLANK, turns).2 == NoError
    ensures var w := MuxServes.Run(Server, p, dispatch, Begin(st, link), BLANK, turns).0;
            && |w.outs| == |w.opens|
            && exists i :: 0 <= i < |w.opens| && w.opens[i].id == s.id && Delivers(w.outs[i], s, true)
  {
    hide Sorted, Announced, Legal, Orderly, MuxServes.Run, Wire, Streams.Pending, Undisturbed, Fed, Speaks, AllSpoken,
         Delivers;
    var w0, j := Begin(st, link), |AllFrames(WriterOf(s), s.ws)|;
    LegalEncodable(Server, p, fs, []);
    BeginInv(Server, st, link);
    FramesOfSome(WriterOf(s), s.ws[0]);
    SpeaksInOrder(fs, s, j);
    assert Complete(w0, [], s.id);
    EndsAreOrderly(p, dispatch, w0, BLANK, turns, fs, []);
    RunSorts(Server, p, dispatch, w0, BLANK, turns, fs, [], tail);
    RunCompletes(p, dispatch, w0, BLANK, turns, fs, [], tail, s.id);
    assert [] + fs[..|turns|] == fs && fs[..|fs|] == fs;
    var w := MuxServes.Run(Server, p, dispatch, w0, BLANK, turns).0;
    SpeaksSeen(fs, s);
    var i: nat :| CompleteAt(w, fs, s.id, i);
    SortedDelivers(w, fs, s, j, i, true);
  }

  lemma SpeaksSeen(h: seq<Frame>, s: Session)
    requires Writes(s.dest.network == UDP, s.ws) && s.ws != [] && Speaks(h, s, |AllFrames(WriterOf(s), s.ws)|)
    ensures !Unseen(h, s.id)
  {
    hide DataFrames;
    var fs := AllFrames(WriterOf(s), s.ws);
    FramesOfSome(WriterOf(s), s.ws[0]);
    assert fs[..|fs|] == fs && fs != [];
    UnseenIsEmpty(h, s.id);
  }

  lemma FramesOfSome(w: Writer, ps: seq<Bytes>)
    requires Splittable(w.packets, ps)
    ensures FramesOf(w, ps) != []
  {
  }

  // ---- A server that serves everyone ----

  /** No frame of a session over UDP is longer than a buffer. */
  ghost predicate Tame(fs: seq<Frame>) {
    forall i, j | 0 <= i < |fs| && 0 <= j < |fs| ::
      fs[i].meta.status == NEW && fs[i].meta.target.network == UDP && fs[j].meta.id == fs[i].meta.id ==>
        |Flat(Data(fs[j]))| <= SIZE
  }

  /** Every session gets an output, and the outputs refuse nothing. */
  ghost predicate Gentle(dispatch: Dispatcher) {
    forall i :: dispatch(i).Some? && forall c :: !dispatch(i).value(c)
  }

  /** Then no tame frame stops the loop. */
  lemma TameGoesOn(dispatch: Dispatcher, w: Worker, h: seq<Frame>, f: Frame)
    requires Linked(w) && Announced(Server, w, h) && Gentle(dispatch) && Tame(h + [f])
    ensures !Stops(Server, dispatch, w, f)
  {
    var g := Get(w.table, f.meta.id);
    if f.meta.status == KEEP && g.Some? && g.value.packets {
      assert AnnouncedBy(h, w.opens[g.value.out]);
      var j :| 0 <= j < |h| && h[j].meta.status == NEW && h[j].meta.id == f.meta.id && h[j].meta.target.network == UDP;
      assert (h + [f])[j] == h[j] && (h + [f])[|h|] == f;
    }
  }

  lemma TameFront(fs: seq<Frame>, h: seq<Frame>, n: nat)
    requires Tame(h + fs) && n <= |fs|
    ensures Tame(h + fs[..n])
  {
    assert forall i :: 0 <= i < |h + fs[..n]| ==> (h + fs[..n])[i] == (h + fs)[i];
  }

  /** Every frame is handled. */
  lemma {:induction false} AllServed(p: Parser, dispatch: Dispatcher, w: Worker, turns: seq<seq<Event>>,
                                     fs: seq<Frame>, h: seq<Frame>, tail: Bytes)
    requires Inv(Server, w, h) && !w.table.closed && |turns| <= |fs| && Legal(Server, p, fs, h) && OnlyEnds(turns)
    requires At(w, w.stream.end, Wire(p, fs) + tail) && Gentle(dispatch) && Tame(h + fs)
    ensures MuxServes.Run(Server, p, dispatch, w, BLANK, turns).2 == NoError
    decreases |turns|
  {
    hide Sorted, Announced, Legal, HandleFrame, FrameBytes, Timely, ApplyAll, Derails, Stops, Fresh, WellFormed,
         Tame, Gentle, CloseAll;
    LegalEncodable(Server, p, fs, h);
    if turns != [] {
      var f := fs[0];
      LegalTail(Server, p, fs, h);
      LegalEncodable(Server, p, fs[1..], h + [f]);
      EndsAreTimely(p, w, turns[0], h);
      EventsSort(Server, p, w, turns[0], h, true);
      ApplyAllLinked(p, w, turns[0]);
      var w1 := ApplyAll(p, w, turns[0]);
      HandleLinked(Server, p, dispatch, w1, BLANK);
      var rest := Wire(p, fs[1..]) + tail;
      Streams.Glue(FrameBytes(p, f), Wire(p, fs[1..]), tail);
      TameFront(fs, h, 1);
      assert fs[..1] == [f];
      TameGoesOn(dispatch, w1, h, f);
      FrameAlignment(Server, p, dispatch, w1, BLANK, f, rest);
      FrameSorts(Server, p, dispatch, w1, BLANK, h, f, rest);
      assert h + [f] + fs[1..] == h + fs;
      AllServed(p, dispatch, HandleFrame(Server, p, dispatch, w1, BLANK).0, turns[1..], fs[1..], h + [f], tail);
    }
  }

  /** Left alone, no session is disturbed. */
  lemma {:induction false} QuietUndisturbed(p: Parser, dispatch: Dispatcher, w: Worker, n: nat, fs: seq<Frame>,
                                            id: uint16)
    requires Linked(w) && n <= |fs| && Gentle(dispatch)
    ensures Undisturbed(p, dispatch, w, BLANK, Quiet(n), fs, id)
    decreases n
  {
    hide HandleFrame, ApplyAll;
    if n > 0 {
      assert Quiet(n)[0] == [] && Quiet(n)[1..] == Quiet(n - 1);
      ApplyAllLinked(p, w, []);
      var w1 := ApplyAll(p, w, []);
      HandleLinked(Server, p, dispatch, w1, BLANK);
      QuietUndisturbed(p, dispatch, HandleFrame(Server, p, dispatch, w1, BLANK).0, n - 1, fs[1..], id);
    }
  }
}
