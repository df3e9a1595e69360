/** What the other end is told, and when: the frames that end a session, byte by byte. */
module Notices {
  import opened Addresses
  import opened Bytes
  import opened Frames
  import opened Links
  import opened MuxReads
  import opened MuxServes
  import opened MuxWrites
  import opened Sessions
  import Streams

  /** Metadata of four bytes, the id, the status End, and the error option or none. */
  function Notice(id: uint16, failed: bool): Bytes {
    [0, 4, id / 0x100, id % 0x100, 3, if failed then 2 else 0]
  }

  /** What the other end makes of it, whatever it read before and whatever follows. */
  lemma NoticeRead(p: Parser, m0: Metadata, st: Streams.State, id: uint16, failed: bool, suffix: Bytes)
    requires st.end != NoError && Streams.Pending(st) == Notice(id, failed) + suffix
    ensures var (m, st', err) := Unmarshal(p, m0, st);
            && err == NoError && m.status == END && m.id == id && !HasData(m.option)
            && (HasError(m.option) <==> failed)
            && Streams.Pending(st') == suffix && st'.end == st.end
  {
    var b: Bytes := [id / 0x100, id % 0x100, 3, if failed then 2 else 0];
    FourBytes(p, m0, st, b, suffix);
    assert b[..2] == [id / 0x100, id % 0x100];
  }

  /** Metadata of four bytes is taken off the stream and parsed. */
  lemma FourBytes(p: Parser, m0: Metadata, st: Streams.State, b: Bytes, suffix: Bytes)
    requires st.end != NoError && |b| == 4 && Streams.Pending(st) == [0, 4] + b + suffix
    ensures var (m, st', err) := Unmarshal(p, m0, st);
            (m, err) == UnmarshalBytes(p, m0, b) && Streams.Pending(st') == suffix && st'.end == st.end
  {
    hide Streams.Pending, Streams.ReadFull, UnmarshalBytes;
    Streams.ReadFullDelivers(st, 2);
    var (st1, head, err1) := Streams.ReadFull(st, 2);
    assert [0, 4] + b + suffix == [0, 4] + (b + suffix);
    CutFront(head, Streams.Pending(st1), [0, 4], b + suffix);
    assert [0, 4][|head|..] + (b + suffix) == b + suffix;
    Streams.ReadFullDelivers(st1, 4);
    var (st2, bytes, err2) := Streams.ReadFull(st1, 4);
    CutFront(bytes, Streams.Pending(st2), b, suffix);
    assert b[|bytes|..] + suffix == suffix;
  }

  /** The link took one more write, of these bytes. */
  ghost predicate Wrote(l: Link, l': Link, bytes: Bytes) {
    && |l'.writes| == |l.writes| + 1 && l'.writes[..|l.writes|] == l.writes && Flat(l'.writes[|l.writes|]) == bytes
    && l' == l.(calls := l.calls + 1, writes := l'.writes)
  }

  /** It was told so, if it took the write. */
  ghost predicate Told(l: Link, l': Link, id: uint16, failed: bool) {
    if l.Refuses() then l' == l.(calls := l.calls + 1) else Wrote(l, l', Notice(id, failed))
  }

  /** One of these calls of the link is refused. */
  ghost predicate Refusal(l: Link, from: nat, to: int) {
    exists i :: from <= i < to && (l.closed || l.refuses(i))
  }

  lemma RefusedAt(l: Link, i: nat, from: nat, to: int)
    requires from <= i < to && (l.closed || l.refuses(i))
    ensures Refusal(l, from, to)
  {
    assert l.refuses(i) ==> Refusal(l, from, to);
  }

  lemma CloseTells(p: Parser, w: MuxWrites.Writer, l: Link)
    ensures Told(l, CloseWriter(p, w, l), w.id, w.hasError)
  {
    var f := EndFrame(w.id, w.hasError);
    assert Encode(p, f.meta).value == Notice(w.id, w.hasError);
    BuffersFlat(p, f);
    assert FrameBytes(p, f) == Notice(w.id, w.hasError) + [] + [];
  }

  // ---- The end of a writer ----

  /** Frames are all taken unless a call is refused, or there is one that cannot be encoded. */
  lemma {:induction false} EmitAllFails(p: Parser, l: Link, fs: seq<Frame>)
    requires Offerable(fs)
    ensures var (l', err) := EmitAll(p, l, fs);
            && l.calls <= l'.calls && l'.closed == l.closed && l'.refuses == l.refuses
            && (err != NoError <==> Refusal(l, l.calls, l'.calls) || !AllEncodable(p, fs))
    decreases |fs|
  {
    if fs != [] {
      hide MuxWrites.Buffers, Encodable;
      var (l1, err) := Emit(p, l, fs[0]);
      if err == NoError {
        EmitAllFails(p, l1, fs[1..]);
        assert AllEncodable(p, fs) <==> AllEncodable(p, fs[1..]) by { assert fs == [fs[0]] + fs[1..]; }
        assert !l.closed && !l.refuses(l.calls);
      } else if Encodable(p, fs[0]) {
        RefusedAt(l, l.calls, l.calls, l1.calls);
      }
    }
  }

  /** The frame that announces a session can be made: its target can be encoded. */
  predicate Announceable(p: Parser, w: MuxWrites.Writer)
    requires Usable(w)
  {
    w.followup || Encode(p, Metadata(w.dest, w.id, 0, NEW)).Some?
  }

  /** That is all that can be wrong with a session's frames. */
  lemma FramesEncodable(p: Parser, w: MuxWrites.Writer, ps: seq<Bytes>)
    requires Usable(w) && Splittable(w.packets, ps)
    ensures FramesOf(w, ps) != [] && (AllEncodable(p, FramesOf(w, ps)) <==> Announceable(p, w))
  {
    FramesCarryAll(w, ps);
    DataFramesOfferable(w, ps);
    var fs := FramesOf(w, ps);
    hide FramesOf, WriteAddressPort;
    forall i | 0 <= i < |fs| ensures Encodable(p, fs[i]) <==> (i == 0 ==> Announceable(p, w)) {}
  }

  lemma {:induction false} AllFramesEncodable(p: Parser, w: MuxWrites.Writer, ws: seq<seq<Bytes>>)
    requires Usable(w) && Writes(w.packets, ws)
    ensures AllEncodable(p, AllFrames(w, ws)) <==> ws == [] || Announceable(p, w)
    decreases |ws|
  {
    if ws != [] {
      hide Usable, Splittable, Encodable, FramesOf, Announceable;
      var w1 := w.(followup := true);
      FramesEncodable(p, w, ws[0]);
      FollowupUsable(p, w);
      AllFramesEncodable(p, w1, ws[1..]);
      var a, b := FramesOf(w, ws[0]), AllFrames(w1, ws[1..]);
      assert forall i :: 0 <= i < |a| ==> (a + b)[i] == a[i];
      assert forall i :: 0 <= i < |b| ==> (a + b)[|a| + i] == b[i];
    }
  }

  lemma FollowupUsable(p: Parser, w: MuxWrites.Writer)
    requires Usable(w)
    ensures Usable(w.(followup := true)) && Announceable(p, w.(followup := true))
  {
  }

  /** The last call of the link was the frame that ends the session; if the link took it, it was this one. */
  ghost predicate Ended(l: Link, l': Link, id: uint16, failed: bool) {
    && l'.calls > l.calls && l'.refuses == l.refuses && l'.closed == l.closed
    && (!l'.closed && !l'.refuses(l'.calls - 1) ==>
          l'.writes != [] && Flat(l'.writes[|l'.writes| - 1]) == Notice(id, failed))
  }

  lemma CloseEnds(p: Parser, w: MuxWrites.Writer, l: Link, l1: Link)
    requires l.calls <= l1.calls && l1.refuses == l.refuses && l1.closed == l.closed
    ensures Ended(l, CloseWriter(p, w, l1), w.id, w.hasError) && CloseWriter(p, w, l1).calls == l1.calls + 1
  {
    hide CloseWriter, Notice;
    CloseTells(p, w, l1);
  }

  /** A session's writes, and its Close with an error if one of them failed or the input did: the error is
      told if and only if the input failed, a write before was refused, or the session could not be
      announced. */
  lemma WriterEnds(p: Parser, w: MuxWrites.Writer, l: Link, ws: seq<seq<Bytes>>, broken: bool)
    requires Usable(w) && Writes(w.packets, ws)
    ensures var (w1, l1, err) := WriteAll(p, w, l, ws);
            var l' := CloseWriter(p, w1.(hasError := broken || err != NoError), l1);
            var failed := broken || Refusal(l, l.calls, l'.calls - 1) || (ws != [] && !Announceable(p, w));
            Ended(l, l', w.id, failed) && (failed <==> broken || err != NoError)
  {
    hide EmitAll, CloseWriter, AllEncodable, Announceable, Splittable, Usable, AllFrames, Ended;
    WriteAllEmits(p, w, l, ws);
    EmitAllFails(p, l, AllFrames(w, ws));
    AllFramesEncodable(p, w, ws);
    var (w1, l1, err) := WriteAll(p, w, l, ws);
    CloseEnds(p, w1.(hasError := broken || err != NoError), l, l1);
  }

  // ---- A frame that is answered ----

  /** A copy ends with a failure to write exactly when a call was refused. */
  lemma {:induction false} CopyRefused(r: Reader, l: Link)
    requires StreamOf(r).end != NoError
    ensures var (r', out', e) := Copy(r, Some(l));
            && out'.Some? && l.calls <= out'.value.calls
            && (e.WriteError? <==> Refusal(l, l.calls, out'.value.calls))
    decreases Streams.Work(StreamOf(r))
  {
    hide ReadOnce, Copy, Streams.Work;
    CopyUnfold(r, Some(l));
    var (r1, o) := ReadOnce(r);
    var (out1, werr) := Pass(Some(l), o.mb);
    if werr != NoError {
      RefusedAt(l, l.calls, l.calls, out1.value.calls);
    } else if o.err == NoError {
      CopyRefused(r1, out1.value);
    }
  }

  /** Of all well-formed frames exactly two kinds are answered: a Keep frame with data for a session that
      is not there, or for one whose output refuses it. The answer ends the session, without an error, and
      is the one write that a frame makes on the link. */
  lemma FrameTells(role: Role, p: Parser, dispatch: Dispatcher, w: Worker, m0: Metadata, f: Frame, rest: Bytes)
    requires Linked(w) && WellFormed(p, f) && At(w, w.stream.end, FrameBytes(p, f) + rest)
    ensures var (w', m, err) := HandleFrame(role, p, dispatch, w, m0);
            var id := f.meta.id;
            && |w'.outs| >= |w.outs|
            && if f.meta.status == KEEP && f.data.Some? &&
                  (id in w.table.live ==>
                     var o := w.table.live[id].out; Refusal(w.outs[o], w.outs[o].calls, w'.outs[o].calls))
               then Told(w.link, w'.link, id, false) && id !in w'.table.live
               else w'.link == w.link
  {
    hide Unmarshal, HandleKeep, HandleEnd, HandleNew, HandleKeepAlive, Ahead, FrameBytes, Told, Refusal;
    MetaStep(p, m0, w, f, rest);
    UnmarshalKeepsEnd(p, m0, w.stream);
    var (m, st, err) := Unmarshal(p, m0, w.stream);
    var w1 := w.(stream := st);
    if m.status == KEEP {
      KeepTells(p, w1, m, f);
    } else {
      OthersTellNothing(role, dispatch, w1, m);
    }
  }

  lemma KeepTells(p: Parser, w: Worker, m: Metadata, f: Frame)
    requires Linked(w) && (HasData(m.option) <==> f.data.Some?)
    ensures var (w', err) := HandleKeep(p, w, m);
            && |w'.outs| == |w.outs|
            && if f.data.Some? &&
                  (m.id in w.table.live ==>
                     var o := w.table.live[m.id].out; Refusal(w.outs[o], w.outs[o].calls, w'.outs[o].calls))
               then Told(w.link, w'.link, m.id, false) && m.id !in w'.table.live
               else w'.link == w.link
  {
    hide Copy, CloseWriter, Told;
    CloseTells(p, MuxWrites.Writer(m.id, Destination(None, 0, Unknown), false, true, false), w.link);
    if m.id in w.table.live {
      var s := w.table.live[m.id];
      var r0, out0 := NewReader(s.packets, w.stream), w.outs[s.out];
      CopyKeeps(r0, Some(out0));
      CopyRefused(r0, out0);
      CopyKeeps(Copy(r0, Some(out0)).0, None);
    }
  }

  lemma OthersTellNothing(role: Role, dispatch: Dispatcher, w: Worker, m: Metadata)
    requires Linked(w)
    ensures forall w' | w' in {HandleEnd(w, m).0, HandleKeepAlive(w, m).0, HandleNew(role, dispatch, w, m).0} ::
              w'.link == w.link && |w'.outs| >= |w.outs|
  {
    hide Copy;
  }

  /** Of what happens between frames, the end of a session by its own goroutine is told, and nothing else. */
  lemma EventTells(p: Parser, w: Worker, e: Event)
    requires Linked(w)
    ensures if e.Ended? && e.o < |w.outs| then Told(w.link, Apply(p, w, e).link, w.opens[e.o].id, e.failed)
            else Apply(p, w, e).link == w.link
  {
    if e.Ended? && e.o < |w.outs| {
      hide CloseWriter;
      CloseTells(p, MuxWrites.Writer(w.opens[e.o].id, Destination(None, 0, Unknown), false, true, e.failed), w.link);
    }
  }
}
