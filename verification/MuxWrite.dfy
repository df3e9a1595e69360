/** common/mux/writer.go on values: the frames a session's writer makes of what it is given. */
module MuxWrites {
  import opened Bytes
  import opened MultiBuffers
  import opened Addresses
  import opened Frames
  import opened Links
  import Chunks

  datatype Frame = Frame(meta: Metadata, data: Option<seq<Bytes>>)

  /** A session's writer: its id, its target, whether it carries packets, and what it has done. */
  datatype Writer = Writer(id: uint16, dest: Destination, packets: bool, followup: bool, hasError: bool)

  /** The length field of a frame with data. */
  function LenBytes(f: Frame): Bytes {
    if f.data.None? then [] else Be16(|Flat(f.data.value)| % 0x1_0000)
  }

  function Data(f: Frame): seq<Bytes> {
    if f.data.None? then [] else f.data.value
  }

  predicate Encodable(p: Parser, f: Frame) {
    Writable(f.meta) && ProperTarget(f.meta) && Encode(p, f.meta).Some?
  }

  /** The buffers of one frame, which go to the link in one write. */
  function Buffers(p: Parser, f: Frame): seq<Bytes>
    requires Encodable(p, f)
  {
    [Encode(p, f.meta).value + LenBytes(f)] + Data(f)
  }

  function FrameBytes(p: Parser, f: Frame): Bytes
    requires Encodable(p, f)
  {
    Encode(p, f.meta).value + LenBytes(f) + Flat(Data(f))
  }

  lemma BuffersFlat(p: Parser, f: Frame)
    requires Encodable(p, f)
    ensures Flat(Buffers(p, f)) == FrameBytes(p, f)
  {
    assert Buffers(p, f)[1..] == Data(f);
  }

  /** The target can be put in a New frame without a panic. */
  predicate Usable(w: Writer) {
    (w.dest.address.Some? ==> Proper(w.dest.address.value)) && (!w.followup ==> w.dest.address.Some?)
  }

  function NextMeta(w: Writer): Metadata {
    Metadata(w.dest, w.id, 0, if w.followup then KEEP else NEW)
  }

  function NextFrame(w: Writer, data: Option<seq<Bytes>>): Frame {
    Frame(if data.None? then NextMeta(w) else NextMeta(w).(option := DATA), data)
  }

  /** A frame goes to the link, unless its target cannot be encoded. */
  function Emit(p: Parser, l: Link, f: Frame): (Link, Error)
    requires Writable(f.meta) && ProperTarget(f.meta)
  {
    if !Encodable(p, f) then (l, Failure("cannot encode")) else Send(l, Buffers(p, f))
  }

  /** What the loop cuts off: a slice of at most 8192 bytes, or one packet. */
  function Cut(packets: bool, ps: seq<Bytes>): seq<Bytes>
    requires packets ==> ps != []
  {
    if packets then ps[..1] else Taken(ps, Chunks.SLICE)
  }

  function Rest(packets: bool, ps: seq<Bytes>): seq<Bytes>
    requires packets ==> ps != []
  {
    if packets then ps[1..] else Left(ps, Chunks.SLICE)
  }

  /** SplitSize panics on a buffer longer than a slice; SplitFirst takes any. */
  predicate Splittable(packets: bool, ps: seq<Bytes>) {
    !packets ==> Chunks.Splittable(ps)
  }

  function Size(ps: seq<Bytes>): nat {
    |Flat(ps)| + |ps|
  }

  lemma CutFacts(packets: bool, ps: seq<Bytes>)
    requires Flat(ps) != [] && Splittable(packets, ps)
    ensures ps != [] && Size(Rest(packets, ps)) < Size(ps) && Splittable(packets, Rest(packets, ps))
    ensures Flat(Cut(packets, ps)) + Flat(Rest(packets, ps)) == Flat(ps)
    ensures !packets ==> 0 < |Flat(Cut(packets, ps))| <= Chunks.SLICE
  {
    if packets {
      FlatSplit(ps, 1);
    } else {
      Chunks.LeftSplittable(ps);
      SplitSizeProgress(ps, Chunks.SLICE);
    }
  }

  /** The loop of WriteMultiBuffer: one frame for each piece, until one is refused. */
  function WriteData(p: Parser, w: Writer, l: Link, ps: seq<Bytes>): (Writer, Link, Error)
    requires Usable(w) && Splittable(w.packets, ps)
    decreases Size(ps)
  {
    if Flat(ps) == [] then (w, l, NoError)
    else
      CutFacts(w.packets, ps);
      var (l1, err) := Emit(p, l, NextFrame(w, Some(Cut(w.packets, ps))));
      var w1 := w.(followup := true);
      if err != NoError then (w1, l1, err) else WriteData(p, w1, l1, Rest(w.packets, ps))
  }

  lemma WriteDataUnfold(p: Parser, w: Writer, l: Link, ps: seq<Bytes>)
    requires Usable(w) && Splittable(w.packets, ps)
    ensures Flat(ps) == [] ==> WriteData(p, w, l, ps) == (w, l, NoError)
    ensures Flat(ps) != [] ==>
              && ps != [] && Size(Rest(w.packets, ps)) < Size(ps) && Splittable(w.packets, Rest(w.packets, ps))
              && var (l1, err) := Emit(p, l, NextFrame(w, Some(Cut(w.packets, ps))));
                 var w1 := w.(followup := true);
                 WriteData(p, w, l, ps) ==
                   if err != NoError then (w1, l1, err) else WriteData(p, w1, l1, Rest(w.packets, ps))
  {
    if Flat(ps) != [] {
      CutFacts(w.packets, ps);
    }
  }

  /** WriteMultiBuffer: a list without content makes a frame without data. */
  function Write(p: Parser, w: Writer, l: Link, ps: seq<Bytes>): (Writer, Link, Error)
    requires Usable(w) && Splittable(w.packets, ps)
  {
    if Flat(ps) == [] then
      var (l1, err) := Emit(p, l, NextFrame(w, None));
      (w.(followup := true), l1, err)
    else WriteData(p, w, l, ps)
  }

  /** Close: an End frame, whatever becomes of it. */
  function EndFrame(id: uint16, hasError: bool): Frame {
    Frame(Metadata(Destination(None, 0, Unknown), id, if hasError then ERROR else 0, END), None)
  }

  function CloseWriter(p: Parser, w: Writer, l: Link): Link {
    Emit(p, l, EndFrame(w.id, w.hasError)).0
  }

  // ---- What a write comes to ----

  /** The frames of the loop, on a link that takes them all. */
  function DataFrames(w: Writer, ps: seq<Bytes>): seq<Frame>
    requires Splittable(w.packets, ps)
    decreases Size(ps)
  {
    if Flat(ps) == [] then []
    else
      CutFacts(w.packets, ps);
      [NextFrame(w, Some(Cut(w.packets, ps)))] + DataFrames(w.(followup := true), Rest(w.packets, ps))
  }

  function FramesOf(w: Writer, ps: seq<Bytes>): seq<Frame>
    requires Splittable(w.packets, ps)
  {
    if Flat(ps) == [] then [NextFrame(w, None)] else DataFrames(w, ps)
  }

  function AllData(fs: seq<Frame>): Bytes {
    if fs == [] then [] else Flat(Data(fs[0])) + AllData(fs[1..])
  }

  lemma {:induction false} AllDataAppend(a: seq<Frame>, b: seq<Frame>)
    ensures AllData(a + b) == AllData(a) + AllData(b)
  {
    if a == [] {
      assert a + b == b;
    } else {
      assert (a + b)[1..] == a[1..] + b;
      AllDataAppend(a[1..], b);
    }
  }

  /** A session's frames so far: a New frame first, unless it was sent before, and Keep frames after it,
      with the data option exactly on those with data. */
  predicate Numbered(fs: seq<Frame>, id: uint16, dest: Destination, followup: bool) {
    forall i :: 0 <= i < |fs| ==>
      && fs[i].meta.id == id && fs[i].meta.target == dest
      && fs[i].meta.status == (if i == 0 && !followup then NEW else KEEP)
      && fs[i].meta.option == (if fs[i].data.Some? then DATA else 0)
  }

  lemma NumberedCons(f: Frame, fs: seq<Frame>, id: uint16, dest: Destination, followup: bool)
    requires Numbered([f], id, dest, followup) && Numbered(fs, id, dest, true)
    ensures Numbered([f] + fs, id, dest, followup)
  {
    assert [f][0] == f;
    forall i | 0 <= i < |[f] + fs| ensures ([f] + fs)[i] == if i == 0 then f else fs[i - 1] {}
  }

  /** Data in slices of 1 to 8192 bytes. */
  predicate Sliced(fs: seq<Frame>) {
    forall i :: 0 <= i < |fs| && fs[i].data.Some? ==> 0 < |Flat(fs[i].data.value)| <= Chunks.SLICE
  }

  /** A write is cut into frames that carry exactly its bytes, in order; in stream mode no frame is
      empty and every length fits its field. */
  lemma {:induction false} FramesCarryAll(w: Writer, ps: seq<Bytes>)
    requires Splittable(w.packets, ps)
    ensures AllData(DataFrames(w, ps)) == Flat(ps)
    ensures AllData(FramesOf(w, ps)) == Flat(ps)
    ensures Numbered(DataFrames(w, ps), w.id, w.dest, w.followup)
    ensures Numbered(FramesOf(w, ps), w.id, w.dest, w.followup)
    ensures !w.packets ==> Sliced(DataFrames(w, ps)) && Sliced(FramesOf(w, ps))
    decreases Size(ps)
  {
    if Flat(ps) == [] {
      assert [NextFrame(w, None)][1..] == [];
    } else {
      CutFacts(w.packets, ps);
      var w1 := w.(followup := true);
      FramesCarryAll(w1, Rest(w.packets, ps));
      var f := NextFrame(w, Some(Cut(w.packets, ps)));
      var more := DataFrames(w1, Rest(w.packets, ps));
      assert DataFrames(w, ps)[1..] == more;
      NumberedCons(f, more, w.id, w.dest, w.followup);
    }
  }

  /** In packet mode every frame carries one packet, and none of a write's non-empty ones is left out. */
  lemma {:induction false} PacketsFramed(w: Writer, ps: seq<Bytes>)
    requires w.packets && Flat(ps) != []
    ensures |DataFrames(w, ps)| <= |ps| && Flat(ps[|DataFrames(w, ps)|..]) == []
    ensures forall i :: 0 <= i < |DataFrames(w, ps)| ==> DataFrames(w, ps)[i].data == Some([ps[i]])
    decreases |ps|
  {
    CutFacts(true, ps);
    var more := DataFrames(w.(followup := true), ps[1..]);
    assert DataFrames(w, ps) == [NextFrame(w, Some(ps[..1]))] + more;
    assert ps[..1] == [ps[0]];
    if Flat(ps[1..]) == [] {
      assert more == [];
    } else {
      PacketsFramed(w.(followup := true), ps[1..]);
      forall i | 0 <= i < |more| ensures more[i].data == Some([ps[i + 1]]) {}
      assert ps[1..][|more|..] == ps[1 + |more|..];
    }
  }

  predicate AllEncodable(p: Parser, fs: seq<Frame>) {
    forall i :: 0 <= i < |fs| ==> Encodable(p, fs[i])
  }

  /** Frames taken by the link. */
  ghost function Framed(p: Parser, fs: seq<Frame>): seq<seq<Bytes>>
    requires AllEncodable(p, fs)
  {
    seq(|fs|, i requires 0 <= i < |fs| => Buffers(p, fs[i]))
  }

  /** Of the frames fs, in order, the link took a front part, each frame whole and in one piece; all of
      them if `done`, and not all otherwise. */
  ghost predicate Took(p: Parser, l: Link, l': Link, fs: seq<Frame>, done: bool) {
    var n := |l'.writes| - |l.writes|;
    && AllEncodable(p, fs)
    && 0 <= n <= |fs| && l'.writes == l.writes + Framed(p, fs[..n]) && (done <==> n == |fs|)
    && l'.refuses == l.refuses && l'.closed == l.closed
  }

  lemma TookCons(p: Parser, l: Link, l1: Link, l2: Link, f: Frame, fs: seq<Frame>, done: bool)
    requires Encodable(p, f) && (l1, NoError) == Emit(p, l, f) && Took(p, l1, l2, fs, done)
    ensures Took(p, l, l2, [f] + fs, done)
  {
    hide Encodable, Buffers;
    var m := |l2.writes| - |l1.writes|;
    var all := [f] + fs;
    assert forall i :: 0 <= i < |all| ==> all[i] == if i == 0 then f else fs[i - 1];
    assert all[..1 + m] == [f] + fs[..m];
    assert Framed(p, all[..1 + m]) == [Buffers(p, f)] + Framed(p, fs[..m]);
  }

  /** Frames that can be offered to a link. */
  predicate Offerable(fs: seq<Frame>) {
    forall i :: 0 <= i < |fs| ==> Writable(fs[i].meta) && ProperTarget(fs[i].meta)
  }

  /** One frame after the other, until one is refused. */
  function EmitAll(p: Parser, l: Link, fs: seq<Frame>): (Link, Error)
    requires Offerable(fs)
    decreases |fs|
  {
    if fs == [] then (l, NoError)
    else
      var (l1, err) := Emit(p, l, fs[0]);
      if err != NoError then (l1, err) else EmitAll(p, l1, fs[1..])
  }

  lemma {:induction false} EmitAllTakes(p: Parser, l: Link, fs: seq<Frame>)
    requires AllEncodable(p, fs)
    ensures Offerable(fs) && Took(p, l, EmitAll(p, l, fs).0, fs, EmitAll(p, l, fs).1 == NoError)
    decreases |fs|
  {
    if fs != [] {
      hide Encode, Took;
      var (l1, err) := Emit(p, l, fs[0]);
      assert [fs[0]] + fs[1..] == fs;
      if err == NoError {
        EmitAllTakes(p, l1, fs[1..]);
        TookCons(p, l, l1, EmitAll(p, l1, fs[1..]).0, fs[0], fs[1..], EmitAll(p, l1, fs[1..]).1 == NoError);
      } else {
        TookNothing(p, l, l1, fs);
      }
    }
  }

  lemma TookNothing(p: Parser, l: Link, l': Link, fs: seq<Frame>)
    requires AllEncodable(p, fs) && fs != [] && l' == l.(calls := l'.calls)
    ensures Took(p, l, l', fs, false)
  {
    assert fs[..0] == [];
  }

  lemma {:induction false} EmitAllAppend(p: Parser, l: Link, a: seq<Frame>, b: seq<Frame>)
    requires Offerable(a) && Offerable(b)
    ensures Offerable(a + b)
    ensures var (l1, err) := EmitAll(p, l, a);
            EmitAll(p, l, a + b) == if err != NoError then (l1, err) else EmitAll(p, l1, b)
    decreases |a|
  {
    if a == [] {
      assert a + b == b;
    } else {
      assert (a + b)[0] == a[0] && (a + b)[1..] == a[1..] + b;
      EmitAllAppend(p, Emit(p, l, a[0]).0, a[1..], b);
    }
  }

  lemma {:induction false} DataFramesOfferable(w: Writer, ps: seq<Bytes>)
    requires Usable(w) && Splittable(w.packets, ps)
    ensures Offerable(DataFrames(w, ps)) && Offerable(FramesOf(w, ps))
    decreases Size(ps)
  {
    if Flat(ps) != [] {
      CutFacts(w.packets, ps);
      DataFramesOfferable(w.(followup := true), Rest(w.packets, ps));
    }
  }

  /** The loop of a write does just that with the write's frames. */
  lemma {:induction false} WriteDataEmits(p: Parser, w: Writer, l: Link, ps: seq<Bytes>)
    requires Usable(w) && Splittable(w.packets, ps)
    ensures Offerable(DataFrames(w, ps))
    ensures var (w', l', err) := WriteData(p, w, l, ps);
            (l', err) == EmitAll(p, l, DataFrames(w, ps))
    decreases Size(ps)
  {
    DataFramesOfferable(w, ps);
    WriteDataUnfold(p, w, l, ps);
    hide Offerable, Emit, Flat, WriteData;
    if Flat(ps) != [] {
      var w1, f, rest := w.(followup := true), NextFrame(w, Some(Cut(w.packets, ps))), Rest(w.packets, ps);
      assert DataFrames(w, ps) == [f] + DataFrames(w1, rest) &&
        ([f] + DataFrames(w1, rest))[1..] == DataFrames(w1, rest);
      WriteDataEmits(p, w1, Emit(p, l, f).0, rest);
    }
  }

  /** A write changes nothing of the writer but that its session is announced. */
  lemma WriteKeeps(p: Parser, w: Writer, l: Link, ps: seq<Bytes>)
    requires Usable(w) && Splittable(w.packets, ps)
    ensures Write(p, w, l, ps).0 == w.(followup := true)
  {
    if Flat(ps) != [] {
      WriteDataKeeps(p, w, l, ps);
    }
  }

  lemma {:induction false} WriteDataKeeps(p: Parser, w: Writer, l: Link, ps: seq<Bytes>)
    requires Usable(w) && Splittable(w.packets, ps) && Flat(ps) != []
    ensures WriteData(p, w, l, ps).0 == w.(followup := true)
    decreases Size(ps)
  {
    WriteDataUnfold(p, w, l, ps);
    var w1 := w.(followup := true);
    var (l1, err) := Emit(p, l, NextFrame(w, Some(Cut(w.packets, ps))));
    if err == NoError {
      var rest := Rest(w.packets, ps);
      WriteDataUnfold(p, w1, l1, rest);
      if Flat(rest) != [] {
        WriteDataKeeps(p, w1, l1, rest);
      }
    }
  }

  /** An empty write with its one frame. */
  lemma WriteEmits(p: Parser, w: Writer, l: Link, ps: seq<Bytes>)
    requires Usable(w) && Splittable(w.packets, ps)
    ensures Offerable(FramesOf(w, ps))
    ensures var (w', l', err) := Write(p, w, l, ps);
            (l', err) == EmitAll(p, l, FramesOf(w, ps))
  {
    DataFramesOfferable(w, ps);
    hide Emit, WriteData;
    if Flat(ps) != [] {
      WriteDataEmits(p, w, l, ps);
    } else {
      assert FramesOf(w, ps)[1..] == [];
    }
  }

  // ---- A session's writer, from its first write to its Close ----

  ghost predicate Writes(packets: bool, ws: seq<seq<Bytes>>) {
    forall i :: 0 <= i < |ws| ==> Splittable(packets, ws[i])
  }

  /** Every frame a writer makes. */
  ghost function AllFrames(w: Writer, ws: seq<seq<Bytes>>): seq<Frame>
    requires Writes(w.packets, ws)
    decreases |ws|
  {
    if ws == [] then [] else FramesOf(w, ws[0]) + AllFrames(w.(followup := true), ws[1..])
  }

  /** The first payload, and the copy of a session's input to its writer: write after write, until one
      fails. */
  ghost function WriteAll(p: Parser, w: Writer, l: Link, ws: seq<seq<Bytes>>): (Writer, Link, Error)
    requires Usable(w) && Writes(w.packets, ws)
    decreases |ws|
  {
    if ws == [] then (w, l, NoError)
    else
      var (w1, l1, err) := Write(p, w, l, ws[0]);
      WriteKeeps(p, w, l, ws[0]);
      if err != NoError then (w1, l1, err) else WriteAll(p, w1, l1, ws[1..])
  }

  /** The writes of a session offer the link all its frames, one after the other, until one is refused. */
  lemma {:induction false} WriteAllEmits(p: Parser, w: Writer, l: Link, ws: seq<seq<Bytes>>)
    requires Usable(w) && Writes(w.packets, ws)
    ensures Offerable(AllFrames(w, ws))
    ensures var (w', l', err) := WriteAll(p, w, l, ws);
            (l', err) == EmitAll(p, l, AllFrames(w, ws)) && w' == w.(followup := w'.followup)
    decreases |ws|
  {
    assert Usable(w.(followup := true));
    hide Write, EmitAll, FramesOf, Usable, Splittable, Offerable;
    if ws == [] {
      EmitNone(p, l);
    } else {
      var w1 := w.(followup := true);
      WriteKeeps(p, w, l, ws[0]);
      WriteEmits(p, w, l, ws[0]);
      WriteAllEmits(p, w1, Write(p, w, l, ws[0]).1, ws[1..]);
      EmitAllAppend(p, l, FramesOf(w, ws[0]), AllFrames(w1, ws[1..]));
    }
  }

  lemma EmitNone(p: Parser, l: Link)
    ensures Offerable([]) && EmitAll(p, l, []) == (l, NoError)
  {
  }

  /** So whatever the link does it gets a front part of the session's frames, each whole and in one write;
      all of them exactly when no error is reported. */
  lemma WriteAllSends(p: Parser, w: Writer, l: Link, ws: seq<seq<Bytes>>)
    requires Usable(w) && Writes(w.packets, ws) && AllEncodable(p, AllFrames(w, ws))
    ensures var (w', l', err) := WriteAll(p, w, l, ws);
            Took(p, l, l', AllFrames(w, ws), err == NoError)
  {
    hide Took, EmitAll;
    WriteAllEmits(p, w, l, ws);
    EmitAllTakes(p, l, AllFrames(w, ws));
  }

  /** fetchInput: the writes of a session, and its End frame, with the error option if a write failed or
      the input did. */
  ghost function FetchInput(p: Parser, w: Writer, l: Link, ws: seq<seq<Bytes>>, broken: bool): Link
    requires Usable(w) && Writes(w.packets, ws)
  {
    var (w1, l1, err) := WriteAll(p, w, l, ws);
    CloseWriter(p, w1.(hasError := broken || err != NoError), l1)
  }
}
