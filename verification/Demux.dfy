/** Demultiplexing: many sessions' frames on one connection, and what each session's output gets. */
module Demux {
  import opened Bytes
  import opened Buffers
  import opened Addresses
  import opened Frames
  import opened Links
  import opened MuxWrites
  import opened MuxServes
  import opened Sessions
  import Streams

  // ---- What the frames so far carried for a session ----

  function Part(role: Role, f: Frame, id: uint16): Bytes {
    if f.meta.id == id then Carried(role, f) else []
  }

  function DataOf(role: Role, h: seq<Frame>, id: uint16): Bytes
    decreases |h|
  {
    if h == [] then [] else DataOf(role, h[..|h| - 1], id) + Part(role, h[|h| - 1], id)
  }

  /** The writes its packets make, one each. */
  function PacketsOf(role: Role, h: seq<Frame>, id: uint16): seq<seq<Bytes>>
    decreases |h|
  {
    if h == [] then [] else PacketsOf(role, h[..|h| - 1], id) + Whole(Part(role, h[|h| - 1], id))
  }

  lemma Snoc(role: Role, h: seq<Frame>, f: Frame, id: uint16)
    ensures DataOf(role, h + [f], id) == DataOf(role, h, id) + Part(role, f, id)
    ensures PacketsOf(role, h + [f], id) == PacketsOf(role, h, id) + Whole(Part(role, f, id))
  {
    assert (h + [f])[..|h|] == h;
  }

  predicate Unseen(h: seq<Frame>, id: uint16) {
    forall i :: 0 <= i < |h| ==> h[i].meta.id != id
  }

  lemma {:induction false} UnseenHasNothing(role: Role, h: seq<Frame>, id: uint16)
    requires Unseen(h, id)
    ensures DataOf(role, h, id) == [] && PacketsOf(role, h, id) == []
    decreases |h|
  {
    if h != [] {
      UnseenHasNothing(role, h[..|h| - 1], id);
    }
  }

  // ---- The invariant ----

  /** The output holds a front part of what its session was sent, or all of it. */
  ghost predicate Fed(role: Role, h: seq<Frame>, o: Open, l: Link, all: bool) {
    if o.packets then
      l.writes <= PacketsOf(role, h, o.id) && (all ==> l.writes == PacketsOf(role, h, o.id))
    else
      l.Sent() <= DataOf(role, h, o.id) && (all ==> l.Sent() == DataOf(role, h, o.id))
  }

  ghost predicate Live(w: Worker, i: nat)
    requires i < |w.opens|
  {
    w.opens[i].id in w.table.live && w.table.live[w.opens[i].id].out == i
  }

  /** No output holds a byte that was not for its session; each live session's output holds all. */
  ghost predicate Sorted(role: Role, w: Worker, h: seq<Frame>, all: bool) {
    && |w.outs| == |w.opens| && Distinct(w)
    && forall i :: 0 <= i < |w.opens| ==> Fed(role, h, w.opens[i], w.outs[i], all && Live(w, i))
  }

  /** Every output of the server was opened by a New frame, in the form its target asks for. */
  ghost predicate Announced(role: Role, w: Worker, h: seq<Frame>) {
    role == Server ==> forall i :: 0 <= i < |w.opens| ==> AnnouncedBy(h, w.opens[i])
  }

  ghost predicate AnnouncedBy(h: seq<Frame>, o: Open) {
    exists j :: 0 <= j < |h| && h[j].meta.status == NEW && h[j].meta.id == o.id
                && (h[j].meta.target.network == UDP <==> o.packets)
  }

  ghost predicate Inv(role: Role, w: Worker, h: seq<Frame>) {
    Linked(w) && Sorted(role, w, h, true) && Announced(role, w, h)
  }

  lemma FedMore(role: Role, h: seq<Frame>, f: Frame, o: Open, l: Link, l': Link, was: bool, all: bool)
    requires Fed(role, h, o, l, was) && (all ==> was)
    requires if o.id == f.meta.id then Got(l, l', o.packets, Carried(role, f), all) && (was || l'.writes == l.writes)
             else l'.writes == l.writes
    ensures Fed(role, h + [f], o, l', all)
  {
    Snoc(role, h, f, o.id);
    var c := Part(role, f, o.id);
    if o.packets {
      assert PacketsOf(role, h, o.id) + [] == PacketsOf(role, h, o.id);
    } else {
      assert DataOf(role, h, o.id) + [] == DataOf(role, h, o.id);
      assert l.Sent() + [] == l.Sent();
    }
  }

  lemma EffectSorts(role: Role, w: Worker, w': Worker, h: seq<Frame>, f: Frame)
    requires Linked(w) && Sorted(role, w, h, true) && Effect(w, w', f.meta.id, Carried(role, f))
    ensures Sorted(role, w', h + [f], true)
  {
    hide Fed, Got;
    forall i | 0 <= i < |w'.opens| ensures Fed(role, h + [f], w'.opens[i], w'.outs[i], Live(w', i)) {
      FedMore(role, h, f, w.opens[i], w.outs[i], w'.outs[i], Live(w, i), Live(w', i));
    }
  }

  /** A frame that stops the loop adds nothing, but what was delivered is still a front part. */
  lemma StopSorts(role: Role, w: Worker, w': Worker, h: seq<Frame>, f: Frame)
    requires Linked(w) && Sorted(role, w, h, true) && w'.opens == w.opens && w'.outs == w.outs
    ensures Sorted(role, w', h + [f], false)
  {
    hide Fed;
    forall i | 0 <= i < |w'.opens| ensures Fed(role, h + [f], w'.opens[i], w'.outs[i], false) {
      FedStill(role, h, f, w.opens[i], w.outs[i], w'.outs[i], Live(w, i));
    }
  }

  lemma FedStill(role: Role, h: seq<Frame>, f: Frame, o: Open, l: Link, l': Link, was: bool)
    requires Fed(role, h, o, l, was) && l'.writes == l.writes
    ensures Fed(role, h + [f], o, l', false)
  {
    Snoc(role, h, f, o.id);
  }

  lemma OpenSorts(role: Role, w: Worker, h: seq<Frame>, all: bool, id: uint16, packets: bool, refuses: nat -> bool)
    requires Linked(w) && Sorted(role, w, h, all) && Unseen(h, id)
    requires forall i :: 0 <= i < |w.opens| ==> w.opens[i].id != id
    ensures Sorted(role, OpenSession(w, id, packets, refuses), h, all)
    ensures Linked(OpenSession(w, id, packets, refuses))
  {
    hide Fed;
    var w1 := OpenSession(w, id, packets, refuses);
    forall i | 0 <= i < |w1.opens| ensures Fed(role, h, w1.opens[i], w1.outs[i], all && Live(w1, i)) {
      if i == |w.opens| {
        FedFresh(role, h, Open(id, packets), refuses, all && Live(w1, i));
      } else {
        FedSame(role, h, w.opens[i], w.outs[i], w.outs[i], all && Live(w, i), all && Live(w1, i));
      }
    }
  }

  lemma FedFresh(role: Role, h: seq<Frame>, o: Open, refuses: nat -> bool, all: bool)
    requires Unseen(h, o.id)
    ensures Fed(role, h, o, Link([], 0, false, refuses), all)
  {
    UnseenHasNothing(role, h, o.id);
  }

  lemma FedSame(role: Role, h: seq<Frame>, o: Open, l: Link, l': Link, was: bool, all: bool)
    requires Fed(role, h, o, l, was) && l'.writes == l.writes && (all ==> was)
    ensures Fed(role, h, o, l', all)
  {
  }

  /** The ids of the outputs opened on the server were all seen. */
  lemma UnseenUnopened(w: Worker, h: seq<Frame>, id: uint16)
    requires Announced(Server, w, h) && Unseen(h, id)
    ensures forall i :: 0 <= i < |w.opens| ==> w.opens[i].id != id
  {
    forall i | 0 <= i < |w.opens| ensures w.opens[i].id != id {
      assert AnnouncedBy(h, w.opens[i]);
    }
  }

  lemma AnnouncedMore(role: Role, w: Worker, w': Worker, h: seq<Frame>, f: Frame)
    requires Announced(role, w, h) && w'.opens == w.opens
    ensures Announced(role, w', h + [f])
  {
    if role == Server {
      forall i | 0 <= i < |w'.opens| ensures AnnouncedBy(h + [f], w'.opens[i]) {
        assert AnnouncedBy(h, w.opens[i]);
        var j :| 0 <= j < |h| && h[j].meta.status == NEW && h[j].meta.id == w.opens[i].id
                 && (h[j].meta.target.network == UDP <==> w.opens[i].packets);
        assert (h + [f])[j] == h[j];
      }
    }
  }

  lemma AnnouncedNew(w: Worker, w': Worker, h: seq<Frame>, f: Frame, o: Open)
    requires Announced(Server, w, h) && w'.opens == w.opens + [o]
    requires f.meta.status == NEW && f.meta.id == o.id && (f.meta.target.network == UDP <==> o.packets)
    ensures Announced(Server, w', h + [f])
  {
    AnnouncedMore(Server, w, w, h, f);
    assert (h + [f])[|h|] == f;
    assert AnnouncedBy(h + [f], o);
    forall i | 0 <= i < |w'.opens| ensures AnnouncedBy(h + [f], w'.opens[i]) {
      if i < |w.opens| {
        assert AnnouncedBy(h + [f], w.opens[i]);
      }
    }
  }

  /** The first frame with this id may open a session, and no later one. */
  ghost predicate Fresh(role: Role, h: seq<Frame>, f: Frame) {
    role == Server && f.meta.status == NEW ==> Unseen(h, f.meta.id)
  }

  /** One frame keeps the invariant, and one that stops the loop leaves the deliveries in order. */
  lemma FrameSorts(role: Role, p: Parser, dispatch: Dispatcher, w: Worker, m0: Metadata, h: seq<Frame>, f: Frame,
                   rest: Bytes)
    requires Inv(role, w, h) && WellFormed(p, f) && Fresh(role, h, f) && (role == Server ==> !w.table.closed)
    requires At(w, w.stream.end, FrameBytes(p, f) + rest)
    ensures var (w', m, err) := HandleFrame(role, p, dispatch, w, m0);
            && Sorted(role, w', h + [f], err == NoError) && Announced(role, w', h + [f]) && Linked(w')
  {
    hide HandleFrame, Effect, Sorted, Announced, FrameBytes, WellFormed, At;
    assert Distinct(w) by { SortedDistinct(role, w, h); }
    if role == Server && f.meta.status == NEW {
      UnseenUnopened(w, h, f.meta.id);
    }
    FrameEffect(role, p, dispatch, w, m0, f, rest);
    HandleLinked(role, p, dispatch, w, m0);
    var (w', m, err) := HandleFrame(role, p, dispatch, w, m0);
    if err != NoError {
      StopSorts(role, w, w', h, f);
      AnnouncedMore(role, w, w', h, f);
    } else {
      var w1 := Before(role, dispatch, w, f);
      EffectKeepsOpens(w1, w', f.meta.id, Carried(role, f));
      if role == Server && f.meta.status == NEW && dispatch(w.dispatched).Some? {
        OpenSorts(role, w, h, true, f.meta.id, f.meta.target.network == UDP, dispatch(w.dispatched).value);
        AnnouncedNew(w, w1, h, f, Open(f.meta.id, f.meta.target.network == UDP));
        EffectSorts(role, w1, w', h, f);
        AnnouncedSame(role, w1, w', h + [f]);
      } else {
        EffectSorts(role, w, w', h, f);
        AnnouncedMore(role, w, w, h, f);
        AnnouncedSame(role, w, w', h + [f]);
      }
    }
  }

  lemma EffectKeepsOpens(w: Worker, w': Worker, id: uint16, c: Bytes)
    requires Effect(w, w', id, c)
    ensures w'.opens == w.opens
  {
  }

  lemma AnnouncedSame(role: Role, w: Worker, w': Worker, h: seq<Frame>)
    requires Announced(role, w, h) && w'.opens == w.opens
    ensures Announced(role, w', h)
  {
  }

  lemma SortedDistinct(role: Role, w: Worker, h: seq<Frame>)
    requires Sorted(role, w, h, true)
    ensures Distinct(w)
  {
  }

  // ---- Whole runs ----

  /** The bytes of a list of frames. */
  ghost function Wire(p: Parser, fs: seq<Frame>): Bytes
    requires forall i :: 0 <= i < |fs| ==> Encodable(p, fs[i])
  {
    if fs == [] then [] else FrameBytes(p, fs[0]) + Wire(p, fs[1..])
  }

  /** Frames that do not derail the loop, on top of those before: no first packet of a session is longer
      than a buffer, and no session is announced twice. */
  ghost predicate Legal(role: Role, p: Parser, fs: seq<Frame>, h: seq<Frame>) {
    forall i :: 0 <= i < |fs| ==>
      && WellFormed(p, fs[i]) && Fresh(role, h + fs[..i], fs[i])
      && !(role == Server && fs[i].meta.status == NEW && fs[i].meta.target.network == UDP && |Flat(Data(fs[i]))| > SIZE)
  }

  lemma LegalTail(role: Role, p: Parser, fs: seq<Frame>, h: seq<Frame>)
    requires Legal(role, p, fs, h) && fs != []
    ensures WellFormed(p, fs[0]) && Fresh(role, h, fs[0]) && Legal(role, p, fs[1..], h + [fs[0]])
    ensures forall dispatch, w :: !Derails(role, dispatch, w, fs[0])
  {
    hide WellFormed, Fresh;
    assert h + fs[..0] == h;
    forall i | 0 <= i < |fs[1..]|
      ensures WellFormed(p, fs[1..][i]) && Fresh(role, h + [fs[0]] + fs[1..][..i], fs[1..][i]) {
      assert fs[1..][i] == fs[i + 1];
      assert h + [fs[0]] + fs[1..][..i] == h + fs[..i + 1];
    }
  }

  lemma LegalEncodable(role: Role, p: Parser, fs: seq<Frame>, h: seq<Frame>)
    requires Legal(role, p, fs, h)
    ensures forall i :: 0 <= i < |fs| ==> Encodable(p, fs[i])
  {
  }

  /** The server's sessions only end between frames. A client also opens sessions, with ids it has not
      used before, and may close its table. */
  ghost predicate Timely(role: Role, p: Parser, w: Worker, es: seq<Event>, h: seq<Frame>)
    requires |w.outs| == |w.opens|
    decreases |es|
  {
    es == [] ||
    (&& (es[0].Shut? ==> role == Client)
     && (es[0].Opens? ==>
           && role == Client
           && (!w.table.closed ==>
                 Unseen(h, NextId(w)) && forall i :: 0 <= i < |w.opens| ==> w.opens[i].id != NextId(w)))
     && Timely(role, p, Apply(p, w, es[0]), es[1..], h))
  }

  lemma EventSorts(role: Role, p: Parser, w: Worker, es: seq<Event>, h: seq<Frame>, all: bool)
    requires Linked(w) && Sorted(role, w, h, all) && Announced(role, w, h) && es != [] && Timely(role, p, w, es, h)
    ensures var w' := Apply(p, w, es[0]);
            Linked(w') && Sorted(role, w', h, all) && Announced(role, w', h)
    ensures role == Server ==> Apply(p, w, es[0]).table.closed == w.table.closed
  {
    hide Sorted, CloseWriter;
    var e, w' := es[0], Apply(p, w, es[0]);
    ApplyLinked(p, w, e);
    if e.Opens? && !w.table.closed {
      OpenSorts(role, w, h, all, NextId(w), e.packets, e.refuses);
      assert w' == OpenSession(w, NextId(w), e.packets, e.refuses);
    } else {
      LosingSorts(role, w, w', h, all);
    }
  }

  /** Sessions may go, but nothing is written. */
  lemma LosingSorts(role: Role, w: Worker, w': Worker, h: seq<Frame>, all: bool)
    requires Linked(w) && Sorted(role, w, h, all) && w'.opens == w.opens && |w'.outs| == |w.outs|
    requires forall i :: 0 <= i < |w.outs| ==> w'.outs[i].writes == w.outs[i].writes
    requires forall k :: k in w'.table.live ==> k in w.table.live && w'.table.live[k] == w.table.live[k]
    ensures Sorted(role, w', h, all)
  {
    hide Fed;
    forall i | 0 <= i < |w'.opens| ensures Fed(role, h, w'.opens[i], w'.outs[i], all && Live(w', i)) {
      FedSame(role, h, w.opens[i], w.outs[i], w'.outs[i], all && Live(w, i), all && Live(w', i));
    }
  }

  lemma {:induction false} EventsSort(role: Role, p: Parser, w: Worker, es: seq<Event>, h: seq<Frame>, all: bool)
    requires Linked(w) && Sorted(role, w, h, all) && Announced(role, w, h) && Timely(role, p, w, es, h)
    ensures var w' := ApplyAll(p, w, es);
            Linked(w') && Sorted(role, w', h, all) && Announced(role, w', h)
    ensures role == Server ==> ApplyAll(p, w, es).table.closed == w.table.closed
    decreases |es|
  {
    hide Sorted, Announced;
    if es != [] {
      EventSorts(role, p, w, es, h, all);
      EventsSort(role, p, Apply(p, w, es[0]), es[1..], h, all);
    }
  }

  /** Every turn's events are timely, with a frame of fs handled at each as long as there are any. */
  ghost predicate Orderly(role: Role, p: Parser, dispatch: Dispatcher, w: Worker, m0: Metadata,
                          turns: seq<seq<Event>>, fs: seq<Frame>, h: seq<Frame>)
    requires Linked(w)
    decreases |turns|
  {
    turns == [] ||
    (&& Timely(role, p, w, turns[0], h)
     && (ApplyAllLinked(p, w, turns[0]);
         var w1 := ApplyAll(p, w, turns[0]);
         HandleLinked(role, p, dispatch, w1, m0);
         var (w2, m, err) := HandleFrame(role, p, dispatch, w1, m0);
         var n := Min(|fs|, 1);
         err == NoError ==>
           Orderly(role, p, dispatch, w2, if role == Server then BLANK else m, turns[1..], fs[n..], h + fs[..n])))
  }

  lemma CloseSorts(role: Role, w: Worker, h: seq<Frame>)
    requires Sorted(role, w, h, false)
    ensures Sorted(role, CloseAll(w), h, false)
  {
    hide Fed;
    var w' := CloseAll(w);
    forall i | 0 <= i < |w'.opens| ensures Fed(role, h, w'.opens[i], w'.outs[i], false) {
      FedSame(role, h, w.opens[i], w.outs[i], w'.outs[i], false, false);
    }
  }

  /** Whatever the interleaving, the segmentation, the outputs and the events: after any number of turns
      every output holds, in order, a front part of what the frames so far carried for its session and
      nothing else; as long as no frame failed, every live session's output holds all of it, and the
      loop is on a frame boundary. */
  lemma {:induction false} RunSorts(role: Role, p: Parser, dispatch: Dispatcher, w: Worker, m0: Metadata,
                                    turns: seq<seq<Event>>, fs: seq<Frame>, h: seq<Frame>, tail: Bytes)
    requires Inv(role, w, h) && (role == Server ==> !w.table.closed)
    requires |turns| <= |fs| && Legal(role, p, fs, h)
    requires Orderly(role, p, dispatch, w, m0, turns, fs, h)
    requires At(w, w.stream.end, Wire(p, fs) + tail)
    ensures forall i :: 0 <= i < |fs| ==> Encodable(p, fs[i])
    ensures var (w', n, err) := MuxServes.Run(role, p, dispatch, w, m0, turns);
            && n <= |turns| && Sorted(role, w', h + fs[..n], err == NoError) && Announced(role, w', h + fs[..n])
            && (err == NoError ==>
                  n == |turns| && Inv(role, w', h + fs[..n]) && At(w', w.stream.end, Wire(p, fs[n..]) + tail))
    decreases |turns|
  {
    hide Sorted, Announced, Legal, HandleFrame, FrameBytes, Timely, ApplyAll, Derails, Stops, Fresh, WellFormed;
    LegalEncodable(role, p, fs, h);
    if turns == [] {
      assert h + fs[..0] == h && fs[0..] == fs;
    } else {
      LegalTail(role, p, fs, h);
      LegalEncodable(role, p, fs[1..], h + [fs[0]]);
      EventsSort(role, p, w, turns[0], h, true);
      ApplyAllLinked(p, w, turns[0]);
      var w1 := ApplyAll(p, w, turns[0]);
      HandleLinked(role, p, dispatch, w1, m0);
      var (w2, m, err) := HandleFrame(role, p, dispatch, w1, m0);
      var rest := Wire(p, fs[1..]) + tail;
      Streams.Glue(FrameBytes(p, fs[0]), Wire(p, fs[1..]), tail);
      FrameSorts(role, p, dispatch, w1, m0, h, fs[0], rest);
      if err != NoError {
        CloseSorts(role, w2, h + [fs[0]]);
        assert fs[..1] == [fs[0]];
        AnnouncedSame(role, w2, CloseAll(w2), h + [fs[0]]);
      } else {
        TurnAligned(role, p, dispatch, w1, m0, fs[0], rest);
        var m1 := if role == Server then BLANK else m;
        assert fs[..1] == [fs[0]] && Min(|fs|, 1) == 1;
        RunSorts(role, p, dispatch, w2, m1, turns[1..], fs[1..], h + [fs[0]], tail);
        var n := MuxServes.Run(role, p, dispatch, w2, m1, turns[1..]).1;
        assert h + [fs[0]] + fs[1..][..n] == h + fs[..n + 1];
        assert fs[1..][n..] == fs[n + 1..];
      }
    }
  }

  lemma TurnAligned(role: Role, p: Parser, dispatch: Dispatcher, w: Worker, m0: Metadata, f: Frame, rest: Bytes)
    requires Linked(w) && WellFormed(p, f) && At(w, w.stream.end, FrameBytes(p, f) + rest)
    requires !Derails(role, dispatch, w, f)
    ensures HandleFrame(role, p, dispatch, w, m0).2 == NoError ==>
              At(HandleFrame(role, p, dispatch, w, m0).0, w.stream.end, rest)
  {
    hide HandleFrame, FrameBytes, WellFormed, Derails, At;
    FrameAlignment(role, p, dispatch, w, m0, f, rest);
  }

  // ---- Sessions ----

  /** A client's session: what its writer is given. Packets are what a UDP target gets. */
  datatype Session = Session(id: uint16, dest: Destination, ws: seq<seq<Bytes>>)

  function WriterOf(s: Session): Writer {
    MuxWrites.Writer(s.id, s.dest, s.dest.network == UDP, false, false)
  }

  /** The frames on the connection that belong to a session. */
  function Select(h: seq<Frame>, id: uint16): seq<Frame>
    decreases |h|
  {
    if h == [] then []
    else Select(h[..|h| - 1], id) + if h[|h| - 1].meta.id == id then [h[|h| - 1]] else []
  }

  /** A front part of the session's frames is on the connection, in order, and perhaps the End frame. */
  ghost predicate Speaks(h: seq<Frame>, s: Session, j: nat) {
    && Writes(s.dest.network == UDP, s.ws) && j <= |AllFrames(WriterOf(s), s.ws)|
    && var mine := Select(h, s.id);
       (mine == AllFrames(WriterOf(s), s.ws)[..j]
        || exists failed :: mine == AllFrames(WriterOf(s), s.ws)[..j] + [EndFrame(s.id, failed)])
  }

  /** Packets as the writes they make. */
  function Singles(ps: seq<Bytes>): seq<seq<Bytes>> {
    if ps == [] then [] else [[ps[0]]] + Singles(ps[1..])
  }

  /** The output got a front part of these writes, or all of them: bytes in order, packets whole. */
  ghost predicate Holds(l: Link, packets: bool, ws: seq<seq<Bytes>>, all: bool) {
    if packets then
      l.writes <= Singles(NonEmptyAll(ws)) && (all ==> l.writes == Singles(NonEmptyAll(ws)))
    else
      l.Sent() <= FlatAll(ws) && (all ==> l.Sent() == FlatAll(ws))
  }

  /** The output got a front part of what the session's writer was given, or all of it. */
  ghost predicate Delivers(l: Link, s: Session, all: bool) {
    Holds(l, s.dest.network == UDP, s.ws, all)
  }

  // What the frames of a session carry is what its writer was given.

  function PacketWrites(fs: seq<Frame>): seq<seq<Bytes>> {
    if fs == [] then [] else Whole(Flat(Data(fs[0]))) + PacketWrites(fs[1..])
  }

  lemma {:induction false} PacketWritesAppend(a: seq<Frame>, b: seq<Frame>)
    ensures PacketWrites(a + b) == PacketWrites(a) + PacketWrites(b)
  {
    if a == [] {
      assert a + b == b;
    } else {
      assert (a + b)[1..] == a[1..] + b;
      PacketWritesAppend(a[1..], b);
    }
  }

  /** On the server, what was carried for an id is the data of its New and Keep frames. */
  lemma {:induction false} CarriedIsSelected(h: seq<Frame>, id: uint16)
    requires forall i :: 0 <= i < |h| && h[i].meta.id == id && h[i].data.Some? ==> h[i].meta.status in {NEW, KEEP}
    ensures DataOf(Server, h, id) == AllData(Select(h, id))
    ensures PacketsOf(Server, h, id) == PacketWrites(Select(h, id))
    decreases |h|
  {
    if h != [] {
      var init, f := h[..|h| - 1], h[|h| - 1];
      CarriedIsSelected(init, id);
      if f.meta.id == id {
        AllDataAppend(Select(init, id), [f]);
        PacketWritesAppend(Select(init, id), [f]);
        assert [f][1..] == [];
        assert Part(Server, f, id) == Flat(Data(f));
        assert AllData([f]) == Flat(Data(f)) + [] && PacketWrites([f]) == Whole(Flat(Data(f))) + [];
      } else {
        assert Select(h, id) == Select(init, id);
      }
    }
  }

  lemma {:induction false} SelectedOnly(h: seq<Frame>, id: uint16, i: nat)
    requires i < |h| && h[i].meta.id == id
    ensures h[i] in Select(h, id)
    decreases |h|
  {
    if i < |h| - 1 {
      SelectedOnly(h[..|h| - 1], id, i);
    }
  }

  lemma {:induction false} SelectedIn(h: seq<Frame>, id: uint16, f: Frame)
    requires f in Select(h, id)
    ensures f in h && f.meta.id == id
    decreases |h|
  {
    if f in Select(h[..|h| - 1], id) {
      SelectedIn(h[..|h| - 1], id, f);
    }
  }

  lemma {:induction false} SinglesAppend(a: seq<Bytes>, b: seq<Bytes>)
    ensures Singles(a + b) == Singles(a) + Singles(b)
  {
    if a == [] {
      assert a + b == b;
    } else {
      assert (a + b)[1..] == a[1..] + b;
      SinglesAppend(a[1..], b);
    }
  }

  /** The packets of one write. */
  lemma {:induction false} WritePackets(w: Writer, ps: seq<Bytes>)
    requires w.packets
    ensures PacketWrites(DataFrames(w, ps)) == Singles(NonEmpty(ps))
    decreases |ps|
  {
    if Flat(ps) == [] {
      NonEmptyNothing(ps);
    } else {
      CutFacts(true, ps);
      var w1 := w.(followup := true);
      WritePackets(w1, ps[1..]);
      var f := NextFrame(w, Some(ps[..1]));
      assert DataFrames(w, ps) == [f] + DataFrames(w1, ps[1..]);
      assert ps[..1] == [ps[0]];
      FlatOne(ps[0]);
      assert Data(f) == [ps[0]];
      assert NonEmpty(ps) == if ps[0] == [] then NonEmpty(ps[1..]) else [ps[0]] + NonEmpty(ps[1..]);
    }
  }

  /** A session's frames, all of them: its bytes, its packets, and one New frame at the front. */
  lemma {:induction false} AllFramesCarryAll(w: Writer, ws: seq<seq<Bytes>>)
    requires Writes(w.packets, ws)
    ensures AllData(AllFrames(w, ws)) == FlatAll(ws)
    ensures w.packets ==> PacketWrites(AllFrames(w, ws)) == Singles(NonEmptyAll(ws))
    ensures Numbered(AllFrames(w, ws), w.id, w.dest, w.followup)
    decreases |ws|
  {
    if ws != [] {
      var w1 := w.(followup := true);
      var head, more := FramesOf(w, ws[0]), AllFrames(w1, ws[1..]);
      AllFramesCarryAll(w1, ws[1..]);
      FramesCarryAll(w, ws[0]);
      AllDataAppend(head, more);
      PacketWritesAppend(head, more);
      NumberedAppend(head, more, w.id, w.dest, w.followup);
      if w.packets {
        SinglesAppend(NonEmpty(ws[0]), NonEmptyAll(ws[1..]));
        if Flat(ws[0]) == [] {
          NonEmptyNothing(ws[0]);
          assert [NextFrame(w, None)][1..] == [];
        } else {
          WritePackets(w, ws[0]);
        }
      }
    }
  }

  lemma NumberedAppend(a: seq<Frame>, b: seq<Frame>, id: uint16, dest: Destination, followup: bool)
    requires a != [] && Numbered(a, id, dest, followup) && Numbered(b, id, dest, true)
    ensures Numbered(a + b, id, dest, followup)
  {
  }

  /** The part of a session's frames that is on the connection carries a front part of its data. */
  lemma SpeaksCarried(h: seq<Frame>, s: Session, j: nat)
    requires Speaks(h, s, j)
    ensures var fs := AllFrames(WriterOf(s), s.ws);
            DataOf(Server, h, s.id) == AllData(fs[..j]) && PacketsOf(Server, h, s.id) == PacketWrites(fs[..j])
  {
    var fs := AllFrames(WriterOf(s), s.ws);
    var mine := Select(h, s.id);
    AllFramesCarryAll(WriterOf(s), s.ws);
    forall i | 0 <= i < |h| && h[i].meta.id == s.id && h[i].data.Some? ensures h[i].meta.status in {NEW, KEEP} {
      SelectedOnly(h, s.id, i);
      assert forall x :: x in fs[..j] ==> x in fs;
    }
    CarriedIsSelected(h, s.id);
    if mine != fs[..j] {
      var failed :| mine == fs[..j] + [EndFrame(s.id, failed)];
      var e := EndFrame(s.id, failed);
      AllDataAppend(fs[..j], [e]);
      PacketWritesAppend(fs[..j], [e]);
      assert [e][1..] == [];
      assert AllData([e]) == [] && PacketWrites([e]) == [];
    }
  }

  /** An output opened for the session has the session's own form. */
  lemma AnnouncedForm(w: Worker, h: seq<Frame>, s: Session, j: nat, i: nat)
    requires Announced(Server, w, h) && Speaks(h, s, j) && i < |w.opens| && w.opens[i].id == s.id
    ensures w.opens[i].packets <==> s.dest.network == UDP
  {
    assert AnnouncedBy(h, w.opens[i]);
    var n :| 0 <= n < |h| && h[n].meta.status == NEW && h[n].meta.id == s.id
             && (h[n].meta.target.network == UDP <==> w.opens[i].packets);
    SelectedOnly(h, s.id, n);
    var fs := AllFrames(WriterOf(s), s.ws);
    AllFramesCarryAll(WriterOf(s), s.ws);
    assert h[n] in fs[..j];
  }

  lemma {:induction false} FrontPart(fs: seq<Frame>, j: nat)
    requires j <= |fs|
    ensures AllData(fs[..j]) <= AllData(fs) && PacketWrites(fs[..j]) <= PacketWrites(fs)
  {
    assert fs == fs[..j] + fs[j..];
    AllDataAppend(fs[..j], fs[j..]);
    PacketWritesAppend(fs[..j], fs[j..]);
  }

  /** With the deliveries sorted, an output opened for a session holds a front part of what the
      session's writer was given; all of it once every frame is in and the output holds all of them. */
  lemma SortedDelivers(w: Worker, h: seq<Frame>, s: Session, j: nat, i: nat, all: bool)
    requires Announced(Server, w, h) && Speaks(h, s, j) && i < |w.opens| == |w.outs| && w.opens[i].id == s.id
    requires Fed(Server, h, w.opens[i], w.outs[i], all)
    ensures Delivers(w.outs[i], s, all && j == |AllFrames(WriterOf(s), s.ws)|)
  {
    var fs := AllFrames(WriterOf(s), s.ws);
    SpeaksCarried(h, s, j);
    AnnouncedForm(w, h, s, j, i);
    AllFramesCarryAll(WriterOf(s), s.ws);
    FrontPart(fs, j);
    if j == |fs| {
      assert fs[..j] == fs;
    }
  }

  /** On the server, sessions are only ended between frames. */
  ghost predicate OnlyEnds(turns: seq<seq<Event>>) {
    forall t, i :: 0 <= t < |turns| && 0 <= i < |turns[t]| ==> turns[t][i].Ended?
  }

  lemma {:induction false} EndsAreTimely(p: Parser, w: Worker, es: seq<Event>, h: seq<Frame>)
    requires |w.outs| == |w.opens| && forall i :: 0 <= i < |es| ==> es[i].Ended?
    ensures Timely(Server, p, w, es, h)
    decreases |es|
  {
    if es != [] {
      EndsAreTimely(p, Apply(p, w, es[0]), es[1..], h);
    }
  }

  lemma {:induction false} EndsAreOrderly(p: Parser, dispatch: Dispatcher, w: Worker, m0: Metadata,
                                          turns: seq<seq<Event>>, fs: seq<Frame>, h: seq<Frame>)
    requires Linked(w) && OnlyEnds(turns)
    ensures Orderly(Server, p, dispatch, w, m0, turns, fs, h)
    decreases |turns|
  {
    hide HandleFrame, Timely;
    if turns != [] {
      EndsAreTimely(p, w, turns[0], h);
      ApplyAllLinked(p, w, turns[0]);
      var w1 := ApplyAll(p, w, turns[0]);
      HandleLinked(Server, p, dispatch, w1, m0);
      var (w2, m, err) := HandleFrame(Server, p, dispatch, w1, m0);
      var n := Min(|fs|, 1);
      EndsAreOrderly(p, dispatch, w2, BLANK, turns[1..], fs[n..], h + fs[..n]);
    }
  }

  /** A server worker at the start of a connection. */
  function Begin(st: Streams.State, link: Link): Worker {
    Worker(Empty(), [], [], 0, link, st)
  }

  lemma BeginInv(role: Role, st: Streams.State, link: Link)
    requires st.end != NoError
    ensures Inv(role, Begin(st, link), []) && !Begin(st, link).table.closed
  {
  }

  /** Every output holds what it should of its session's data. */
  ghost predicate Demultiplexed(w: Worker, h: seq<Frame>, all: bool) {
    |w.outs| == |w.opens| &&
    forall s, j, i :: Speaks(h, s, j) && 0 <= i < |w.opens| && w.opens[i].id == s.id ==>
      Delivers(w.outs[i], s, all && Live(w, i) && j == |AllFrames(WriterOf(s), s.ws)|)
  }

  lemma SortedIsDemultiplexed(w: Worker, h: seq<Frame>, all: bool)
    requires Sorted(Server, w, h, all) && Announced(Server, w, h)
    ensures Demultiplexed(w, h, all)
  {
    hide Fed, Delivers, Announced;
    forall s, j, i | Speaks(h, s, j) && 0 <= i < |w.opens| && w.opens[i].id == s.id
      ensures Delivers(w.outs[i], s, all && Live(w, i) && j == |AllFrames(WriterOf(s), s.ws)|)
    {
      SortedDelivers(w, h, s, j, i, all && Live(w, i));
    }
  }

  /** The demultiplexing theorem. On a connection that carries any interleaving of legal frames, after
      any number of turns, with any segmentation, any failures of outputs and any sessions ended in
      between: an output opened for a session holds a front part of exactly what that session's writer
      was given; and all of it if the session is still live and all its frames are in. */
  lemma Demultiplexing(p: Parser, dispatch: Dispatcher, turns: seq<seq<Event>>, fs: seq<Frame>,
                       st: Streams.State, link: Link, tail: Bytes)
    requires Legal(Server, p, fs, []) && |turns| <= |fs| && OnlyEnds(turns)
    requires st.end != NoError && Streams.Pending(st) == Wire(p, fs) + tail
    ensures var (w, n, err) := MuxServes.Run(Server, p, dispatch, Begin(st, link), BLANK, turns);
            n <= |turns| && (err == NoError ==> n == |turns|) && Demultiplexed(w, fs[..n], err == NoError)
  {
    hide Sorted, Announced, Legal, Demultiplexed, Orderly, MuxServes.Run, Wire, Streams.Pending;
    var w0 := Begin(st, link);
    LegalEncodable(Server, p, fs, []);
    BeginInv(Server, st, link);
    EndsAreOrderly(p, dispatch, w0, BLANK, turns, fs, []);
    RunSorts(Server, p, dispatch, w0, BLANK, turns, fs, [], tail);
    var (w, n, err) := MuxServes.Run(Server, p, dispatch, w0, BLANK, turns);
    assert [] + fs[..n] == fs[..n];
    SortedIsDemultiplexed(w, fs[..n], err == NoError);
  }

  // ---- To the end of the connection ----

  /** A run that failed would have, whatever turns were to come. */
  lemma {:induction false} RunStops(p: Parser, dispatch: Dispatcher, w: Worker, a: seq<seq<Event>>, b: seq<seq<Event>>)
    requires Linked(w) && MuxServes.Run(Server, p, dispatch, w, BLANK, a).2 != NoError
    ensures MuxServes.Run(Server, p, dispatch, w, BLANK, a + b) == MuxServes.Run(Server, p, dispatch, w, BLANK, a)
    decreases |a|
  {
    hide HandleFrame, CloseAll, ApplyAll;
    if a != [] {
      assert (a + b)[0] == a[0] && (a + b)[1..] == a[1..] + b;
      ApplyAllLinked(p, w, a[0]);
      var w1 := ApplyAll(p, w, a[0]);
      HandleLinked(Server, p, dispatch, w1, BLANK);
      var (w2, m, err) := HandleFrame(Server, p, dispatch, w1, BLANK);
      if err == NoError {
        RunStops(p, dispatch, w2, a[1..], b);
      }
    }
  }

  /** One that did not goes on from where it is. */
  lemma {:induction false} RunGoesOn(p: Parser, dispatch: Dispatcher, w: Worker, a: seq<seq<Event>>, b: seq<seq<Event>>)
    requires Linked(w) && MuxServes.Run(Server, p, dispatch, w, BLANK, a).2 == NoError
    ensures var (w1, n, err) := MuxServes.Run(Server, p, dispatch, w, BLANK, a);
            && n == |a| && Linked(w1)
            && var r := MuxServes.Run(Server, p, dispatch, w1, BLANK, b);
               MuxServes.Run(Server, p, dispatch, w, BLANK, a + b) == (r.0, n + r.1, r.2)
    decreases |a|
  {
    hide HandleFrame, CloseAll, ApplyAll;
    if a == [] {
      assert a + b == b;
    } else {
      assert (a + b)[0] == a[0] && (a + b)[1..] == a[1..] + b;
      ApplyAllLinked(p, w, a[0]);
      var w1 := ApplyAll(p, w, a[0]);
      HandleLinked(Server, p, dispatch, w1, BLANK);
      RunGoesOn(p, dispatch, HandleFrame(Server, p, dispatch, w1, BLANK).0, a[1..], b);
    }
  }

  /** Nothing was delivered from w to w', and no session opened. */
  ghost predicate Silent(w: Worker, w': Worker) {
    && w'.opens == w.opens && |w'.outs| == |w.outs| == |w.opens|
    && forall i :: 0 <= i < |w.outs| ==> w'.outs[i].writes == w.outs[i].writes
  }

  lemma {:induction false} EventsSilent(p: Parser, w: Worker, es: seq<Event>)
    requires |w.outs| == |w.opens| && forall i :: 0 <= i < |es| ==> es[i].Ended?
    ensures Silent(w, ApplyAll(p, w, es))
    decreases |es|
  {
    if es != [] {
      EventsSilent(p, Apply(p, w, es[0]), es[1..]);
    }
  }

  /** With nothing pending the next frame fails, with the error of the source. */
  lemma NothingToHandle(role: Role, p: Parser, dispatch: Dispatcher, w: Worker, m0: Metadata)
    requires Linked(w) && Streams.Pending(w.stream) == []
    ensures var (w', m, err) := HandleFrame(role, p, dispatch, w, m0);
            err == w.stream.end && Silent(w, w')
  {
    hide Streams.Pending, Streams.ReadFull;
    Streams.ReadFullDelivers(w.stream, 2);
  }

  /** The turn after the last frame ends the loop: the table is closed, and nothing is delivered. */
  lemma LastTurn(p: Parser, dispatch: Dispatcher, w: Worker, turns: seq<seq<Event>>)
    requires Linked(w) && Streams.Pending(w.stream) == [] && turns != [] && OnlyEnds(turns)
    ensures var (w', n, err) := MuxServes.Run(Server, p, dispatch, w, BLANK, turns);
            n == 1 && err == w.stream.end && Silent(w, w') && w'.table.closed && w'.table.live == map[]
  {
    hide HandleFrame, Streams.Pending;
    EventsSilent(p, w, turns[0]);
    ApplyAllLinked(p, w, turns[0]);
    var w1 := ApplyAll(p, w, turns[0]);
    NothingToHandle(Server, p, dispatch, w1, BLANK);
    HandleLinked(Server, p, dispatch, w1, BLANK);
    ClosedSilent(HandleFrame(Server, p, dispatch, w1, BLANK).0);
  }

  lemma ClosedSilent(w: Worker)
    requires Linked(w)
    ensures Silent(w, CloseAll(w)) && CloseAll(w).table.closed && CloseAll(w).table.live == map[]
  {
  }

  /** A run that stops has closed its table. */
  lemma {:induction false} StoppedIsClosed(role: Role, p: Parser, dispatch: Dispatcher, w: Worker, m0: Metadata,
                                           turns: seq<seq<Event>>)
    requires Linked(w)
    ensures var (w', n, err) := MuxServes.Run(role, p, dispatch, w, m0, turns);
            && |w'.outs| == |w'.opens|
            && (err != NoError ==> w'.table.closed && w'.table.live == map[])
    decreases |turns|
  {
    hide HandleFrame;
    if turns != [] {
      ApplyAllLinked(p, w, turns[0]);
      var w1 := ApplyAll(p, w, turns[0]);
      HandleLinked(role, p, dispatch, w1, m0);
      var (w2, m, err) := HandleFrame(role, p, dispatch, w1, m0);
      if err != NoError {
        ClosedSilent(w2);
      } else {
        StoppedIsClosed(role, p, dispatch, w2, if role == Server then BLANK else m, turns[1..]);
      }
    }
  }

  /** What is left in w' when the loop ended after w: every output holds what it should of its session's
      data, and all of it if the session was live in w. */
  ghost predicate Leaves(w: Worker, w': Worker, h: seq<Frame>, all: bool) {
    |w.outs| == |w.opens| && |w'.outs| == |w'.opens| && w'.opens == w.opens &&
    forall s, j, i :: Speaks(h, s, j) && 0 <= i < |w.opens| && w.opens[i].id == s.id ==>
      Delivers(w'.outs[i], s, all && Live(w, i) && j == |AllFrames(WriterOf(s), s.ws)|)
  }

  /** The whole of a connection that carries exactly these frames and then ends. The loop has stopped and
      its table is closed. If it stopped before the end, every output holds a front part of what its
      session's writer was given; if not, moreover, all of it if the session was live when the last frame
      was done. */
  lemma WholeConnection(p: Parser, dispatch: Dispatcher, turns: seq<seq<Event>>, fs: seq<Frame>,
                        st: Streams.State, link: Link)
    requires Legal(Server, p, fs, []) && |turns| > |fs| && OnlyEnds(turns)
    requires st.end != NoError && Streams.Pending(st) == Wire(p, fs)
    ensures var (w1, n1, err1) := MuxServes.Run(Server, p, dispatch, Begin(st, link), BLANK, turns[..|fs|]);
            var (w, n, err) := MuxServes.Run(Server, p, dispatch, Begin(st, link), BLANK, turns);
            && n1 <= |fs| && n == n1 + (if err1 == NoError then 1 else 0)
            && err == (if err1 == NoError then st.end else err1)
            && w.table.closed && w.table.live == map[]
            && Leaves(w1, w, fs[..n1], err1 == NoError)
  {
    hide Sorted, Announced, Legal, Orderly, MuxServes.Run, Wire, Streams.Pending, Demultiplexed, Live;
    var w0, a, b := Begin(st, link), turns[..|fs|], turns[|fs|..];
    assert a + b == turns;
    assert Streams.Pending(st) + [] == Streams.Pending(st);
    Demultiplexing(p, dispatch, a, fs, st, link, []);
    StoppedIsClosed(Server, p, dispatch, w0, BLANK, a);
    var (w1, n1, err1) := MuxServes.Run(Server, p, dispatch, w0, BLANK, a);
    if err1 == NoError {
      RunGoesOn(p, dispatch, w0, a, b);
      RunsDry(p, dispatch, a, fs, st, link);
      LastTurn(p, dispatch, w1, b);
      SilentLeaves(w1, MuxServes.Run(Server, p, dispatch, w1, BLANK, b).0, fs[..n1], true);
    } else {
      RunStops(p, dispatch, w0, a, b);
      SilentLeaves(w1, w1, fs[..n1], false);
    }
  }

  /** After all frames, if none failed, nothing is pending. */
  lemma RunsDry(p: Parser, dispatch: Dispatcher, turns: seq<seq<Event>>, fs: seq<Frame>, st: Streams.State, link: Link)
    requires Legal(Server, p, fs, []) && |turns| == |fs| && OnlyEnds(turns)
    requires st.end != NoError && Streams.Pending(st) == Wire(p, fs)
    ensures var (w1, n1, err1) := MuxServes.Run(Server, p, dispatch, Begin(st, link), BLANK, turns);
            err1 == NoError ==> Linked(w1) && w1.stream.end == st.end && Streams.Pending(w1.stream) == []
  {
    hide Sorted, Announced, Legal, Orderly, MuxServes.Run, Streams.Pending;
    var w0 := Begin(st, link);
    LegalEncodable(Server, p, fs, []);
    BeginInv(Server, st, link);
    EndsAreOrderly(p, dispatch, w0, BLANK, turns, fs, []);
    assert Wire(p, fs) + [] == Wire(p, fs);
    RunSorts(Server, p, dispatch, w0, BLANK, turns, fs, [], []);
    assert fs[|fs|..] == [];
  }

  lemma {:induction false} SilentLeaves(w: Worker, w': Worker, h: seq<Frame>, all: bool)
    requires Demultiplexed(w, h, all) && Silent(w, w')
    ensures Leaves(w, w', h, all)
  {
    hide Speaks;
  }
}
