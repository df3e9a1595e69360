/** Any number of sessions' writers on one connection, and the server at the other end. */
module Interleavings {
  import opened Bytes
  import opened Buffers
  import opened Addresses
  import opened Demux
  import opened Delivery
  import opened Frames
  import opened Links
  import opened MuxWrites
  import opened MuxServes
  import Streams

  /** What the link takes of a list of frames is their bytes, one after the other. */
  lemma {:induction false} LinkCarriesFrames(p: Parser, fs: seq<Frame>)
    requires AllEncodable(p, fs)
    ensures FlatAll(Framed(p, fs)) == Wire(p, fs)
  {
    if fs != [] {
      BuffersFlat(p, fs[0]);
      LinkCarriesFrames(p, fs[1..]);
      assert Framed(p, fs)[1..] == Framed(p, fs[1..]);
    }
  }

  // ---- One session ----

  /** A session whose frames the server can take: its target can be written and read back, and no packet
      is longer than a buffer. */
  ghost predicate Apt(p: Parser, s: Session) {
    && s.dest.network in {TCP, UDP} && s.dest.address.Some? && Proper(s.dest.address.value)
    && WriteAddressPort(p, s.dest.address.value, s.dest.port).Some? && Readable(p, s.dest.address.value)
    && Writes(s.dest.network == UDP, s.ws)
    && (s.dest.network == UDP ==> forall i, j :: 0 <= i < |s.ws| && 0 <= j < |s.ws[i]| ==> |s.ws[i][j]| <= SIZE)
  }

  /** A session as the link sees it: a front part of its writer's frames, and perhaps the End frame. */
  datatype Plan = Plan(s: Session, cut: nat, end: Option<bool>)

  ghost predicate Sound(p: Parser, a: Plan) {
    Apt(p, a.s) && a.cut <= |AllFrames(WriterOf(a.s), a.s.ws)|
  }

  ghost function Sends(p: Parser, a: Plan): seq<Frame>
    requires Sound(p, a)
  {
    AllFrames(WriterOf(a.s), a.s.ws)[..a.cut] + if a.end.None? then [] else [EndFrame(a.s.id, a.end.value)]
  }

  predicate Small(fs: seq<Frame>, max: nat) {
    forall i :: 0 <= i < |fs| ==> |Flat(Data(fs[i]))| <= max
  }

  lemma {:induction false} PacketFramesSmall(w: Writer, ps: seq<Bytes>, max: nat)
    requires w.packets && forall i :: 0 <= i < |ps| ==> |ps[i]| <= max
    ensures Small(DataFrames(w, ps), max)
    decreases |ps|
  {
    if Flat(ps) != [] {
      CutFacts(true, ps);
      var w1 := w.(followup := true);
      PacketFramesSmall(w1, ps[1..], max);
      assert ps[..1] == [ps[0]];
      FlatOne(ps[0]);
      assert DataFrames(w, ps) == [NextFrame(w, Some(ps[..1]))] + DataFrames(w1, ps[1..]);
    }
  }

  lemma {:induction false} AllFramesSmall(w: Writer, ws: seq<seq<Bytes>>, max: nat)
    requires Writes(w.packets, ws)
    requires if w.packets then forall i, j :: 0 <= i < |ws| && 0 <= j < |ws[i]| ==> |ws[i][j]| <= max
             else max == 8192
    ensures Small(AllFrames(w, ws), max)
    decreases |ws|
  {
    if ws != [] {
      FramesCarryAll(w, ws[0]);
      if w.packets {
        PacketFramesSmall(w, ws[0], max);
      }
      AllFramesSmall(w.(followup := true), ws[1..], max);
    }
  }

  /** A frame of the session that the server can take. */
  ghost predicate Takes(p: Parser, s: Session, f: Frame, first: bool) {
    && WellFormed(p, f) && f.meta.id == s.id && (f.meta.status == NEW ==> first && f.meta.target == s.dest)
    && (s.dest.network == UDP ==> |Flat(Data(f))| <= SIZE)
  }

  lemma AllFramesTaken(p: Parser, s: Session)
    requires Apt(p, s) && Consistent(p)
    ensures var fs := AllFrames(WriterOf(s), s.ws);
            forall i :: 0 <= i < |fs| ==> Takes(p, s, fs[i], i == 0)
  {
    hide AllFrames, Readable, WriteAddressPort;
    var fs := AllFrames(WriterOf(s), s.ws);
    AllFramesCarryAll(WriterOf(s), s.ws);
    AllFramesSmall(WriterOf(s), s.ws, if s.dest.network == UDP then SIZE else 8192);
    forall i | 0 <= i < |fs| ensures Takes(p, s, fs[i], i == 0) {}
  }

  lemma EndFrameTaken(p: Parser, s: Session, failed: bool, first: bool)
    requires Consistent(p)
    ensures Takes(p, s, EndFrame(s.id, failed), first)
  {
  }

  lemma SendsTaken(p: Parser, a: Plan)
    requires Sound(p, a) && Consistent(p)
    ensures forall i :: 0 <= i < |Sends(p, a)| ==> Takes(p, a.s, Sends(p, a)[i], i == 0)
  {
    hide AllFrames, Takes;
    AllFramesTaken(p, a.s);
    forall i | 0 <= i < |Sends(p, a)| ensures Takes(p, a.s, Sends(p, a)[i], i == 0) {
      if i < a.cut {
        assert Sends(p, a)[i] == AllFrames(WriterOf(a.s), a.s.ws)[i];
      } else {
        EndFrameTaken(p, a.s, a.end.value, i == 0);
        assert Sends(p, a)[i] == EndFrame(a.s.id, a.end.value);
      }
    }
  }

  /** A front part of what a session sends is the session speaking. */
  lemma FrontSpeaks(p: Parser, a: Plan, h: seq<Frame>, n: nat)
    requires Sound(p, a) && n <= |Sends(p, a)| && Select(h, a.s.id) == Sends(p, a)[..n]
    ensures Speaks(h, a.s, if n < a.cut then n else a.cut)
  {
    var all := AllFrames(WriterOf(a.s), a.s.ws);
    if n <= a.cut {
      assert Sends(p, a)[..n] == all[..n];
    } else {
      assert Sends(p, a)[..n] == all[..a.cut] + [EndFrame(a.s.id, a.end.value)];
    }
  }

  // ---- Any number of sessions ----

  ghost predicate Fleet(p: Parser, plans: seq<Plan>) {
    && Consistent(p) && (forall k :: 0 <= k < |plans| ==> Sound(p, plans[k]))
    && forall k, l :: 0 <= k < l < |plans| ==> plans[k].s.id != plans[l].s.id
  }

  /** An interleaving: the frames of each session, in order, and no others. */
  ghost predicate Merged(p: Parser, plans: seq<Plan>, h: seq<Frame>)
    requires Fleet(p, plans)
  {
    && (forall k :: 0 <= k < |plans| ==> Select(h, plans[k].s.id) == Sends(p, plans[k]))
    && forall i :: 0 <= i < |h| ==> Known(plans, h[i].meta.id)
  }

  ghost predicate Known(plans: seq<Plan>, id: uint16) {
    exists k :: 0 <= k < |plans| && plans[k].s.id == id
  }

  /** Every frame of an interleaving is the next of its session. */
  lemma MergedFrame(p: Parser, plans: seq<Plan>, h: seq<Frame>, i: nat) returns (k: nat)
    requires Fleet(p, plans) && Merged(p, plans, h) && i < |h|
    ensures k < |plans| && Takes(p, plans[k].s, h[i], Unseen(h[..i], h[i].meta.id))
  {
    assert Known(plans, h[i].meta.id);
    hide Sends, Select, Takes, Unseen;
    var x :| 0 <= x < |plans| && plans[x].s.id == h[i].meta.id;
    k := x;
    SendsTaken(p, plans[k]);
    Standing(h, h[i].meta.id, i);
    UnseenIsEmpty(h[..i], h[i].meta.id);
    var n := |Select(h[..i], h[i].meta.id)|;
    assert Takes(p, plans[k].s, Sends(p, plans[k])[n], n == 0);
  }

  /** Whatever the interleaving, the frames are legal for the server. */
  lemma MergedLegal(p: Parser, plans: seq<Plan>, h: seq<Frame>)
    requires Fleet(p, plans) && Merged(p, plans, h)
    ensures Legal(Server, p, h, [])
  {
    hide Merged, WellFormed, Unseen;
    forall i | 0 <= i < |h|
      ensures WellFormed(p, h[i]) && Fresh(Server, [] + h[..i], h[i])
      ensures !(h[i].meta.status == NEW && h[i].meta.target.network == UDP && |Flat(Data(h[i]))| > SIZE)
    {
      var k := MergedFrame(p, plans, h, i);
      assert [] + h[..i] == h[..i];
    }
  }

  /** And no frame of a packet session is longer than a buffer. */
  lemma MergedTame(p: Parser, plans: seq<Plan>, h: seq<Frame>)
    requires Fleet(p, plans) && Merged(p, plans, h)
    ensures Tame(h)
  {
    hide Merged, WellFormed, Unseen;
    forall i, j | 0 <= i < |h| && 0 <= j < |h| && h[i].meta.status == NEW && h[i].meta.target.network == UDP
                  && h[j].meta.id == h[i].meta.id
      ensures |Flat(Data(h[j]))| <= SIZE
    {
      var k := MergedFrame(p, plans, h, i);
      var l := MergedFrame(p, plans, h, j);
    }
  }

  /** A front part of an interleaving is each session speaking. */
  lemma FrontOfOrder(p: Parser, plans: seq<Plan>, h: seq<Frame>, n: nat, k: nat)
    requires Fleet(p, plans) && Merged(p, plans, h) && n <= |h| && k < |plans|
    ensures exists j: nat :: Speaks(h[..n], plans[k].s, j)
    ensures n == |h| ==> Speaks(h[..n], plans[k].s, plans[k].cut)
  {
    hide Sends, Select, Speaks;
    var id := plans[k].s.id;
    assert h == h[..n] + h[n..];
    SelectAppend(h[..n], h[n..], id);
    var m := |Select(h[..n], id)|;
    assert Select(h[..n], id) == Sends(p, plans[k])[..m];
    FrontSpeaks(p, plans[k], h[..n], m);
    if n == |h| {
      assert h[..n] == h;
      SendsLength(p, plans[k]);
    }
  }

  lemma SendsLength(p: Parser, a: Plan)
    requires Sound(p, a)
    ensures |Sends(p, a)| >= a.cut
  {
  }

  /** The bytes of an interleaving. */
  ghost function Traffic(p: Parser, plans: seq<Plan>, h: seq<Frame>): Bytes
    requires Fleet(p, plans) && Merged(p, plans, h)
  {
    MergedLegal(p, plans, h);
    LegalEncodable(Server, p, h, []);
    Wire(p, h)
  }

  /** An output that belongs to a session holds a front part of its data; and exactly the data if `all`
      and all the session's frames are in h. */
  ghost predicate Served(h: seq<Frame>, s: Session, out: Link, all: bool) {
    exists j: nat :: Speaks(h, s, j) && Delivers(out, s, all && j == |AllFrames(WriterOf(s), s.ws)|)
  }

  // ---- The server ----

  /** The multiplexing theorem. Any number of client sessions with distinct ids, each with any writes and
      cut off or ended anywhere; any interleaving of their frames on the link; any segmentation by the
      transport; any dispatcher, outputs and sessions ended in between: after any number of turns each
      output the server has opened for a session holds a front part of exactly what that session's writer
      was given, and all of it when the session is live and all its frames have been handled. */
  lemma ManySessions(p: Parser, dispatch: Dispatcher, plans: seq<Plan>, h: seq<Frame>, turns: seq<seq<Event>>,
                     st: Streams.State, link: Link, tail: Bytes)
    requires Fleet(p, plans) && Merged(p, plans, h) && |turns| <= |h| && OnlyEnds(turns)
    requires st.end != NoError && Streams.Pending(st) == Traffic(p, plans, h) + tail
    ensures var (w, n, err) := MuxServes.Run(Server, p, dispatch, Begin(st, link), BLANK, turns);
            && n <= |turns| && |w.opens| == |w.outs|
            && forall k, i :: 0 <= k < |plans| && 0 <= i < |w.opens| && w.opens[i].id == plans[k].s.id ==>
                 Served(h[..n], plans[k].s, w.outs[i], err == NoError && Live(w, i))
  {
    hide Legal, MuxServes.Run, Wire, Streams.Pending, Delivers, Speaks, Merged, Live;
    MergedLegal(p, plans, h);
    Demultiplexing(p, dispatch, turns, h, st, link, tail);
    var (w, n, err) := MuxServes.Run(Server, p, dispatch, Begin(st, link), BLANK, turns);
    forall k, i | 0 <= k < |plans| && 0 <= i < |w.opens| && w.opens[i].id == plans[k].s.id
      ensures Served(h[..n], plans[k].s, w.outs[i], err == NoError && Live(w, i))
    {
      FrontOfOrder(p, plans, h, n, k);
    }
  }

  /** To the end: when the connection carries just this and the loop has stopped, every output holds that
      still, with the sessions that were live after the last frame in the place of those that are; by now
      the table is closed. */
  lemma ManySessionsToTheEnd(p: Parser, dispatch: Dispatcher, plans: seq<Plan>, h: seq<Frame>, turns: seq<seq<Event>>,
                             st: Streams.State, link: Link)
    requires Fleet(p, plans) && Merged(p, plans, h) && |turns| > |h| && OnlyEnds(turns)
    requires st.end != NoError && Streams.Pending(st) == Traffic(p, plans, h)
    ensures var (w1, n, err1) := MuxServes.Run(Server, p, dispatch, Begin(st, link), BLANK, turns[..|h|]);
            var (w, n', err) := MuxServes.Run(Server, p, dispatch, Begin(st, link), BLANK, turns);
            && n <= |h| && err == (if err1 == NoError then st.end else err1) && w.table.closed
            && w.opens == w1.opens && |w.opens| == |w.outs|
            && forall k, i :: 0 <= k < |plans| && 0 <= i < |w.opens| && w.opens[i].id == plans[k].s.id ==>
                 Served(h[..n], plans[k].s, w.outs[i], err1 == NoError && Live(w1, i))
  {
    hide Legal, MuxServes.Run, Wire, Streams.Pending, Delivers, Speaks, Merged, Live;
    MergedLegal(p, plans, h);
    WholeConnection(p, dispatch, turns, h, st, link);
    var (w1, n, err1) := MuxServes.Run(Server, p, dispatch, Begin(st, link), BLANK, turns[..|h|]);
    var w := MuxServes.Run(Server, p, dispatch, Begin(st, link), BLANK, turns).0;
    forall k, i | 0 <= k < |plans| && 0 <= i < |w.opens| && w.opens[i].id == plans[k].s.id
      ensures Served(h[..n], plans[k].s, w.outs[i], err1 == NoError && Live(w1, i))
    {
      FrontOfOrder(p, plans, h, n, k);
    }
  }

  /** A session that nothing disturbs, with all its frames on the link: when the loop is over its output
      holds exactly what its writer was given, whatever happened to the other sessions, as long as none
      of them stopped the loop. */
  lemma UndisturbedSession(p: Parser, dispatch: Dispatcher, plans: seq<Plan>, h: seq<Frame>, turns: seq<seq<Event>>,
                           st: Streams.State, link: Link, k: nat)
    requires Fleet(p, plans) && Merged(p, plans, h) && |turns| > |h| && OnlyEnds(turns)
    requires st.end != NoError && Streams.Pending(st) == Traffic(p, plans, h)
    requires k < |plans| && 0 < plans[k].cut == |AllFrames(WriterOf(plans[k].s), plans[k].s.ws)|
    requires Undisturbed(p, dispatch, Begin(st, link), BLANK, turns[..|h|], h, plans[k].s.id)
    requires MuxServes.Run(Server, p, dispatch, Begin(st, link), BLANK, turns[..|h|]).2 == NoError
    ensures var w := MuxServes.Run(Server, p, dispatch, Begin(st, link), BLANK, turns).0;
            && |w.opens| == |w.outs|
            && exists i :: 0 <= i < |w.opens| && w.opens[i].id == plans[k].s.id && Delivers(w.outs[i], plans[k].s, true)
  {
    hide Legal, MuxServes.Run, Wire, Streams.Pending, Delivers, Speaks, Merged, Undisturbed;
    var s := plans[k].s;
    MergedLegal(p, plans, h);
    FrontOfOrder(p, plans, h, |h|, k);
    assert h[..|h|] == h;
    assert Streams.Pending(st) + [] == Streams.Pending(st);
    SomethingWritten(p, plans[k]);
    UndisturbedGetsAll(p, dispatch, turns[..|h|], h, st, link, [], s);
    UndisturbedToTheEnd(p, dispatch, turns, h, st, link, s);
  }

  lemma SomethingWritten(p: Parser, a: Plan)
    requires Sound(p, a) && a.cut > 0
    ensures a.s.ws != [] && Writes(a.s.dest.network == UDP, a.s.ws)
  {
  }

  lemma UndisturbedToTheEnd(p: Parser, dispatch: Dispatcher, turns: seq<seq<Event>>, h: seq<Frame>,
                            st: Streams.State, link: Link, s: Session)
    requires Legal(Server, p, h, []) && |turns| > |h| && OnlyEnds(turns)
    requires st.end != NoError && Streams.Pending(st) == Wire(p, h)
    requires var (w1, n, err1) := MuxServes.Run(Server, p, dispatch, Begin(st, link), BLANK, turns[..|h|]);
             && err1 == NoError && |w1.outs| == |w1.opens|
             && exists i :: 0 <= i < |w1.opens| && w1.opens[i].id == s.id && Delivers(w1.outs[i], s, true)
    ensures var w := MuxServes.Run(Server, p, dispatch, Begin(st, link), BLANK, turns).0;
            && |w.opens| == |w.outs|
            && exists i :: 0 <= i < |w.opens| && w.opens[i].id == s.id && Delivers(w.outs[i], s, true)
  {
    hide MuxServes.Run, Wire, Streams.Pending;
    var w0, a, b := Begin(st, link), turns[..|h|], turns[|h|..];
    assert a + b == turns;
    RunGoesOn(p, dispatch, w0, a, b);
    RunsDry(p, dispatch, a, h, st, link);
    var w1 := MuxServes.Run(Server, p, dispatch, w0, BLANK, a).0;
    LastTurn(p, dispatch, w1, b);
    var w := MuxServes.Run(Server, p, dispatch, w1, BLANK, b).0;
    var i :| 0 <= i < |w1.opens| && w1.opens[i].id == s.id && Delivers(w1.outs[i], s, true);
    assert Delivers(w.outs[i], s, true);
  }
}
