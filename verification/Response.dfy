/** The other direction: the goroutines of the server's sessions on the link back, and the client's loop. */
module Responses {
  import opened Bytes
  import opened Buffers
  import opened Addresses
  import opened Breaks
  import opened Demux
  import opened Frames
  import opened Interleavings
  import opened Links
  import opened MuxWrites
  import opened MuxServes
  import opened Talks
  import MuxReads
  import Sessions
  import Streams

  /** handle of a session on the server: what it copies from the session's input to a response writer, in
      the form of the session, and whether the input fails in the end. */
  datatype Reply = Reply(id: uint16, packets: bool, ws: seq<seq<Bytes>>, broken: bool)

  /** NewResponseWriter: the session is known at the other end, so all its frames are Keep frames. */
  function ReplyWriter(a: Reply): Writer {
    MuxWrites.Writer(a.id, Destination(None, 0, Unknown), a.packets, true, false)
  }

  ghost predicate Sendable(a: Reply) {
    && Writes(a.packets, a.ws)
    && (a.packets ==> forall i, j :: 0 <= i < |a.ws| && 0 <= j < |a.ws[i]| ==> |a.ws[i][j]| <= SIZE)
  }

  ghost predicate Repliers(p: Parser, replies: seq<Reply>) {
    && Consistent(p) && (forall k :: 0 <= k < |replies| ==> Sendable(replies[k]))
    && forall k, l :: 0 <= k < l < |replies| ==> replies[k].id != replies[l].id
  }

  ghost function SenderOf(a: Reply): Sender
    requires Sendable(a)
  {
    Sender(a.id, AllFrames(ReplyWriter(a), a.ws), a.broken)
  }

  ghost function Senders(p: Parser, replies: seq<Reply>): (team: seq<Sender>)
    requires Repliers(p, replies)
    ensures |team| == |replies| && Team(p, team)
    ensures forall k :: 0 <= k < |replies| ==> team[k] == SenderOf(replies[k])
  {
    forall k | 0 <= k < |replies| ensures Fit(p, SenderOf(replies[k])) { KeepsOnly(p, replies[k]); }
    seq(|replies|, k requires 0 <= k < |replies| => SenderOf(replies[k]))
  }

  /** A frame the client can take. */
  ghost predicate Takeable(p: Parser, f: Frame) {
    WellFormed(p, f) && f.meta.status in {KEEP, END}
  }

  lemma KeepsOnly(p: Parser, a: Reply)
    requires Sendable(a) && Consistent(p)
    ensures forall f :: f in SenderOf(a).frames ==> Takeable(p, f) && f.meta.status == KEEP && f.meta.id == a.id
    ensures Fit(p, SenderOf(a))
  {
    var w, fs := ReplyWriter(a), AllFrames(ReplyWriter(a), a.ws);
    AllFramesCarryAll(w, a.ws);
    AllFramesSmall(w, a.ws, if a.packets then SIZE else 8192);
    hide AllFrames, Writes, FlatAll, Singles, NonEmptyAll, AllData, PacketWrites, WellFormed;
    forall f | f in fs ensures Takeable(p, f) && f.meta.status == KEEP && f.meta.id == a.id {
      var i :| 0 <= i < |fs| && fs[i] == f;
      KeepTakeable(p, f);
    }
    forall f | f in fs ensures Encodable(p, f) { TakeableEncodable(p, f); }
  }

  lemma TakeableEncodable(p: Parser, f: Frame)
    requires Takeable(p, f)
    ensures Encodable(p, f)
  {
  }

  lemma KeepTakeable(p: Parser, f: Frame)
    requires Consistent(p) && f.meta.status == KEEP && f.meta.option == (if f.data.Some? then DATA else 0)
    requires f.meta.target == Destination(None, 0, Unknown) && |Flat(Data(f))| < 0x1_0000
    ensures Takeable(p, f)
  {
  }

  // ---- What a session's frames carry to the client ----

  lemma {:induction false} TalkedCarried(h: seq<Frame>, id: uint16)
    requires forall i :: 0 <= i < |h| ==> h[i].meta.status in {KEEP, END}
    ensures DataOf(Client, h, id) == AllData(Talked(h, id))
    ensures PacketsOf(Client, h, id) == PacketWrites(Talked(h, id))
    decreases |h|
  {
    if h != [] {
      var init, f := h[..|h| - 1], h[|h| - 1];
      TalkedCarried(init, id);
      if f.meta.id == id && f.meta.status == KEEP {
        AllDataAppend(Talked(init, id), [f]);
        PacketWritesAppend(Talked(init, id), [f]);
        assert [f][1..] == [];
        assert AllData([f]) == Flat(Data(f)) + [] && PacketWrites([f]) == Whole(Flat(Data(f))) + [];
      } else {
        assert Part(Client, f, id) == [] && Whole([]) == [] && Talked(h, id) == Talked(init, id);
        assert DataOf(Client, init, id) + [] == DataOf(Client, init, id);
      }
    }
  }

  lemma {:induction false} TalkedFront(h: seq<Frame>, n: nat, id: uint16)
    requires n <= |h|
    ensures Talked(h[..n], id) <= Talked(h, id)
    decreases |h|
  {
    if n == |h| {
      assert h[..n] == h;
    } else {
      TalkedFront(h[..|h| - 1], n, id);
      assert h[..|h| - 1][..n] == h[..n];
    }
  }

  lemma {:induction false} TalkedHas(h: seq<Frame>, id: uint16, i: nat)
    requires i < |h| && h[i].meta.id == id && h[i].meta.status != END
    ensures h[i] in Talked(h, id)
    decreases |h|
  {
    if i < |h| - 1 {
      TalkedHas(h[..|h| - 1], id, i);
    }
  }

  /** An output of the client with a front part of what was carried for its session has a front part of
      what the server's session was given; with all of it, if all its frames have come, all. */
  lemma FedHolds(h: seq<Frame>, a: Reply, o: Open, l: Link, all: bool)
    requires Sendable(a) && o == Open(a.id, a.packets) && Fed(Client, h, o, l, all)
    requires (forall i :: 0 <= i < |h| ==> h[i].meta.status in {KEEP, END}) && Talked(h, a.id) <= SenderOf(a).frames
    ensures Holds(l, a.packets, a.ws, all && Talked(h, a.id) == SenderOf(a).frames)
  {
    hide Talked, DataOf, PacketsOf, AllData, PacketWrites, Singles, NonEmptyAll, FlatAll, AllFrames;
    var fs, mine := SenderOf(a).frames, Talked(h, a.id);
    TalkedCarried(h, a.id);
    AllFramesCarryAll(ReplyWriter(a), a.ws);
    assert mine == fs[..|mine|];
    FrontPart(fs, |mine|);
    PartHolds(l, a.packets, a.ws, all, DataOf(Client, h, a.id), PacketsOf(Client, h, a.id), mine == fs);
  }

  lemma PartHolds(l: Link, packets: bool, ws: seq<seq<Bytes>>, all: bool, data: Bytes, writes: seq<seq<Bytes>>,
                  whole: bool)
    requires if packets then l.writes <= writes && (all ==> l.writes == writes)
             else l.Sent() <= data && (all ==> l.Sent() == data)
    requires if packets then writes <= Singles(NonEmptyAll(ws)) && (whole ==> writes == Singles(NonEmptyAll(ws)))
             else data <= FlatAll(ws) && (whole ==> data == FlatAll(ws))
    ensures Holds(l, packets, ws, all && whole)
  {
  }

  // ---- What was delivered stays ----

  /** The outputs of w are there in w', and hold what they held and perhaps more. */
  ghost predicate Grows(w: Worker, w': Worker) {
    && |w.outs| == |w.opens| && |w'.outs| == |w'.opens| && w.opens <= w'.opens
    && forall i :: 0 <= i < |w.outs| ==> w.outs[i].writes <= w'.outs[i].writes
  }

  lemma GrowsOn(a: Worker, b: Worker, c: Worker)
    requires Grows(a, b) && Grows(b, c)
    ensures Grows(a, c)
  {
  }

  lemma {:induction false} CopyGrows(r: MuxReads.Reader, out: Option<Link>)
    requires MuxReads.StreamOf(r).end != NoError
    ensures var (r', out', e) := MuxReads.Copy(r, out);
            out.Some? ==> out'.Some? && out.value.writes <= out'.value.writes
    decreases Streams.Work(MuxReads.StreamOf(r))
  {
    hide MuxReads.ReadOnce, MuxReads.Copy, Streams.Work;
    MuxReads.CopyUnfold(r, out);
    var (r1, o) := MuxReads.ReadOnce(r);
    var (out1, werr) := MuxReads.Pass(out, o.mb);
    if werr == NoError && o.err == NoError {
      CopyGrows(r1, out1);
    }
  }

  lemma KeepGrows(p: Parser, w: Worker, m: Metadata)
    requires Linked(w)
    ensures Grows(w, HandleKeep(p, w, m).0)
  {
    hide MuxReads.Copy;
    var g := Sessions.Get(w.table, m.id);
    if g.Some? {
      var r, out := MuxReads.NewReader(g.value.packets, w.stream), Some(w.outs[g.value.out]);
      MuxReads.CopyKeeps(r, out);
      CopyGrows(r, out);
    }
  }

  lemma NewGrows(role: Role, dispatch: Dispatcher, w: Worker, m: Metadata)
    requires Linked(w)
    ensures Grows(w, HandleNew(role, dispatch, w, m).0)
  {
    hide MuxReads.Copy;
    if role == Server && dispatch(w.dispatched).Some? && HasData(m.option) {
      var packets := m.target.network == UDP;
      var w1 := OpenSession(w, m.id, packets, dispatch(w.dispatched).value);
      var r, out := MuxReads.NewReader(packets, w1.stream), Some(w1.outs[|w.outs|]);
      MuxReads.CopyKeeps(r, out);
    }
  }

  lemma FrameGrows(role: Role, p: Parser, dispatch: Dispatcher, w: Worker, m0: Metadata)
    requires Linked(w)
    ensures Grows(w, HandleFrame(role, p, dispatch, w, m0).0)
  {
    hide Unmarshal, HandleKeep, HandleNew, MuxReads.Copy;
    UnmarshalKeepsEnd(p, m0, w.stream);
    var (m, st, err) := Unmarshal(p, m0, w.stream);
    var w1 := w.(stream := st);
    if err == NoError && m.status == KEEP {
      KeepGrows(p, w1, m);
    } else if err == NoError && m.status == NEW {
      NewGrows(role, dispatch, w1, m);
    }
  }

  lemma {:induction false} EventsGrow(p: Parser, w: Worker, es: seq<Event>)
    requires |w.outs| == |w.opens|
    ensures Grows(w, ApplyAll(p, w, es))
    decreases |es|
  {
    if es != [] {
      hide CloseWriter;
      EventsGrow(p, Apply(p, w, es[0]), es[1..]);
    }
  }

  lemma {:induction false} RunGrows(role: Role, p: Parser, dispatch: Dispatcher, w: Worker, m0: Metadata,
                                    turns: seq<seq<Event>>)
    requires Linked(w)
    ensures Grows(w, MuxServes.Run(role, p, dispatch, w, m0, turns).0)
    decreases |turns|
  {
    hide HandleFrame, ApplyAll;
    if turns != [] {
      EventsGrow(p, w, turns[0]);
      ApplyAllLinked(p, w, turns[0]);
      var w1 := ApplyAll(p, w, turns[0]);
      HandleLinked(role, p, dispatch, w1, m0);
      FrameGrows(role, p, dispatch, w1, m0);
      var (w2, m, err) := HandleFrame(role, p, dispatch, w1, m0);
      GrowsOn(w, w1, w2);
      if err == NoError {
        var m1 := if role == Server then BLANK else m;
        RunGrows(role, p, dispatch, w2, m1, turns[1..]);
        GrowsOn(w, w2, MuxServes.Run(role, p, dispatch, w2, m1, turns[1..]).0);
      } else {
        GrowsOn(w, w2, CloseAll(w2));
      }
    }
  }

  /** Whatever the turns after the first c bring. */
  lemma {:induction false} LaterGrows(role: Role, p: Parser, dispatch: Dispatcher, w: Worker, m0: Metadata,
                                      turns: seq<seq<Event>>, c: nat)
    requires Linked(w) && c <= |turns|
    ensures Grows(MuxServes.Run(role, p, dispatch, w, m0, turns[..c]).0,
                  MuxServes.Run(role, p, dispatch, w, m0, turns).0)
    decreases c
  {
    hide HandleFrame, ApplyAll, Grows;
    if c == 0 {
      RunGrows(role, p, dispatch, w, m0, turns);
    } else {
      assert turns[..c][0] == turns[0] && turns[..c][1..] == turns[1..][..c - 1];
      ApplyAllLinked(p, w, turns[0]);
      var w1 := ApplyAll(p, w, turns[0]);
      HandleLinked(role, p, dispatch, w1, m0);
      var (w2, m, err) := HandleFrame(role, p, dispatch, w1, m0);
      if err == NoError {
        LaterGrows(role, p, dispatch, w2, if role == Server then BLANK else m, turns[1..], c - 1);
      } else {
        RunGrows(role, p, dispatch, CloseAll(w2), m0, []);
      }
    }
  }

  // ---- Both ends ----

  /** Everything on the link back is something the client can take. */
  lemma RepliesLegal(p: Parser, replies: seq<Reply>, phs: seq<Phase>, h: seq<Frame>, l0: Link, l: Link)
    requires Repliers(p, replies) && Spread(p, Senders(p, replies), phs, h, true, l0, l)
    ensures forall i :: 0 <= i < |h| ==> Takeable(p, h[i])
    ensures Legal(Client, p, h, [])
    ensures forall k :: 0 <= k < |replies| ==> Talked(h, replies[k].id) <= SenderOf(replies[k]).frames
  {
    hide Talked, AllFrames, Framed;
    var team := Senders(p, replies);
    forall i | 0 <= i < |h| ensures Takeable(p, h[i]) {
      if h[i].meta.status == END {
        var failed :| h[i] == EndFrame(h[i].meta.id, failed);
      } else {
        var k :| 0 <= k < |team| && team[k].id == h[i].meta.id;
        TalkedHas(h, team[k].id, i);
        KeepsOnly(p, replies[k]);
        assert h[i] in team[k].frames;
      }
    }
  }

  /** The frames on the link back. */
  lemma WhatTheyReplied(p: Parser, replies: seq<Reply>, refuses: nat -> bool, picks: seq<Pick>) returns (h: seq<Frame>)
    requires Repliers(p, replies)
    ensures var (phs, l) := Outcome(p, Senders(p, replies), refuses, picks);
            && AllEncodable(p, h) && l.writes == Framed(p, h) && l.Sent() == Wire(p, h) && Legal(Client, p, h, [])
            && (forall i :: 0 <= i < |h| ==> h[i].meta.status in {KEEP, END})
            && forall k :: 0 <= k < |replies| ==> Talked(h, replies[k].id) <= SenderOf(replies[k]).frames
  {
    hide Framed, Talk, Wire, Act, Talked, WellFormed, Legal;
    var team, l0 := Senders(p, replies), Link([], 0, false, refuses);
    NothingSpread(p, team, true, l0);
    h := TalkSpreads(p, team, Waiting(team), [], true, l0, l0, picks);
    var (phs, l) := Outcome(p, team, refuses, picks);
    assert l0.writes + Framed(p, h) == Framed(p, h);
    RepliesLegal(p, replies, phs, h, l0, l);
    LinkCarriesFrames(p, h);
  }

  lemma {:induction false} OrderlyFront(role: Role, p: Parser, dispatch: Dispatcher, w: Worker, m0: Metadata,
                                        turns: seq<seq<Event>>, fs: seq<Frame>, h: seq<Frame>, c: nat)
    requires Linked(w) && Orderly(role, p, dispatch, w, m0, turns, fs, h) && c <= |turns|
    ensures Orderly(role, p, dispatch, w, m0, turns[..c], fs, h)
    decreases c
  {
    hide HandleFrame, ApplyAll, Timely;
    if c > 0 {
      assert turns[..c][0] == turns[0] && turns[..c][1..] == turns[1..][..c - 1];
      ApplyAllLinked(p, w, turns[0]);
      var w1 := ApplyAll(p, w, turns[0]);
      HandleLinked(role, p, dispatch, w1, m0);
      var (w2, m, err) := HandleFrame(role, p, dispatch, w1, m0);
      var n := Min(|fs|, 1);
      if err == NoError {
        var m1 := if role == Server then BLANK else m;
        OrderlyFront(role, p, dispatch, w2, m1, turns[1..], fs[n..], h + fs[..n], c - 1);
      }
    }
  }

  /** After the first c turns of the client no frame has failed, every frame of the session was handled, and
      the session is live, with output number i. */
  ghost predicate AllHandled(p: Parser, dispatch: Dispatcher, turns: seq<seq<Event>>, h: seq<Frame>, a: Reply,
                             st: Streams.State, link: Link, c: nat, i: nat)
    requires st.end != NoError && c <= |turns| && Sendable(a)
  {
    var (w, n, err) := MuxServes.Run(Client, p, dispatch, Begin(st, link), BLANK, turns[..c]);
    && err == NoError && c <= |h| && i < |w.opens| && w.opens[i] == Open(a.id, a.packets) && Live(w, i)
    && Talked(h[..c], a.id) == SenderOf(a).frames
  }

  /** Then its output holds everything. */
  lemma HandledHolds(p: Parser, dispatch: Dispatcher, turns: seq<seq<Event>>, h: seq<Frame>, a: Reply,
                     st: Streams.State, link: Link, c: nat, i: nat)
    requires st.end != NoError && c <= |turns| && Sendable(a) && Legal(Client, p, h, []) && AllEncodable(p, h)
    requires (forall j :: 0 <= j < |h| ==> h[j].meta.status in {KEEP, END}) && Streams.Pending(st) == Wire(p, h)
    requires Orderly(Client, p, dispatch, Begin(st, link), BLANK, turns, h, [])
    requires AllHandled(p, dispatch, turns, h, a, st, link, c, i)
    ensures var w := MuxServes.Run(Client, p, dispatch, Begin(st, link), BLANK, turns[..c]).0;
            i < |w.outs| && Holds(w.outs[i], a.packets, a.ws, true)
  {
    hide MuxServes.Run, Wire, Streams.Pending, Holds, Legal, Fed, Announced, Orderly, Talked, Live;
    var w0 := Begin(st, link);
    BeginInv(Client, st, link);
    OrderlyFront(Client, p, dispatch, w0, BLANK, turns, h, [], c);
    assert Streams.Pending(st) + [] == Streams.Pending(st) && Wire(p, h) + [] == Wire(p, h);
    RunSorts(Client, p, dispatch, w0, BLANK, turns[..c], h, [], []);
    assert [] + h[..c] == h[..c];
    var w := MuxServes.Run(Client, p, dispatch, w0, BLANK, turns[..c]).0;
    FedHolds(h[..c], a, w.opens[i], w.outs[i], true);
  }

  /** What more comes cannot be more than all. */
  lemma HoldsStill(l: Link, l': Link, a: Reply)
    requires Holds(l, a.packets, a.ws, true) && l.writes <= l'.writes && Holds(l', a.packets, a.ws, false)
    ensures Holds(l', a.packets, a.ws, true)
  {
    hide Singles, NonEmptyAll;
    var more := l'.writes[|l.writes|..];
    assert l'.writes == l.writes + more;
    FlatAllAppend(l.writes, more);
  }

  /** From end to end, the way back. Any number of the server's sessions write to a link in any order, with
      End frames of the server's loop among them, whatever it refuses; the client's loop reads what the link
      took, cut up in any way, until the connection ends or breaks; meanwhile it opens sessions, under ids
      that no frame handled so far has named, ends them, and may shut its table. Every output of a session
      holds a front part of exactly what that session's goroutine on the server was given. If there was a
      moment when all the session's frames were handled, and the session not yet ended, it holds all of it,
      then and ever after. */
  lemma ReplyToEnd(p: Parser, dispatch: Dispatcher, replies: seq<Reply>, refuses: nat -> bool, picks: seq<Pick>,
                   turns: seq<seq<Event>>, st: Streams.State, link: Link)
    returns (h: seq<Frame>)
    requires Repliers(p, replies) && st.end != NoError
    requires Streams.Pending(st) <= Outcome(p, Senders(p, replies), refuses, picks).1.Sent()
    ensures AllEncodable(p, h) && Outcome(p, Senders(p, replies), refuses, picks).1.writes == Framed(p, h)
    ensures Linked(Begin(st, link))
    ensures Orderly(Client, p, dispatch, Begin(st, link), BLANK, turns, h, []) ==>
              var (w, n, err) := MuxServes.Run(Client, p, dispatch, Begin(st, link), BLANK, turns);
              && |w.opens| == |w.outs| && (if err == NoError then |turns| <= |h| else w.table.closed)
              && forall k, i :: 0 <= k < |replies| && 0 <= i < |w.opens|
                                && w.opens[i] == Open(replies[k].id, replies[k].packets) ==>
                   && Holds(w.outs[i], replies[k].packets, replies[k].ws, false)
                   && (Streams.Pending(st) == Outcome(p, Senders(p, replies), refuses, picks).1.Sent()
                       && (exists c ::
                             0 <= c <= |turns| && AllHandled(p, dispatch, turns, h, replies[k], st, link, c, i)) ==>
                         Holds(w.outs[i], replies[k].packets, replies[k].ws, true))
  {
    hide MuxServes.Run, Wire, Streams.Pending, Holds, Legal, Fed, Announced, Orderly, Talked, Talk, Framed, AllHandled;
    h := WhatTheyReplied(p, replies, refuses, picks);
    var w0 := Begin(st, link);
    BeginInv(Client, st, link);
    if Orderly(Client, p, dispatch, w0, BLANK, turns, h, []) {
      var (w, n, err) := MuxServes.Run(Client, p, dispatch, w0, BLANK, turns);
      var m := RunFronts(Client, p, dispatch, w0, BLANK, turns, h, []);
      StoppedIsClosed(Client, p, dispatch, w0, BLANK, turns);
      assert [] + h[..m] == h[..m];
      forall k, i | 0 <= k < |replies| && 0 <= i < |w.opens| && w.opens[i] == Open(replies[k].id, replies[k].packets)
        ensures Holds(w.outs[i], replies[k].packets, replies[k].ws, false)
      {
        TalkedFront(h, m, replies[k].id);
        FedHolds(h[..m], replies[k], w.opens[i], w.outs[i], false);
        HoldsFront(w.outs[i], replies[k]);
      }
      forall k, i, c | 0 <= k < |replies| && 0 <= i < |w.opens|
                       && w.opens[i] == Open(replies[k].id, replies[k].packets)
                       && Streams.Pending(st) == Outcome(p, Senders(p, replies), refuses, picks).1.Sent()
                       && 0 <= c <= |turns| && AllHandled(p, dispatch, turns, h, replies[k], st, link, c, i)
        ensures Holds(w.outs[i], replies[k].packets, replies[k].ws, true)
      {
        HandledHolds(p, dispatch, turns, h, replies[k], st, link, c, i);
        LaterGrows(Client, p, dispatch, w0, BLANK, turns, c);
        HoldsStill(MuxServes.Run(Client, p, dispatch, w0, BLANK, turns[..c]).0.outs[i], w.outs[i], replies[k]);
      }
    }
  }

  lemma HoldsFront(l: Link, a: Reply)
    requires exists all :: Holds(l, a.packets, a.ws, all)
    ensures Holds(l, a.packets, a.ws, false)
  {
  }
}
