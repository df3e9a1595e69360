/** A connection from end to end: the clients' goroutines on a link they share, and the server's loop. */
module Connections {
  import opened Bytes
  import opened Addresses
  import opened Breaks
  import opened Demux
  import opened Delivery
  import opened Frames
  import opened Interleavings
  import opened Links
  import opened MuxWrites
  import opened MuxServes
  import opened Talks
  import Streams

  // ---- The clients ----

  /** fetchInput of a session: what it will be given to write, and whether its input fails in the end. */
  datatype Caller = Caller(s: Session, broken: bool)

  ghost predicate Callers(p: Parser, callers: seq<Caller>) {
    && Consistent(p) && (forall k :: 0 <= k < |callers| ==> Apt(p, callers[k].s))
    && forall k, l :: 0 <= k < l < |callers| ==> callers[k].s.id != callers[l].s.id
  }

  ghost function SenderOf(a: Caller): Sender
    requires Writes(a.s.dest.network == UDP, a.s.ws)
  {
    Sender(a.s.id, AllFrames(WriterOf(a.s), a.s.ws), a.broken)
  }

  lemma CallersWrite(p: Parser, callers: seq<Caller>)
    requires Callers(p, callers)
    ensures forall k :: 0 <= k < |callers| ==> Writes(callers[k].s.dest.network == UDP, callers[k].s.ws)
  {
  }

  ghost function Senders(p: Parser, callers: seq<Caller>): (team: seq<Sender>)
    requires Callers(p, callers)
    ensures |team| == |callers| && Team(p, team)
    ensures forall k :: 0 <= k < |callers| ==> team[k] == SenderOf(callers[k])
  {
    SendersFit(p, callers);
    seq(|callers|, k requires 0 <= k < |callers| => SenderOf(callers[k]))
  }

  lemma SendersFit(p: Parser, callers: seq<Caller>)
    requires Callers(p, callers)
    ensures forall k :: 0 <= k < |callers| ==> Fit(p, SenderOf(callers[k]))
  {
    CallersWrite(p, callers);
    hide AllFrames, Apt, WellFormed;
    forall k | 0 <= k < |callers| ensures Fit(p, SenderOf(callers[k])) {
      var s := callers[k].s;
      AllFramesTaken(p, s);
      AllFramesCarryAll(WriterOf(s), s.ws);
      var fs := AllFrames(WriterOf(s), s.ws);
      forall f | f in fs ensures Encodable(p, f) && f.meta.id == s.id && f.meta.status != END {
        var i :| 0 <= i < |fs| && fs[i] == f;
        assert Takes(p, s, fs[i], i == 0);
        TakenEncodable(p, s, fs[i], i == 0);
      }
    }
  }

  lemma TakenEncodable(p: Parser, s: Session, f: Frame, first: bool)
    requires Takes(p, s, f, first)
    ensures Encodable(p, f) && f.meta.id == s.id
  {
  }

  /** What a goroutine has put on the link. */
  function PlanOf(a: Caller, ph: Phase): Plan {
    Plan(a.s, ph.sent, if ph.Over? then ph.end else None)
  }

  function PlansOf(callers: seq<Caller>, phs: seq<Phase>): (plans: seq<Plan>)
    requires |phs| == |callers|
    ensures |plans| == |callers| && forall k :: 0 <= k < |callers| ==> plans[k] == PlanOf(callers[k], phs[k])
  {
    seq(|callers|, k requires 0 <= k < |callers| => PlanOf(callers[k], phs[k]))
  }

  lemma PlanSays(p: Parser, a: Caller, ph: Phase)
    requires Apt(p, a.s) && Able(p, SenderOf(a), ph)
    ensures Sound(p, PlanOf(a, ph)) && Sends(p, PlanOf(a, ph)) == Said(SenderOf(a), ph)
  {
  }

  lemma PlansSay(p: Parser, callers: seq<Caller>, phs: seq<Phase>)
    requires Callers(p, callers) && Under(p, Senders(p, callers), phs)
    ensures |phs| == |callers| && Fleet(p, PlansOf(callers, phs))
    ensures forall k :: 0 <= k < |callers| ==>
              Sends(p, PlansOf(callers, phs)[k]) == Said(Senders(p, callers)[k], phs[k])
  {
    CallersWrite(p, callers);
    hide Writes, Apt, Sound, Said, Sends, Fit, SenderOf;
    var team, plans := Senders(p, callers), PlansOf(callers, phs);
    forall k | 0 <= k < |callers| ensures Sound(p, plans[k]) && Sends(p, plans[k]) == Said(team[k], phs[k]) {
      PlanSays(p, callers[k], phs[k]);
    }
  }

  lemma PlanIds(p: Parser, callers: seq<Caller>, phs: seq<Phase>)
    requires Callers(p, callers) && |phs| == |callers|
    ensures forall k :: 0 <= k < |callers| ==> PlansOf(callers, phs)[k].s.id == Senders(p, callers)[k].id
  {
  }

  /** What the goroutines have put on the link is an interleaving of their plans. */
  lemma SpreadMerged(p: Parser, callers: seq<Caller>, phs: seq<Phase>, h: seq<Frame>, l0: Link, l: Link)
    requires Callers(p, callers) && Spread(p, Senders(p, callers), phs, h, false, l0, l)
    ensures |phs| == |callers| && Fleet(p, PlansOf(callers, phs)) && Merged(p, PlansOf(callers, phs), h)
  {
    PlansSay(p, callers, phs);
    PlanIds(p, callers, phs);
    var team, plans := Senders(p, callers), PlansOf(callers, phs);
    hide Select, Framed, Talked, Said, Sends, Under, Callers, Sound, Fleet, SenderOf, PlanOf;
    assert forall k :: 0 <= k < |plans| ==> Select(h, plans[k].s.id) == Sends(p, plans[k]);
    forall i | 0 <= i < |h| ensures Interleavings.Known(plans, h[i].meta.id) {
      var k :| 0 <= k < |team| && team[k].id == h[i].meta.id;
      assert plans[k].s.id == h[i].meta.id;
    }
  }

  // ---- The server ----

  /** The loop by itself is the loop with any number of uneventful turns, enough of them. */
  lemma QuietRun(p: Parser, dispatch: Dispatcher, w: Worker, n: nat)
    requires Linked(w) && n >= RunQuiet(Server, p, dispatch, w, BLANK).1
    ensures MuxServes.Run(Server, p, dispatch, w, BLANK, Quiet(n)) == RunQuiet(Server, p, dispatch, w, BLANK)
  {
    hide MuxServes.Run, RunQuiet;
    RunQuietIsRun(Server, p, dispatch, w, BLANK);
    var m := RunQuiet(Server, p, dispatch, w, BLANK).1;
    RunStops(p, dispatch, w, Quiet(m), Quiet(n - m));
    assert Quiet(m) + Quiet(n - m) == Quiet(n);
  }

  /** Some output was opened for the session, and it holds exactly what the session's writer was given. */
  ghost predicate Received(w: Worker, s: Session) {
    && |w.opens| == |w.outs|
    && exists i :: 0 <= i < |w.opens| && w.opens[i].id == s.id && Delivers(w.outs[i], s, true)
  }

  /** The server's loop on any front part of the bytes of an interleaving, cut off anywhere, whatever ends
      sessions and refuses writes meanwhile: every output holds a front part of what its session's writer
      was given, and the loop takes at most one turn more than there are frames; then its table is closed. */
  lemma FrontParts(p: Parser, dispatch: Dispatcher, plans: seq<Plan>, h: seq<Frame>, turns: seq<seq<Event>>,
                   st: Streams.State, link: Link)
    requires Fleet(p, plans) && Merged(p, plans, h) && OnlyEnds(turns)
    requires st.end != NoError && Streams.Pending(st) <= Traffic(p, plans, h)
    ensures var (w, n, err) := MuxServes.Run(Server, p, dispatch, Begin(st, link), BLANK, turns);
            && |w.opens| == |w.outs| && (if err == NoError then |turns| <= |h| else w.table.closed)
            && forall k, i :: 0 <= k < |plans| && 0 <= i < |w.opens| && w.opens[i].id == plans[k].s.id ==>
                 Delivers(w.outs[i], plans[k].s, false)
  {
    hide MuxServes.Run, Wire, Streams.Pending, Delivers, Speaks, Merged, Legal, Fed, Announced, Orderly;
    var w0 := Begin(st, link);
    BeginInv(Server, st, link);
    MergedLegal(p, plans, h);
    LegalEncodable(Server, p, h, []);
    EndsAreOrderly(p, dispatch, w0, BLANK, turns, h, []);
    var m := RunFronts(Server, p, dispatch, w0, BLANK, turns, h, []);
    StoppedIsClosed(Server, p, dispatch, w0, BLANK, turns);
    assert [] + h[..m] == h[..m];
    var w := MuxServes.Run(Server, p, dispatch, w0, BLANK, turns).0;
    forall k, i | 0 <= k < |plans| && 0 <= i < |w.opens| && w.opens[i].id == plans[k].s.id
      ensures Delivers(w.outs[i], plans[k].s, false)
    {
      FrontOfOrder(p, plans, h, m, k);
      var j: nat :| Speaks(h[..m], plans[k].s, j);
      SortedDelivers(w, h[..m], plans[k].s, j, i, false);
    }
  }

  /** If the dispatcher serves everyone and nothing else happens, the loop stops at the end of the
      connection and not before, and every session whose frames are all there was received. */
  lemma GentleServer(p: Parser, dispatch: Dispatcher, plans: seq<Plan>, h: seq<Frame>, st: Streams.State, link: Link,
                     n: nat)
    requires Fleet(p, plans) && Merged(p, plans, h) && Gentle(dispatch) && n > |h|
    requires st.end != NoError && Streams.Pending(st) == Traffic(p, plans, h)
    ensures var (w, m, err) := MuxServes.Run(Server, p, dispatch, Begin(st, link), BLANK, Quiet(n));
            && err == st.end
            && forall k :: 0 <= k < |plans| && 0 < plans[k].cut == |AllFrames(WriterOf(plans[k].s), plans[k].s.ws)| ==>
                 Received(w, plans[k].s)
  {
    hide Legal, MuxServes.Run, Wire, Streams.Pending, Delivers, Speaks, Merged, Undisturbed, Gentle, Tame, Inv, Live;
    var w0 := Begin(st, link);
    BeginInv(Server, st, link);
    assert Quiet(n)[..|h|] == Quiet(|h|);
    MergedLegal(p, plans, h);
    MergedTame(p, plans, h);
    LegalEncodable(Server, p, h, []);
    assert [] + h == h && Wire(p, h) + [] == Wire(p, h);
    AllServed(p, dispatch, w0, Quiet(|h|), h, [], []);
    ManySessionsToTheEnd(p, dispatch, plans, h, Quiet(n), st, link);
    forall k | 0 <= k < |plans| && 0 < plans[k].cut == |AllFrames(WriterOf(plans[k].s), plans[k].s.ws)|
      ensures Received(MuxServes.Run(Server, p, dispatch, w0, BLANK, Quiet(n)).0, plans[k].s)
    {
      assert Linked(w0) by { BeginLinked(st, link); }
      QuietUndisturbed(p, dispatch, w0, |h|, h, plans[k].s.id);
      UndisturbedSession(p, dispatch, plans, h, Quiet(n), st, link, k);
    }
  }

  lemma BeginLinked(st: Streams.State, link: Link)
    requires st.end != NoError
    ensures Linked(Begin(st, link))
  {
  }

  // ---- Both ends ----

  /** The frames that the goroutines put on a new link, and how far each of them came. */
  lemma WhatTheySaid(p: Parser, callers: seq<Caller>, refuses: nat -> bool, picks: seq<Pick>) returns (h: seq<Frame>)
    requires Callers(p, callers) && NoStrays(picks)
    ensures var (phs, l) := Outcome(p, Senders(p, callers), refuses, picks);
            && |phs| == |callers| && Fleet(p, PlansOf(callers, phs)) && Merged(p, PlansOf(callers, phs), h)
            && AllEncodable(p, h) && l.writes == Framed(p, h) && l.Sent() == Traffic(p, PlansOf(callers, phs), h)
  {
    hide Merged, Framed, Talk, Wire, Apt, Act, Spread;
    var team, l0 := Senders(p, callers), Link([], 0, false, refuses);
    NothingSpread(p, team, false, l0);
    h := TalkSpreads(p, team, Waiting(team), [], false, l0, l0, picks);
    var (phs, l) := Outcome(p, team, refuses, picks);
    SpreadWrites(p, team, phs, h, l0, l);
    SpreadMerged(p, callers, phs, h, l0, l);
    LinkCarriesFrames(p, h);
  }

  lemma SpreadWrites(p: Parser, team: seq<Sender>, phs: seq<Phase>, h: seq<Frame>, l0: Link, l: Link)
    requires Spread(p, team, phs, h, false, l0, l) && l0.writes == []
    ensures AllEncodable(p, h) && l.writes == Framed(p, h)
  {
  }

  /** From end to end. Any number of sessions' goroutines write to a link in any order, whatever it
      refuses; the server's loop reads what the link took, cut up in any way, until the connection ends or
      breaks, between frames or within one; meanwhile its sessions' goroutines end when they will, and its
      outputs refuse what they will. Then every output it opened holds a front part of exactly what its
      session was given to write, and nothing of another's; and the loop is over at the latest a turn after
      the last frame. When the whole of the traffic has come in and no frame stopped the loop, every session
      whose writes the link took, and that nothing disturbed, has an output that holds all of it, packets
      whole. */
  lemma EndToEnd(p: Parser, dispatch: Dispatcher, callers: seq<Caller>, refuses: nat -> bool, picks: seq<Pick>,
                 turns: seq<seq<Event>>, st: Streams.State, link: Link)
    returns (h: seq<Frame>)
    requires Callers(p, callers) && NoStrays(picks) && OnlyEnds(turns) && st.end != NoError
    requires Streams.Pending(st) <= Outcome(p, Senders(p, callers), refuses, picks).1.Sent()
    ensures AllEncodable(p, h) && Outcome(p, Senders(p, callers), refuses, picks).1.writes == Framed(p, h)
    ensures var (w, n, err) := MuxServes.Run(Server, p, dispatch, Begin(st, link), BLANK, turns);
            && |w.opens| == |w.outs| && (if err == NoError then |turns| <= |h| else w.table.closed)
            && forall k, i :: 0 <= k < |callers| && 0 <= i < |w.opens| && w.opens[i].id == callers[k].s.id ==>
                 Delivers(w.outs[i], callers[k].s, false)
    ensures Streams.Pending(st) == Outcome(p, Senders(p, callers), refuses, picks).1.Sent() && |turns| > |h|
            && MuxServes.Run(Server, p, dispatch, Begin(st, link), BLANK, turns[..|h|]).2 == NoError ==>
              forall k | 0 <= k < |callers| ::
                0 < Outcome(p, Senders(p, callers), refuses, picks).0[k].sent == |SenderOf(callers[k]).frames|
                && Undisturbed(p, dispatch, Begin(st, link), BLANK, turns[..|h|], h, callers[k].s.id) ==>
                  Received(MuxServes.Run(Server, p, dispatch, Begin(st, link), BLANK, turns).0, callers[k].s)
  {
    hide Merged, Framed, MuxServes.Run, Streams.Pending, Talk, Wire, Apt, Act, Delivers, Undisturbed, Writes;
    CallersWrite(p, callers);
    h := WhatTheySaid(p, callers, refuses, picks);
    var phs, l := Outcome(p, Senders(p, callers), refuses, picks).0, Outcome(p, Senders(p, callers), refuses, picks).1;
    var plans := PlansOf(callers, phs);
    FrontParts(p, dispatch, plans, h, turns, st, link);
    PlansAre(callers, phs);
    forall k | 0 <= k < |callers| && Streams.Pending(st) == l.Sent() && |turns| > |h|
               && MuxServes.Run(Server, p, dispatch, Begin(st, link), BLANK, turns[..|h|]).2 == NoError
               && 0 < phs[k].sent == |SenderOf(callers[k]).frames|
               && Undisturbed(p, dispatch, Begin(st, link), BLANK, turns[..|h|], h, callers[k].s.id)
      ensures Received(MuxServes.Run(Server, p, dispatch, Begin(st, link), BLANK, turns).0, callers[k].s)
    {
      UndisturbedSession(p, dispatch, plans, h, turns, st, link, k);
    }
  }

  lemma PlansAre(callers: seq<Caller>, phs: seq<Phase>)
    requires |phs| == |callers|
    ensures var plans := PlansOf(callers, phs);
            forall k :: 0 <= k < |callers| ==> plans[k].s == callers[k].s && plans[k].cut == phs[k].sent
  {
  }

  /** With a dispatcher that serves everyone, and sessions that none of the server's goroutines ends, the
      loop runs to the end of the connection, and every session whose writes the link took was received. */
  lemma QuietEndToEnd(p: Parser, dispatch: Dispatcher, callers: seq<Caller>, refuses: nat -> bool, picks: seq<Pick>,
                      st: Streams.State, link: Link)
    requires Callers(p, callers) && NoStrays(picks) && st.end != NoError && Gentle(dispatch)
    requires Streams.Pending(st) == Outcome(p, Senders(p, callers), refuses, picks).1.Sent()
    ensures var (w, n, err) := RunQuiet(Server, p, dispatch, Begin(st, link), BLANK);
            && err == st.end && w.table.closed
            && forall k | 0 <= k < |callers| ::
                 0 < Outcome(p, Senders(p, callers), refuses, picks).0[k].sent == |SenderOf(callers[k]).frames| ==>
                   Received(w, callers[k].s)
  {
    hide Merged, Framed, MuxServes.Run, RunQuiet, Streams.Pending, Gentle, Talk, Wire, Received, Apt, Act, Delivers;
    var h := WhatTheySaid(p, callers, refuses, picks);
    var phs := Outcome(p, Senders(p, callers), refuses, picks).0;
    var plans := PlansOf(callers, phs);
    PlansAre(callers, phs);
    CallersWrite(p, callers);
    var w0 := Begin(st, link);
    assert Linked(w0) by { BeginLinked(st, link); }
    RunQuietIsRun(Server, p, dispatch, w0, BLANK);
    var n := RunQuiet(Server, p, dispatch, w0, BLANK).1 + |h| + 1;
    QuietRun(p, dispatch, w0, n);
    StoppedIsClosed(Server, p, dispatch, w0, BLANK, Quiet(n));
    GentleServer(p, dispatch, plans, h, st, link, n);
  }
}
