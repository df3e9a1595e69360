/** What becomes of outputs: one that has no session any more is closed, so that whoever reads from it comes
    to an end. */
module Closings {
  import opened Addresses
  import opened Bytes
  import opened Demux
  import opened Frames
  import opened Links
  import opened MuxReads
  import opened MuxServes
  import opened MuxWrites
  import opened Sessions
  import Streams

  /** Every output is that of a live session, or closed. */
  ghost predicate Tended(w: Worker) {
    |w.outs| == |w.opens| && forall i :: 0 <= i < |w.outs| ==> Live(w, i) || w.outs[i].closed
  }

  ghost predicate AllClosed(w: Worker) {
    forall i :: 0 <= i < |w.outs| ==> w.outs[i].closed
  }

  /** No output was opened under this id. */
  predicate Unused(w: Worker, id: uint16) {
    forall i :: 0 <= i < |w.opens| ==> w.opens[i].id != id
  }

  /** Only the link and the stream moved. */
  lemma QuietTends(w: Worker, w': Worker)
    requires Tended(w) && w'.outs == w.outs && w'.opens == w.opens && w'.table == w.table
    ensures Tended(w')
  {
  }

  lemma CloseTends(w: Worker, id: uint16, o: nat)
    requires Linked(w) && Distinct(w) && Tended(w) && o < |w.outs| && w.opens[o].id == id
    ensures Tended(CloseSession(w, id, o)) && CloseSession(w, id, o).outs[o].closed
  {
  }

  lemma FedTends(w: Worker, o: nat, l: Link)
    requires Tended(w) && o < |w.outs| && l.closed == w.outs[o].closed
    ensures Tended(w.(outs := w.outs[o := l]))
  {
  }

  lemma OpenTends(w: Worker, id: uint16, packets: bool, refuses: nat -> bool)
    requires Linked(w) && Tended(w) && !w.table.closed && Unused(w, id)
    ensures Tended(OpenSession(w, id, packets, refuses))
  {
    var w1 := OpenSession(w, id, packets, refuses);
    forall i | 0 <= i < |w1.outs| ensures Live(w1, i) || w1.outs[i].closed {
      assert i < |w.outs| ==> Live(w, i) || w.outs[i].closed;
    }
  }

  /** Whatever a frame says and whatever follows it on the stream: it leaves no output open without its
      session, as long as New frames come with ids of their own. */
  lemma HandleTends(role: Role, p: Parser, dispatch: Dispatcher, w: Worker, m: Metadata)
    requires Linked(w) && Distinct(w) && Tended(w)
    requires role == Server && m.status == NEW ==> !w.table.closed && Unused(w, m.id)
    ensures Tended(Handle(role, p, dispatch, w, m).0)
  {
    hide Copy, Tended, Linked, Distinct, CloseSession, OpenSession;
    QuietTends(w, w);
    if m.status == KEEP {
      KeepTends(p, w, m);
    } else if m.status == NEW && role == Server {
      NewTends(dispatch, w, m);
    } else {
      EndTends(w, m);
    }
  }

  lemma EndTends(w: Worker, m: Metadata)
    requires Linked(w) && Distinct(w) && Tended(w)
    ensures Tended(HandleEnd(w, m).0) && Tended(HandleKeepAlive(w, m).0)
  {
    hide Copy, Tended;
    var g := Get(w.table, m.id);
    if g.Some? {
      CloseTends(w, m.id, g.value.out);
      QuietTends(CloseSession(w, m.id, g.value.out), HandleEnd(w, m).0);
    } else {
      QuietTends(w, HandleEnd(w, m).0);
    }
    QuietTends(w, HandleKeepAlive(w, m).0);
  }

  lemma KeepTends(p: Parser, w: Worker, m: Metadata)
    requires Linked(w) && Distinct(w) && Tended(w)
    ensures Tended(HandleKeep(p, w, m).0)
  {
    hide Copy, CloseSession, Tended, CloseWriter;
    var g := Get(w.table, m.id);
    if !HasData(m.option) || g.None? {
      QuietTends(w, HandleKeep(p, w, m).0);
    } else {
      var s := g.value;
      var r0, out0 := NewReader(s.packets, w.stream), Some(w.outs[s.out]);
      CopyKeeps(r0, out0);
      var (r, out, e) := Copy(r0, out0);
      CopyKeeps(r, None);
      FedTends(w, s.out, out.value);
      var w1 := w.(outs := w.outs[s.out := out.value]);
      MovedLinked(w, w.stream, s.out, out.value);
      if e.WriteError? {
        var w2 := SendEnd(p, w1.(stream := StreamOf(r)), m.id, false).(stream := StreamOf(Copy(r, None).0));
        QuietTends(w1, w2);
        assert w2.outs == w1.outs && Linked(w2) && Distinct(w2) by { SameLinked(w1, w2); }
        CloseTends(w2, m.id, s.out);
      } else {
        QuietTends(w1, HandleKeep(p, w, m).0);
      }
    }
  }

  lemma SameLinked(w: Worker, w': Worker)
    requires Linked(w) && Distinct(w) && w' == w.(link := w'.link, stream := w'.stream) && w'.stream.end != NoError
    ensures Linked(w') && Distinct(w')
  {
  }

  lemma NewTends(dispatch: Dispatcher, w: Worker, m: Metadata)
    requires Linked(w) && Distinct(w) && Tended(w) && !w.table.closed && Unused(w, m.id)
    ensures Tended(HandleNew(Server, dispatch, w, m).0)
  {
    hide Copy, CloseSession, OpenSession, Tended;
    var w0 := w.(dispatched := w.dispatched + 1);
    QuietTends(w, w0);
    if dispatch(w.dispatched).None? {
      QuietTends(w0, HandleNew(Server, dispatch, w, m).0);
    } else {
      ServeTends(w0, m, dispatch(w.dispatched).value);
    }
  }

  lemma ServeTends(w: Worker, m: Metadata, refuses: nat -> bool)
    requires Linked(w) && Distinct(w) && Tended(w) && !w.table.closed && Unused(w, m.id)
    ensures Tended(Serve(w, m, refuses))
  {
    hide Copy, CloseSession, Tended;
    var packets, o := m.target.network == UDP, |w.outs|;
    Opened(w, m.id, packets, refuses);
    OpenTends(w, m.id, packets, refuses);
    var w1 := OpenSession(w, m.id, packets, refuses);
    if HasData(m.option) {
      var r0, out0 := NewReader(packets, w1.stream), Some(w1.outs[o]);
      CopyKeeps(r0, out0);
      var (r, out, e) := Copy(r0, out0);
      CopyKeeps(r, None);
      FedTends(w1, o, out.value);
      var w2 := w1.(outs := w1.outs[o := out.value]);
      MovedLinked(w1, w1.stream, o, out.value);
      if e.Done? {
        QuietTends(w2, Serve(w, m, refuses));
      } else {
        var w3 := w2.(stream := StreamOf(Copy(r, None).0));
        QuietTends(w2, w3);
        SameLinked(w2, w3);
        CloseTends(w3, m.id, o);
      }
    }
  }

  /** Nor do the sessions that are ended, opened or closed between frames; closing the table closes all. */
  lemma ApplyTends(p: Parser, w: Worker, e: Event)
    requires Linked(w) && Distinct(w) && Tended(w)
    requires e.Opens? && !w.table.closed ==> Unused(w, NextId(w))
    ensures Tended(Apply(p, w, e)) && AllClosed(CloseAll(w))
  {
    hide CloseWriter;
    match e
    case Ended(o, failed) =>
      if o < |w.outs| {
        var w1 := SendEnd(p, w, w.opens[o].id, failed);
        SameLinked(w, w1);
        QuietTends(w, w1);
        CloseTends(w1, w.opens[o].id, o);
      }
    case Opens(packets, refuses) =>
      if !w.table.closed {
        OpenTends(w, NextId(w), packets, refuses);
        assert Apply(p, w, e) == OpenSession(w, NextId(w), packets, refuses);
      }
    case Shut =>
  }

  // ---- Over whole runs ----

  lemma FrameTends(role: Role, p: Parser, dispatch: Dispatcher, w: Worker, m0: Metadata, f: Frame, rest: Bytes)
    requires Linked(w) && Distinct(w) && Tended(w) && WellFormed(p, f)
    requires At(w, w.stream.end, FrameBytes(p, f) + rest)
    requires role == Server && f.meta.status == NEW ==> !w.table.closed && Unused(w, f.meta.id)
    ensures Tended(HandleFrame(role, p, dispatch, w, m0).0)
  {
    hide Unmarshal, Handle, Ahead, FrameBytes, Tended, Linked, Distinct, At, WellFormed;
    assert w.stream.end != NoError by { LinkedEnds(w); }
    MetaStep(p, m0, w, f, rest);
    UnmarshalKeepsEnd(p, m0, w.stream);
    var (m, st, err) := Unmarshal(p, m0, w.stream);
    var w1 := w.(stream := st);
    SameLinked(w, w1);
    QuietTends(w, w1);
    HandleTends(role, p, dispatch, w1, m);
  }

  lemma LinkedEnds(w: Worker)
    requires Linked(w)
    ensures w.stream.end != NoError
  {
  }

  lemma {:induction false} EventsTend(role: Role, p: Parser, w: Worker, es: seq<Event>, h: seq<Frame>)
    requires Linked(w) && Sorted(role, w, h, true) && Announced(role, w, h) && Tended(w) && Timely(role, p, w, es, h)
    ensures Tended(ApplyAll(p, w, es))
    decreases |es|
  {
    hide Announced, Tended, Apply;
    if es != [] {
      assert Distinct(w);
      hide Sorted;
      EventSorts(role, p, w, es, h, true);
      ApplyTends(p, w, es[0]);
      EventsTend(role, p, Apply(p, w, es[0]), es[1..], h);
    }
  }

  /** Over any run on legal frames, with sessions that end in between, sessions opened by a client, and its
      table closed: an output without its session is closed, and when the loop has ended every output is. */
  lemma {:induction false} RunTends(role: Role, p: Parser, dispatch: Dispatcher, w: Worker, m0: Metadata,
                                    turns: seq<seq<Event>>, fs: seq<Frame>, h: seq<Frame>, tail: Bytes)
    requires Inv(role, w, h) && Tended(w) && (role == Server ==> !w.table.closed)
    requires |turns| <= |fs| && Legal(role, p, fs, h)
    requires Orderly(role, p, dispatch, w, m0, turns, fs, h)
    requires At(w, w.stream.end, Wire(p, fs) + tail)
    ensures var (w', n, err) := MuxServes.Run(role, p, dispatch, w, m0, turns);
            Tended(w') && (err != NoError ==> AllClosed(w'))
    decreases |turns|
  {
    hide Sorted, Announced, Legal, HandleFrame, FrameBytes, Timely, ApplyAll, Derails, Stops, Fresh, WellFormed, Tended,
         AllClosed, CloseAll;
    LegalEncodable(role, p, fs, h);
    if turns != [] {
      LegalTail(role, p, fs, h);
      LegalEncodable(role, p, fs[1..], h + [fs[0]]);
      EventsSort(role, p, w, turns[0], h, true);
      EventsTend(role, p, w, turns[0], h);
      ApplyAllLinked(p, w, turns[0]);
      var w1 := ApplyAll(p, w, turns[0]);
      HandleLinked(role, p, dispatch, w1, m0);
      var (w2, m, err) := HandleFrame(role, p, dispatch, w1, m0);
      var rest := Wire(p, fs[1..]) + tail;
      Streams.Glue(FrameBytes(p, fs[0]), Wire(p, fs[1..]), tail);
      FrameSorts(role, p, dispatch, w1, m0, h, fs[0], rest);
      NextFrameTends(role, p, dispatch, w1, m0, h, fs[0], rest);
      if err != NoError {
        ShutTends(p, w2, role, h + [fs[0]]);
      } else {
        TurnAligned(role, p, dispatch, w1, m0, fs[0], rest);
        assert fs[..1] == [fs[0]] && Min(|fs|, 1) == 1;
        RunTends(role, p, dispatch, w2, if role == Server then BLANK else m, turns[1..], fs[1..], h + [fs[0]], tail);
      }
    }
  }

  lemma NextFrameTends(role: Role, p: Parser, dispatch: Dispatcher, w: Worker, m0: Metadata, h: seq<Frame>, f: Frame,
                       rest: Bytes)
    requires Inv(role, w, h) && Tended(w) && (role == Server ==> !w.table.closed)
    requires WellFormed(p, f) && Fresh(role, h, f)
    requires At(w, w.stream.end, FrameBytes(p, f) + rest)
    ensures Tended(HandleFrame(role, p, dispatch, w, m0).0)
  {
    hide HandleFrame, Announced, FrameBytes, WellFormed, At, Tended;
    if role == Server && f.meta.status == NEW {
      UnseenUnopened(w, h, f.meta.id);
    }
    FrameTends(role, p, dispatch, w, m0, f, rest);
  }

  lemma ShutTends(p: Parser, w: Worker, role: Role, h: seq<Frame>)
    requires Linked(w) && Sorted(role, w, h, false) && Tended(w)
    ensures Tended(CloseAll(w)) && AllClosed(CloseAll(w))
  {
    assert Distinct(w);
    ApplyTends(p, w, Shut);
  }

  /** So once a server's connection has ended, however it did, all that was opened for its sessions is
      closed. */
  lemma ConnectionCloses(p: Parser, dispatch: Dispatcher, turns: seq<seq<Event>>, fs: seq<Frame>,
                         st: Streams.State, link: Link)
    requires Legal(Server, p, fs, []) && |turns| > |fs| && OnlyEnds(turns)
    requires st.end != NoError && Streams.Pending(st) == Wire(p, fs)
    ensures AllClosed(MuxServes.Run(Server, p, dispatch, Begin(st, link), BLANK, turns).0)
  {
    hide Legal, Orderly, MuxServes.Run, Wire, Streams.Pending, Tended, AllClosed, Sorted, Announced;
    var w0, a, b := Begin(st, link), turns[..|fs|], turns[|fs|..];
    assert a + b == turns;
    LegalEncodable(Server, p, fs, []);
    BeginInv(Server, st, link);
    BeginTends(st, link);
    EndsAreOrderly(p, dispatch, w0, BLANK, a, fs, []);
    assert Wire(p, fs) + [] == Wire(p, fs);
    RunTends(Server, p, dispatch, w0, BLANK, a, fs, [], []);
    RunSorts(Server, p, dispatch, w0, BLANK, a, fs, [], []);
    var (w1, n1, err1) := MuxServes.Run(Server, p, dispatch, w0, BLANK, a);
    if err1 == NoError {
      RunGoesOn(p, dispatch, w0, a, b);
      RunsDry(p, dispatch, a, fs, st, link);
      assert [] + fs[..n1] == fs[..n1];
      LastTurnTends(p, dispatch, w1, b, fs[..n1]);
    } else {
      RunStops(p, dispatch, w0, a, b);
    }
  }

  lemma BeginTends(st: Streams.State, link: Link)
    ensures Tended(Begin(st, link))
  {
  }

  lemma LastTurnTends(p: Parser, dispatch: Dispatcher, w: Worker, turns: seq<seq<Event>>, h: seq<Frame>)
    requires Inv(Server, w, h) && Tended(w) && Streams.Pending(w.stream) == [] && turns != [] && OnlyEnds(turns)
    ensures AllClosed(MuxServes.Run(Server, p, dispatch, w, BLANK, turns).0)
  {
    hide HandleFrame, Streams.Pending, Sorted, Announced, Tended, AllClosed, CloseAll;
    EndsAreTimely(p, w, turns[0], h);
    EventsSort(Server, p, w, turns[0], h, true);
    EventsTend(Server, p, w, turns[0], h);
    ApplyAllLinked(p, w, turns[0]);
    var w1 := ApplyAll(p, w, turns[0]);
    NothingToHandle(Server, p, dispatch, w1, BLANK);
    HandleLinked(Server, p, dispatch, w1, BLANK);
    NothingRead(p, dispatch, w1);
    assert Distinct(w1) by { SortedDistinct(Server, w1, h); }
    StillTended(p, w1, HandleFrame(Server, p, dispatch, w1, BLANK).0);
  }

  lemma NothingRead(p: Parser, dispatch: Dispatcher, w: Worker)
    requires Linked(w) && Streams.Pending(w.stream) == []
    ensures var w' := HandleFrame(Server, p, dispatch, w, BLANK).0;
            w' == w.(stream := w'.stream) && w'.stream.end == w.stream.end
  {
    hide Streams.Pending, Streams.ReadFull;
    Streams.ReadFullDelivers(w.stream, 2);
    UnmarshalKeepsEnd(p, BLANK, w.stream);
  }

  lemma StillTended(p: Parser, w: Worker, w': Worker)
    requires Linked(w) && Distinct(w) && Tended(w) && w' == w.(stream := w'.stream) && w'.stream.end != NoError
    ensures AllClosed(CloseAll(w'))
  {
    hide Tended, AllClosed, CloseAll;
    SameLinked(w, w');
    QuietTends(w, w');
    ApplyTends(p, w', Shut);
  }
}
