/** The goroutines of a session: handle of common/mux/server.go, and fetchInput of common/mux/client.go with
    the end of its session. */
module MuxSessions {
  import opened Addresses
  import opened Bytes
  import opened Frames
  import opened MuxInputs
  import opened MuxWorkers
  import opened MuxWriters
  import opened Readers
  import opened SessionManagers
  import MuxServes
  import MuxWrites
  import Notices

  /** A session of this worker; what its input hands out is not what the worker itself reads. */
  ghost predicate Belongs(m: MuxWorker, s: Session, input: Source)
    reads m
  {
    && s.parent == m.manager && s.index < |m.outs| == |m.opens| && m.outs[s.index] == s.output
    && m.opens[s.index].id == s.id && input != m.reader.reader
  }

  /** Only the link of the worker was written to. */
  twostate lemma OnlyLink(m: MuxWorker)
    requires old(m.Valid()) && unchanged(m) && unchanged(m.manager) && unchanged(m.reader) && unchanged(m.reader.reader)
    requires forall b :: b in m.reader.buffer ==> unchanged(b) && unchanged(b.v)
    requires forall i :: 0 <= i < |m.outs| ==> unchanged(m.outs[i])
    ensures m.Valid() && m.Model() == old(m.Model()).(link := m.link.Model())
  {
    m.reader.Untouched();
    assert OutsOf(m.outs) == old(OutsOf(m.outs));
  }

  lemma Apart(m: MuxWorker)
    requires m.Valid()
    ensures forall i :: 0 <= i < |m.outs| ==> m.outs[i] != m.link
    ensures |m.Model().outs| == |m.outs| && m.Model().opens == m.opens && m.Model().link == m.link.Model()
  {
  }

  /** Closing the writer and then the session is what the specification takes for its end. */
  lemma ClosingEnds(p: Parser, x: MuxServes.Worker, w: MuxWrites.Writer, o: nat, failed: bool)
    requires o < |x.outs| == |x.opens| && w.id == x.opens[o].id && w.hasError == failed
    ensures MuxServes.Apply(p, x, MuxServes.Ended(o, failed)) ==
              MuxServes.CloseSession(x.(link := MuxWrites.CloseWriter(p, w, x.link)), w.id, o)
  {
  }

  /** handle: the session's input is copied to a response writer, and when that is over, one way or the
      other, the session ends. */
  method Handle(m: MuxWorker, s: Session, input: Source)
    requires m.Valid() && Belongs(m, s, input) && input.Valid()
    modifies input, m.link, s.output`closed, s.input`closed, m.manager
    ensures m.Valid() && s.input.closed && MuxWrites.Writes(s.packets, Passed(old(input.segs)))
    ensures var w := MuxWrites.Writer(s.id, Destination(None, 0, Unknown), s.packets, true, false);
            var (w1, l, err) := MuxWrites.WriteAll(m.p, w, old(m.link.Model()), Passed(old(input.segs)));
            var failed := err != NoError || input.end != EOF;
            m.Model() == MuxServes.Apply(m.p, old(m.Model()).(link := l), MuxServes.Ended(s.index, failed))
    ensures var l, l' := old(m.link.Model()), m.link.Model();
            Notices.Ended(l, l', s.id, input.end != EOF || Notices.Refusal(l, l.calls, l'.calls - 1))
  {
    hide MuxWrites.WriteAll, Notices.Ended, Notices.Refusal, MuxServes.CloseSession, MuxWorker.Valid, MuxWorker.Model;
    Apart(m);
    ghost var x := m.Model();
    var w := new MuxWriter.Response(m.p, s.id, m.link, s.packets);
    PassedWrites(s.packets, input.segs);
    ghost var l := MuxWrites.WriteAll(m.p, w.Model(), m.link.Model(), Passed(input.segs)).1;
    Respond(input, w);
    OnlyLink(m);
    ClosingEnds(m.p, x.(link := l), w.Model(), s.index, w.hasError);
    m.CloseSession(s);
  }

  /** fetchInput, with the writer it makes for the session: when the copy is over the session is closed; if
      it failed, the session's input is interrupted. */
  method FetchSession(m: MuxWorker, s: Session, input: Source, dest: Destination, silent: bool)
    requires m.Valid() && Belongs(m, s, input) && input.Valid() && (s.packets <==> dest.network == UDP)
    requires MuxWrites.Usable(MuxWrites.Writer(s.id, dest, s.packets, false, false))
    modifies input, m.link, s.output`closed, s.input, m.manager
    ensures m.Valid() && s.input.closed && MuxWrites.Writes(s.packets, Given(silent, old(input.segs)))
    ensures var w := MuxWrites.Writer(s.id, dest, s.packets, false, false);
            var ws, broken := Given(silent, old(input.segs)), Broken(silent, old(input.segs), input.end);
            var l := MuxWrites.FetchInput(m.p, w, old(m.link.Model()), ws, broken);
            m.Model() == MuxServes.CloseSession(old(m.Model()).(link := l), s.id, s.index)
    ensures var w := MuxWrites.Writer(s.id, dest, s.packets, false, false);
            var l, l' := old(m.link.Model()), m.link.Model();
            var failed := Failing(m.p, w, l, l', silent, old(input.segs), input.end);
            && Notices.Ended(l, l', s.id, failed)
            && (s.input.interrupted <==> old(s.input.interrupted) || failed)
  {
    hide MuxWrites.FetchInput, MuxServes.CloseSession, MuxWorker.Valid, MuxWorker.Model, Failing, Notices.Ended;
    Apart(m);
    var w := new MuxWriter(m.p, s.id, dest, m.link, s.packets);
    var failed := MuxInputs.FetchInput(input, w, silent);
    OnlyLink(m);
    if failed {
      m.StopSession(s);
    } else {
      m.CloseSession(s);
    }
  }
}
