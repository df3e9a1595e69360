/** common/mux/server.go, and the receiving half of common/mux/client.go: the worker at one end of a
    connection. */
module MuxWorkers {
  import opened Bytes
  import opened MultiBuffers
  import opened Addresses
  import opened FrameRecords
  import opened MuxReaders
  import opened MuxWriters
  import opened MuxServes
  import opened Readers
  import opened SessionManagers
  import opened Writers
  import Frames
  import Links
  import MuxReads
  import MuxWrites
  import Sessions
  import Streams

  /** The sessions of a table, as the specification has them. */
  ghost function TableOf(t: Sessions.Table<Session>): Sessions.Table<Sess> {
    Sessions.Table(map k | k in t.live :: Sess(t.live[k].packets, t.live[k].index), t.count, t.closed)
  }

  ghost function OutsOf(outs: seq<Sink>): (ls: seq<Links.Link>)
    reads outs
    ensures |ls| == |outs| && forall i :: 0 <= i < |outs| ==> ls[i] == outs[i].Model()
  {
    seq(|outs|, i requires 0 <= i < |outs| reads outs => outs[i].Model())
  }

  /** Every session of the table is this worker's, and has the output it says it has. */
  ghost predicate Housed(t: Sessions.Table<Session>, manager: SessionManager, outs: seq<Sink>, opens: seq<Open>,
                         ins: set<Input>)
  {
    && |outs| == |opens| && Sessions.Settled(t)
    && (forall i, j :: 0 <= i < j < |outs| ==> outs[i] != outs[j])
    && forall k :: k in t.live ==>
         var s := t.live[k];
         s.id == k && s.parent == manager && s.input in ins && s.index < |outs| && outs[s.index] == s.output &&
         opens[s.index] == Open(k, s.packets)
  }

  lemma OutputIsOwn(t: Sessions.Table<Session>, manager: SessionManager, outs: seq<Sink>, opens: seq<Open>,
                    ins: set<Input>, s: Session?, i: nat)
    requires Housed(t, manager, outs, opens, ins) && i < |outs|
    requires s != null ==> s.index < |outs| && outs[s.index] == s.output && i != s.index
    ensures s != null ==> outs[i] != s.output
  {
  }

  lemma TableRemove(t: Sessions.Table<Session>, id: uint16)
    ensures TableOf(Sessions.Remove(t, id)) == Sessions.Remove(TableOf(t), id)
  {
  }

  lemma TableAdd(t: Sessions.Table<Session>, s: Session)
    ensures TableOf(Sessions.Add(t, s.id, s)) == Sessions.Add(TableOf(t), s.id, Sess(s.packets, s.index))
  {
  }

  /** A new session with an output of its own. */
  lemma HousedAdd(t: Sessions.Table<Session>, manager: SessionManager, outs: seq<Sink>, opens: seq<Open>,
                  ins: set<Input>, s: Session)
    requires Housed(t, manager, outs, opens, ins) && s.parent == manager && s.index == |outs| && s.output !in outs
    ensures Housed(Sessions.Add(t, s.id, s), manager, outs + [s.output], opens + [Open(s.id, s.packets)],
                   ins + {s.input})
  {
    forall i, j | 0 <= i < j < |outs| + 1 ensures (outs + [s.output])[i] != (outs + [s.output])[j] {
      assert i < |outs| && outs[i] in outs;
    }
  }

  lemma HousedClose(t: Sessions.Table<Session>, manager: SessionManager, outs: seq<Sink>, opens: seq<Open>,
                    ins: set<Input>)
    requires Housed(t, manager, outs, opens, ins)
    ensures Housed(Sessions.Close(t), manager, outs, opens, ins)
    ensures TableOf(Sessions.Close(t)) == Sessions.Close(TableOf(t))
  {
  }

  lemma ClosedAll(w: Worker, ls: seq<Links.Link>)
    requires |w.outs| == |w.opens| == |ls|
    requires forall i :: 0 <= i < |ls| ==>
               var live := w.opens[i].id in w.table.live && w.table.live[w.opens[i].id].out == i;
               ls[i] == w.outs[i].(closed := w.outs[i].closed || live)
    ensures MuxServes.CloseAll(w) == w.(table := Sessions.Close(w.table), outs := ls)
  {
    assert MuxServes.CloseAll(w).outs == ls;
  }

  lemma GoneAfter(w: Worker, id: uint16, o: nat)
    requires Linked(w) && o < |w.outs|
    ensures id !in MuxServes.CloseSession(w, id, o).table.live
  {
  }

  class MuxWorker {
    const role: Role
    const p: Parser
    const dispatch: Dispatcher
    const manager: SessionManager
    const link: Sink
    const reader: BufferedReader
    var dispatched: nat
    ghost var outs: seq<Sink>
    ghost var opens: seq<Open>
    ghost var ins: set<Input>

    ghost predicate Valid()
      reads this, manager, reader, reader.reader, reader.buffer
    {
      reader.Valid() && link !in outs && Housed(manager.Table(), manager, outs, opens, ins)
    }

    ghost function Repr(): set<object>
      reads this, reader
    {
      {this, manager, link} + Ends() + reader.Repr()
    }

    /** The outputs and inputs of all sessions there ever were. */
    ghost function Ends(): set<object>
      reads this
    {
      (set o: object | o in outs) + (set i: object | i in ins)
    }

    /** The outputs and inputs there are were there before, or are new. */
    twostate predicate Grown()
      reads this
    {
      forall o :: o in Ends() ==> o in old(Ends()) || fresh(o)
    }

    ghost function Model(): (w: Worker)
      requires Valid()
      reads this, manager, link, outs, reader, reader.reader, reader.buffer, Arrays(reader.buffer)
      ensures Linked(w)
    {
      Worker(TableOf(manager.Table()), OutsOf(outs), opens, dispatched, link.Model(), reader.Model())
    }

    constructor (role: Role, p: Parser, dispatch: Dispatcher, link: Sink, reader: BufferedReader)
      requires reader.Valid()
      ensures Valid() && this.role == role && this.p == p && this.dispatch == dispatch
      ensures this.link == link && this.reader == reader && fresh(manager)
      ensures Model() == Worker(Sessions.Empty(), [], [], 0, link.Model(), reader.Model())
    {
      this.role, this.p, this.dispatch, this.link, this.reader := role, p, dispatch, link, reader;
      manager := new SessionManager();
      dispatched, outs, opens, ins := 0, [], [], {};
    }

    /** buf.Copy, from a reader of this frame's data to the output of a session or to buf.Discard. */
    method CopyTo(r: FrameReader, s: Session?) returns (e: MuxReads.Ended)
      requires Valid() && r.Valid() && r.Reader() == reader
      requires s != null ==> s.index < |outs| && outs[s.index] == s.output
      modifies r.Owns(), if s == null then {} else {s.output}
      ensures Valid() && r.Valid() && reader.Renewed() && fresh(r.Owns() - old(r.Owns()))
      ensures outs == old(outs) && ins == old(ins)
      ensures manager.Table() == old(manager.Table())
      ensures s != null ==> s.input.closed == old(s.input.closed) && s.input.interrupted == old(s.input.interrupted)
      ensures var out := if s == null then None else Some(old(Model()).outs[s.index]);
              var (r', out', e') := MuxReads.Copy(old(r.Model()), out);
              && r.Model() == r' && e == e' && out'.Some? == out.Some?
              && Model() == old(Model()).(
                   stream := MuxReads.StreamOf(r'),
                   outs := if s == null then old(Model()).outs else old(Model()).outs[s.index := out'.value])
    {
      hide MuxReads.Copy, Payloads, Flat, Housed, TableOf, FrameReader.Owns;
      OwnsApart(r);
      var out: Sink? := if s == null then null else s.output;
      ghost var before := OutsOf(outs);
      ghost var r0, out0 := r.Model(), Target(out);
      ModelStream(r);
      MuxReads.CopyKeeps(r0, out0);
      forall i | 0 <= i < |outs| && (s == null || i != s.index) ensures outs[i] != out {
        OutputIsOwn(manager.Table(), manager, outs, opens, ins, s, i);
      }
      e := MuxReaders.Copy(r, out);
      assert manager.Table() == old(manager.Table()) && outs == old(outs);
      ModelStream(r);
      assert forall i :: 0 <= i < |outs| && (s == null || i != s.index) ==> outs[i].Model() == before[i];
    }

    /** Nothing else of the worker's is the frame reader's. */
    lemma OwnsApart(r: FrameReader)
      ensures this !in r.Owns() && manager !in r.Owns() && link !in r.Owns()
      ensures forall i: Input :: i !in r.Owns()
      ensures forall i :: 0 <= i < |outs| ==> outs[i] !in r.Owns()
    {
    }

    lemma ModelStream(r: FrameReader)
      requires r.Valid() && r.Reader() == reader
      ensures reader.Valid() && MuxReads.StreamOf(r.Model()) == reader.Model()
    {
    }

    /** Tell the other end that a session is over. */
    method SendEnd(id: uint16, failed: bool)
      requires Valid()
      modifies link
      ensures Valid() && Model() == MuxServes.SendEnd(p, old(Model()), id, failed)
      ensures outs == old(outs) && ins == old(ins)
    {
      hide Payloads, Housed, MuxWrites.CloseWriter;
      var w := new MuxWriter.Response(p, id, link, false);
      w.hasError := failed;
      w.Close();
      reader.Untouched();
    }

    /** Copy the data of a frame to buf.Discard. */
    method Discard() returns (err: Error)
      requires Valid()
      modifies reader.Repr()
      ensures Valid() && reader.Renewed() && outs == old(outs) && ins == old(ins)
      ensures (Model(), err) == MuxServes.Discard(old(Model()))
    {
      hide MuxReads.Copy, Payloads, Housed, FrameReader.Owns;
      var r := NewReader(false, reader);
      var e := CopyTo(r, null);
      err := MuxReads.Result(e);
    }

    /** Session.Close. */
    method CloseSession(s: Session)
      requires Valid() && s.parent == manager && s.index < |outs| && outs[s.index] == s.output
      modifies s.output`closed, s.input`closed, manager
      ensures Valid() && Model() == MuxServes.CloseSession(old(Model()), s.id, s.index)
      ensures outs == old(outs) && ins == old(ins) && s.input.closed
    {
      hide Payloads, TableOf;
      ghost var before, t := OutsOf(outs), manager.Table();
      s.Close();
      reader.Untouched();
      assert forall i :: 0 <= i < |outs| && i != s.index ==> outs[i].Model() == before[i];
      assert OutsOf(outs) == before[s.index := Links.Close(before[s.index])];
      TableRemove(t, s.id);
    }

    /** Its input is interrupted first. */
    method StopSession(s: Session)
      requires Valid() && s.parent == manager && s.index < |outs| && outs[s.index] == s.output
      modifies s.output`closed, s.input, manager
      ensures Valid() && Model() == MuxServes.CloseSession(old(Model()), s.id, s.index)
      ensures outs == old(outs) && ins == old(ins) && s.input.closed && s.input.interrupted
    {
      hide Payloads, Housed, TableOf, MuxServes.CloseSession;
      s.input.Interrupt();
      reader.Untouched();
      CloseSession(s);
    }

    method HandleKeepAlive(m: Frames.Metadata) returns (err: Error)
      requires Valid()
      modifies reader.Repr()
      ensures Valid() && reader.Renewed() && outs == old(outs) && ins == old(ins)
      ensures (Model(), err) == MuxServes.HandleKeepAlive(old(Model()), m)
    {
      hide MuxServes.Discard, Payloads, Housed;
      err := NoError;
      if Frames.HasData(m.option) {
        err := Discard();
      } else {
        reader.Untouched();
      }
    }

    /** The session under an id, and its place in the model. */
    method Find(id: uint16) returns (s: Option<Session>)
      requires Valid()
      ensures Valid() && Model() == old(Model()) && s == Sessions.Get(manager.Table(), id)
      ensures match s
              case None => Sessions.Get(Model().table, id) == None
              case Some(x) =>
                && Sessions.Get(Model().table, id) == Some(Sess(x.packets, x.index)) && x.id == id
                && x.parent == manager && x.index < |outs| && outs[x.index] == x.output && x.input in ins
    {
      hide Payloads;
      s := manager.Get(id);
      reader.Untouched();
    }

    method HandleKeep(m: Frames.Metadata) returns (err: Error)
      requires Valid()
      modifies Repr()
      ensures Valid() && reader.Renewed() && outs == old(outs) && ins == old(ins)
      ensures (Model(), err) == MuxServes.HandleKeep(p, old(Model()), m)
      ensures var was := old(Sessions.Get(manager.Table(), m.id));
              was.Some? ==>
                var i := was.value.input;
                if m.id in manager.sessions
                then i.closed == old(was.value.input.closed) && i.interrupted == old(was.value.input.interrupted)
                else i.closed && i.interrupted
    {
      hide MuxReads.Copy, MuxServes.Discard, MuxServes.SendEnd, MuxServes.CloseSession, Payloads, Housed;
      if !Frames.HasData(m.option) {
        reader.Untouched();
        return NoError;
      }
      var found := Find(m.id);
      if found.None? {
        SendEnd(m.id, false);
        err := Discard();
        return;
      }
      err := Supply(found.value);
    }

    /** Copy the data of a frame to the output of its session. */
    method Supply(s: Session) returns (err: Error)
      requires Valid() && s.parent == manager && s.index < |outs| && outs[s.index] == s.output && s.input in ins
      requires s.id in manager.sessions
      modifies Repr()
      ensures Valid() && reader.Renewed() && outs == old(outs) && ins == old(ins)
      ensures var w := old(Model());
              var (r, out, e) := MuxReads.Copy(MuxReads.NewReader(s.packets, w.stream), Some(w.outs[s.index]));
              && out.Some? && MuxReads.StreamOf(r).end != NoError
              && var w1 := w.(stream := MuxReads.StreamOf(r), outs := w.outs[s.index := out.value]);
                 var (r2, out2, e2) := MuxReads.Copy(r, None);
                 (Model(), err) ==
                   if !e.WriteError? then (w1, MuxReads.Result(e))
                   else
                     var w2 := MuxServes.SendEnd(p, w1, s.id, false).(stream := MuxReads.StreamOf(r2));
                     (MuxServes.CloseSession(w2, s.id, s.index), MuxReads.Result(e2))
      ensures if s.id in manager.sessions
              then s.input.closed == old(s.input.closed) && s.input.interrupted == old(s.input.interrupted)
              else s.input.closed && s.input.interrupted
    {
      hide MuxReads.Copy, MuxServes.SendEnd, MuxServes.CloseSession, Payloads, Housed, FrameReader.Owns;
      var r := NewReader(s.packets, reader);
      MuxReads.CopyKeeps(r.Model(), Some(Model().outs[s.index]));
      var e := CopyTo(r, s);
      err := MuxReads.Result(e);
      if e.WriteError? {
        err := Drop(r, s);
      }
    }

    /** The session's output failed: tell the other end, find the end of the frame, close the session. */
    method Drop(r: FrameReader, s: Session) returns (err: Error)
      requires Valid() && r.Valid() && r.Reader() == reader
      requires s.parent == manager && s.index < |outs| && outs[s.index] == s.output
      modifies r.Owns(), link, s.output, s.input, manager
      ensures Valid() && reader.Renewed() && outs == old(outs) && ins == old(ins)
      ensures s.input.closed && s.input.interrupted && s.id !in manager.sessions
      ensures var (r', out, e) := MuxReads.Copy(old(r.Model()), None);
              && err == MuxReads.Result(e)
              && Model() == MuxServes.CloseSession(
                   MuxServes.SendEnd(p, old(Model()), s.id, false).(stream := MuxReads.StreamOf(r')), s.id, s.index)
    {
      hide MuxReads.Copy, MuxServes.SendEnd, MuxServes.CloseSession, Payloads, Housed, FrameReader.Owns;
      OwnsApart(r);
      ghost var r0 := r.Model();
      SendEnd(s.id, false);
      assert r.Model() == r0;
      var e := CopyTo(r, null);
      err := MuxReads.Result(e);
      GoneAfter(Model(), s.id, s.index);
      StopSession(s);
    }

    /** End the session that an End frame names; if it says so because of an error, its input is stopped. */
    method EndSession(m: Frames.Metadata) returns (ended: Option<Session>)
      requires Valid()
      modifies manager, Ends()
      ensures Valid() && outs == old(outs) && ins == old(ins)
      ensures ended == old(Sessions.Get(manager.Table(), m.id))
      ensures match ended
              case None => Sessions.Get(old(Model()).table, m.id) == None && Model() == old(Model())
              case Some(s) =>
                && Sessions.Get(old(Model()).table, m.id) == Some(Sess(s.packets, s.index)) && s.index < |outs|
                && Model() == MuxServes.CloseSession(old(Model()), m.id, s.index)
                && s.input.closed && (s.input.interrupted <==> old(s.input.interrupted) || Frames.HasError(m.option))
    {
      hide MuxServes.CloseSession, Payloads, Housed, TableOf;
      ended := Find(m.id);
      if ended.Some? {
        if Frames.HasError(m.option) {
          StopSession(ended.value);
        } else {
          CloseSession(ended.value);
        }
      }
    }

    /** handleStatusEnd: an error stops the session's input before it is closed. */
    method HandleEnd(m: Frames.Metadata) returns (err: Error)
      requires Valid()
      modifies Repr()
      ensures Valid() && reader.Renewed() && outs == old(outs) && ins == old(ins)
      ensures (Model(), err) == MuxServes.HandleEnd(old(Model()), m)
      ensures var was := old(Sessions.Get(manager.Table(), m.id));
              was.Some? ==>
                var i := was.value.input;
                i.closed && (i.interrupted <==> old(was.value.input.interrupted) || Frames.HasError(m.option))
    {
      hide MuxServes.Discard, MuxServes.CloseSession, Payloads, Housed, TableOf, BufferedReader.Repr;
      var ended := EndSession(m);
      ReaderApart();
      err := HandleKeepAlive(m);
    }

    method MakeSession(id: uint16, packets: bool, refuses: nat -> bool, ghost index: nat) returns (s: Session)
      ensures fresh(s) && fresh(s.output) && fresh(s.input) && s.output.Model() == Links.Link([], 0, false, refuses)
      ensures s.parent == manager && s.index == index && s.id == id && s.packets == packets
    {
      var output := new Sink(refuses, false);
      var input := new Input();
      s := new Session(id, packets, input, output, manager, index);
    }

    /** A session for a New frame, with an input and an output of its own. */
    method OpenSession(id: uint16, packets: bool, refuses: nat -> bool) returns (s: Session)
      requires Valid()
      modifies this, manager
      ensures Valid() && fresh(s.output) && outs == old(outs) + [s.output]
      ensures fresh(s.input) && ins == old(ins) + {s.input}
      ensures s.parent == manager && s.index == |old(outs)| && s.id == id && s.packets == packets
      ensures Model() == MuxServes.OpenSession(old(Model()), id, packets, refuses)
    {
      hide Payloads, TableOf, Housed;
      ghost var w, t, before := Model(), manager.Table(), outs;
      s := MakeSession(id, packets, refuses, |outs|);
      HousedAdd(t, manager, outs, opens, ins, s);
      manager.Add(s);
      outs, opens, ins := outs + [s.output], opens + [Open(id, packets)], ins + {s.input};
      reader.Untouched();
      assert forall i :: 0 <= i < |before| ==> before[i].Model() == w.outs[i];
      assert OutsOf(outs) == w.outs + [Links.Link([], 0, false, refuses)];
      TableAdd(t, s);
    }

    /** Ask the dispatcher for an output. */
    method Dispatch() returns (served: Option<nat -> bool>)
      requires Valid()
      modifies `dispatched
      ensures Valid() && served == dispatch(old(dispatched))
      ensures Model() == old(Model()).(dispatched := old(Model()).dispatched + 1) && Ends() == old(Ends())
    {
      hide Payloads, Housed, TableOf;
      served := dispatch(dispatched);
      dispatched := dispatched + 1;
      reader.Untouched();
    }

    /** handleStatusNew of the server. */
    method HandleNew(m: Frames.Metadata) returns (err: Error)
      requires Valid() && role == Server
      modifies Repr()
      ensures Valid() && reader.Renewed() && Grown()
      ensures (Model(), err) == MuxServes.HandleNew(Server, dispatch, old(Model()), m)
    {
      hide MuxServes.Discard, MuxServes.Serve, Payloads, Housed, TableOf, BufferedReader.Repr, Ends;
      var served := Dispatch();
      if served.Some? {
        Serve(m, served.value);
        err := NoError;
      } else {
        Pass(m);
        err := Failure("failed to dispatch request");
      }
    }

    /** The data of a frame that nobody will take is discarded; a failure is not reported. */
    method Pass(m: Frames.Metadata)
      requires Valid()
      modifies reader.Repr()
      ensures Valid() && reader.Renewed() && Ends() == old(Ends())
      ensures Model() == MuxServes.HandleKeepAlive(old(Model()), m).0
    {
      hide MuxServes.Discard, Payloads, Housed, TableOf;
      var ignored := HandleKeepAlive(m);
    }

    /** Open the session and take its first data, once the dispatcher gave an output. */
    method Serve(m: Frames.Metadata, refuses: nat -> bool)
      requires Valid()
      modifies Repr()
      ensures Valid() && reader.Renewed() && Grown()
      ensures Model() == MuxServes.Serve(old(Model()), m, refuses)
    {
      hide MuxReads.Copy, MuxServes.CloseSession, MuxServes.OpenSession, Payloads, Housed, FrameReader.Owns,
           BufferedReader.Repr;
      var s := OpenSession(m.id, m.target.network == Frames.UDP, refuses);
      if Frames.HasData(m.option) {
        Feed(s);
      } else {
        reader.Untouched();
      }
    }

    /** The first data of a session; if it cannot be copied the session is closed. */
    method Feed(s: Session)
      requires Valid() && s.parent == manager && s.index < |outs| && outs[s.index] == s.output
      modifies reader.Repr(), s.output, s.input, manager
      ensures Valid() && reader.Renewed() && outs == old(outs) && ins == old(ins)
      ensures var w := old(Model());
              var (r, out, e) := MuxReads.Copy(MuxReads.NewReader(s.packets, w.stream), Some(w.outs[s.index]));
              && out.Some? && MuxReads.StreamOf(r).end != NoError
              && (s.input.interrupted <==> old(s.input.interrupted) || !e.Done?)
              && var w1 := w.(stream := MuxReads.StreamOf(r), outs := w.outs[s.index := out.value]);
                 Model() ==
                   if e.Done? then w1
                   else
                     var st := MuxReads.StreamOf(MuxReads.Copy(r, None).0);
                     MuxServes.CloseSession(w1.(stream := st), s.id, s.index)
    {
      hide MuxReads.Copy, MuxServes.CloseSession, Payloads, Housed, FrameReader.Owns;
      var r := NewReader(s.packets, reader);
      MuxReads.CopyKeeps(r.Model(), Some(Model().outs[s.index]));
      var e := CopyTo(r, s);
      if !e.Done? {
        Abandon(r, s);
      }
    }

    method Abandon(r: FrameReader, s: Session)
      requires Valid() && r.Valid() && r.Reader() == reader
      requires s.parent == manager && s.index < |outs| && outs[s.index] == s.output
      modifies r.Owns(), s.output, s.input, manager
      ensures Valid() && reader.Renewed() && outs == old(outs) && ins == old(ins)
      ensures s.input.closed && s.input.interrupted
      ensures Model() == MuxServes.CloseSession(
                old(Model()).(stream := MuxReads.StreamOf(MuxReads.Copy(old(r.Model()), None).0)), s.id, s.index)
    {
      hide MuxReads.Copy, MuxServes.CloseSession, Payloads, Housed, FrameReader.Owns;
      OwnsApart(r);
      var ignored := CopyTo(r, null);
      StopSession(s);
    }

    /** The dispatch on the status, for both ends. */
    method Handle(m: Frames.Metadata) returns (err: Error)
      requires Valid()
      modifies Repr()
      ensures Valid() && reader.Renewed() && Grown()
      ensures (Model(), err) == MuxServes.Handle(role, p, dispatch, old(Model()), m)
    {
      hide MuxServes.HandleKeepAlive, MuxServes.HandleEnd, MuxServes.HandleKeep, Payloads, Housed, TableOf;
      if m.status == Frames.KEEP_ALIVE || (m.status == Frames.NEW && role == Client) {
        err := HandleKeepAlive(m);
      } else if m.status == Frames.END {
        err := HandleEnd(m);
      } else if m.status == Frames.NEW {
        err := HandleNew(m);
      } else if m.status == Frames.KEEP {
        err := HandleKeep(m);
      } else {
        reader.Untouched();
        err := Failure("unknown status");
      }
    }

    method ReadMeta(meta: FrameMetadata) returns (err: Error)
      requires Valid()
      modifies reader.Repr(), meta
      ensures Valid() && reader.Renewed()
      ensures var (m, st, e) := Frames.Unmarshal(p, old(meta.Model()), old(Model()).stream);
              meta.Model() == m && err == e && st.end != NoError && Model() == old(Model()).(stream := st)
      ensures outs == old(outs) && ins == old(ins) && fresh(Repr() - old(Repr()))
    {
      hide Frames.Unmarshal, Payloads, Housed, TableOf;
      MuxServes.UnmarshalKeepsEnd(p, meta.Model(), reader.Model());
      ReaderApart();
      ghost var before := OutsOf(outs);
      err := meta.Unmarshal(p, reader);
      assert forall i :: 0 <= i < |outs| ==> outs[i].Model() == before[i];
    }

    lemma ReaderApart()
      ensures this !in reader.Repr() && manager !in reader.Repr() && link !in reader.Repr()
      ensures forall i: Input :: i !in reader.Repr()
      ensures forall i :: 0 <= i < |outs| ==> outs[i] !in reader.Repr()
    {
    }

    lemma ReprFacts(meta: FrameMetadata)
      ensures reader.Repr() <= Repr() && meta !in Repr()
    {
    }

    /** handleFrame of the server, with a new record; a turn of the client's loop, with the old one. */
    method HandleFrame(meta: FrameMetadata) returns (err: Error)
      requires Valid()
      modifies Repr(), meta
      ensures Valid() && reader.Renewed() && Grown()
      ensures (Model(), meta.Model(), err) ==
                MuxServes.HandleFrame(role, p, dispatch, old(Model()), old(meta.Model()))
    {
      hide MuxServes.Handle, Frames.Unmarshal, Payloads, Housed, TableOf, Repr, BufferedReader.Repr;
      MuxServes.UnmarshalKeepsEnd(p, meta.Model(), reader.Model());
      ReprFacts(meta);
      err := ReadMeta(meta);
      ReprFacts(meta);
      if err == NoError {
        err := Handle(Frames.Metadata(meta.target, meta.sessionID, meta.option, meta.status));
      }
    }

    /** SessionManager.Close at the end of the loop. */
    method CloseAll()
      requires Valid()
      modifies manager, outs, ins
      ensures Valid() && Model() == MuxServes.CloseAll(old(Model()))
    {
      hide Payloads;
      ghost var w := Model();
      OutputsAreOwn();
      HousedClose(manager.Table(), manager, outs, opens, ins);
      hide Housed, TableOf, SessionManager.Outputs, SessionManager.Inputs, MuxServes.CloseAll;
      CloseManager();
      reader.Untouched();
      ClosedAll(w, OutsOf(outs));
    }

    method CloseManager()
      requires Valid()
      modifies manager, outs, ins
      ensures manager.Table() == Sessions.Close(old(manager.Table()))
      ensures forall i :: 0 <= i < |outs| ==>
                outs[i].Model() ==
                  old(outs[i].Model()).(closed := old(outs[i].closed) || old(outs[i] in manager.Outputs()))
    {
      OutputsAreOwn();
      hide Housed, TableOf, Payloads, SessionManager.Outputs, SessionManager.Inputs;
      manager.Close();
    }

    lemma OutputsAreOwn()
      requires Valid()
      ensures forall o :: o in manager.Outputs() ==> o in outs
      ensures forall i :: 0 <= i < |outs| ==>
                (outs[i] in manager.Outputs() <==>
                   opens[i].id in Model().table.live && Model().table.live[opens[i].id].out == i)
      ensures manager.closed ==> manager.Outputs() == {}
      ensures manager.Inputs() <= ins
    {
    }

    /** A turn of the loop: the server reads each frame into a new record. */
    method Turn(meta: FrameMetadata) returns (next: FrameMetadata, err: Error)
      requires Valid()
      modifies Repr(), meta
      ensures Valid() && reader.Renewed() && Grown() && (next == meta || fresh(next))
      ensures (Model(), next.Model(), err) ==
                MuxServes.HandleFrame(role, p, dispatch, old(Model()),
                                      if role == Server then MuxServes.BLANK else old(meta.Model()))
    {
      hide MuxServes.HandleFrame, Payloads, Housed, TableOf;
      next := meta;
      if role == Server {
        next := new FrameMetadata();
      }
      reader.Untouched();
      err := HandleFrame(next);
    }

    /** The loop of run and of fetchOutput, with nothing else going on: frames until one fails. The
        table is closed then, and with it the output of every session still live. */
    method Run() returns (err: Error)
      requires Valid()
      modifies Repr()
      ensures Valid() && reader.Renewed()
      ensures var (w, n, e) := MuxServes.RunQuiet(role, p, dispatch, old(Model()), MuxServes.BLANK);
              Model() == w && err == e != NoError
    {
      hide MuxServes.HandleFrame, MuxServes.CloseAll, MuxServes.RunQuiet, Payloads, Housed, TableOf;
      err := Loop();
      CloseAll();
    }

    method Loop() returns (err: Error)
      requires Valid()
      modifies Repr()
      ensures Valid() && reader.Renewed() && Grown() && err != NoError
      ensures var (w, n, e) := MuxServes.RunQuiet(role, p, dispatch, old(Model()), MuxServes.BLANK);
              MuxServes.CloseAll(Model()) == w && err == e
    {
      hide MuxServes.HandleFrame, MuxServes.CloseAll, MuxServes.RunQuiet, Payloads, Housed, TableOf, Same, Ends;
      var meta := new FrameMetadata();
      reader.Untouched();
      ghost var result := MuxServes.RunQuiet(role, p, dispatch, Model(), MuxServes.BLANK);
      SameAsItself(result);
      ghost var m0 := MuxServes.BLANK;
      err := NoError;
      while err == NoError
        invariant Valid() && reader.Renewed() && Grown() && fresh(meta)
        invariant m0 == if role == Server then MuxServes.BLANK else meta.Model()
        invariant err == NoError ==> Same(MuxServes.RunQuiet(role, p, dispatch, Model(), m0), result)
        invariant err != NoError ==> MuxServes.CloseAll(Model()) == result.0 && err == result.2
        decreases err == NoError, Streams.Work(Model().stream)
      {
        RunStep(role, p, dispatch, Model(), m0, result);
        meta, err := Turn(meta);
        m0 := if role == Server then MuxServes.BLANK else meta.Model();
      }
    }
  }

  /** Runs that end alike; the number of frames aside. */
  ghost predicate Same(a: (Worker, nat, Error), b: (Worker, nat, Error)) {
    a.0 == b.0 && a.2 == b.2
  }

  lemma SameAsItself(a: (Worker, nat, Error))
    ensures Same(a, a)
  {
  }

  /** One turn of the loop. */
  lemma RunStep(role: Role, p: Parser, dispatch: Dispatcher, w: Worker, m0: Frames.Metadata,
                result: (Worker, nat, Error))
    requires Linked(w) && Same(MuxServes.RunQuiet(role, p, dispatch, w, m0), result)
    ensures var (w1, m, err) := MuxServes.HandleFrame(role, p, dispatch, w, m0);
            && Linked(w1)
            && (err != NoError ==> MuxServes.CloseAll(w1) == result.0 && err == result.2)
            && (err == NoError ==>
                  && Streams.Work(w1.stream) < Streams.Work(w.stream)
                  && var next := if role == Server then MuxServes.BLANK else m;
                     Same(MuxServes.RunQuiet(role, p, dispatch, w1, next), result))
  {
    hide MuxServes.HandleFrame, MuxServes.CloseAll;
    MuxServes.HandleLinked(role, p, dispatch, w, m0);
  }
}
