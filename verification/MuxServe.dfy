/** common/mux/server.go, and the receiving half of common/mux/client.go, on values: the loop that takes
    frames off a connection and hands their data to the sessions. */
module MuxServes {
  import opened Bytes
  import opened Buffers
  import opened Addresses
  import opened Frames
  import opened Links
  import opened MuxReads
  import opened MuxWrites
  import opened Sessions
  import Streams

  /** Which end of the connection: they treat New frames differently. */
  datatype Role = Server | Client

  /** A session in the table: how it frames its data, and which output it writes to. */
  datatype Sess = Sess(packets: bool, out: nat)

  /** What an output was opened for. */
  datatype Open = Open(id: uint16, packets: bool)

  /** The i-th dispatch fails, or gives an output that refuses some of its writes. */
  type Dispatcher = nat -> Option<nat -> bool>

  datatype Worker = Worker(
    table: Table<Sess>,
    outs: seq<Link>,
    opens: seq<Open>,
    dispatched: nat,
    link: Link,
    stream: Streams.State)

  /** Every session has its output. */
  ghost predicate Linked(w: Worker) {
    && w.stream.end != NoError && |w.outs| == |w.opens| && Settled(w.table)
    && forall id :: id in w.table.live ==>
         var s := w.table.live[id]; s.out < |w.outs| && w.opens[s.out] == Open(id, s.packets)
  }

  // ---- The handlers ----

  ghost function Discard(w: Worker): (Worker, Error)
    requires w.stream.end != NoError
  {
    var (r, out, e) := Copy(NewReader(false, w.stream), None);
    (w.(stream := StreamOf(r)), Result(e))
  }

  /** Session.Close. */
  function CloseSession(w: Worker, id: uint16, o: nat): Worker
    requires o < |w.outs|
  {
    w.(outs := w.outs[o := Links.Close(w.outs[o])], table := Remove(w.table, id))
  }

  /** Tell the other end that the session is over. */
  function SendEnd(p: Parser, w: Worker, id: uint16, failed: bool): Worker {
    w.(link := CloseWriter(p, MuxWrites.Writer(id, Destination(None, 0, Unknown), false, true, failed), w.link))
  }

  ghost function HandleKeepAlive(w: Worker, m: Metadata): (Worker, Error)
    requires w.stream.end != NoError
  {
    if HasData(m.option) then Discard(w) else (w, NoError)
  }

  ghost function HandleKeep(p: Parser, w: Worker, m: Metadata): (Worker, Error)
    requires Linked(w)
  {
    if !HasData(m.option) then (w, NoError)
    else
      match Get(w.table, m.id)
      case None => Discard(SendEnd(p, w, m.id, false))
      case Some(s) =>
        var r0, out0 := NewReader(s.packets, w.stream), Some(w.outs[s.out]);
        CopyKeeps(r0, out0);
        var (r, out, e) := Copy(r0, out0);
        var w1 := w.(stream := StreamOf(r), outs := w.outs[s.out := out.value]);
        if !e.WriteError? then (w1, Result(e))
        else
          var (r2, out2, e2) := Copy(r, None);
          (CloseSession(SendEnd(p, w1, m.id, false).(stream := StreamOf(r2)), m.id, s.out), Result(e2))
  }

  ghost function HandleEnd(w: Worker, m: Metadata): (Worker, Error)
    requires Linked(w)
  {
    var w1 := match Get(w.table, m.id)
              case None => w
              case Some(s) => CloseSession(w, m.id, s.out);
    if HasData(m.option) then Discard(w1) else (w1, NoError)
  }

  /** handleStatusNew of the server: any failure to copy the first data closes the session, and is not
      reported; of the client: the data is discarded. */
  ghost function HandleNew(role: Role, dispatch: Dispatcher, w: Worker, m: Metadata): (Worker, Error)
    requires Linked(w)
  {
    if role == Client then HandleKeepAlive(w, m)
    else
      var w0 := w.(dispatched := w.dispatched + 1);
      match dispatch(w.dispatched)
      case None =>
        (if HasData(m.option) then Discard(w0).0 else w0, Failure("failed to dispatch request"))
      case Some(refuses) => (Serve(w0, m, refuses), NoError)
  }

  ghost function Serve(w: Worker, m: Metadata, refuses: nat -> bool): Worker
    requires Linked(w)
  {
    var packets := m.target.network == UDP;
    var w1 := OpenSession(w, m.id, packets, refuses);
    if !HasData(m.option) then w1
    else
      var o := |w.outs|;
      var r0, out0 := NewReader(packets, w1.stream), Some(w1.outs[o]);
      CopyKeeps(r0, out0);
      var (r, out, e) := Copy(r0, out0);
      var w2 := w1.(stream := StreamOf(r), outs := w1.outs[o := out.value]);
      if e.Done? then w2
      else
        var (r2, out2, e2) := Copy(r, None);
        CloseSession(w2.(stream := StreamOf(r2)), m.id, o)
  }

  function OpenSession(w: Worker, id: uint16, packets: bool, refuses: nat -> bool): Worker {
    w.(outs := w.outs + [Link([], 0, false, refuses)],
       opens := w.opens + [Open(id, packets)],
       table := Add(w.table, id, Sess(packets, |w.outs|)))
  }

  /** handleFrame, and a turn of fetchOutput: the metadata is read into a record that held m0. */
  ghost function HandleFrame(role: Role, p: Parser, dispatch: Dispatcher, w: Worker, m0: Metadata)
    : (Worker, Metadata, Error)
    requires Linked(w)
  {
    var (m, st, err) := Unmarshal(p, m0, w.stream);
    UnmarshalKeepsEnd(p, m0, w.stream);
    var w1 := w.(stream := st);
    if err != NoError then (w1, m, err)
    else
      var (w2, err2) := Handle(role, p, dispatch, w1, m);
      (w2, m, err2)
  }

  ghost function Handle(role: Role, p: Parser, dispatch: Dispatcher, w: Worker, m: Metadata): (Worker, Error)
    requires Linked(w)
  {
    if m.status == KEEP_ALIVE then HandleKeepAlive(w, m)
    else if m.status == END then HandleEnd(w, m)
    else if m.status == NEW then HandleNew(role, dispatch, w, m)
    else if m.status == KEEP then HandleKeep(p, w, m)
    else (w, Failure("unknown status"))
  }

  lemma UnmarshalKeepsEnd(p: Parser, m0: Metadata, st: Streams.State)
    requires st.end != NoError
    ensures var (m, st', err) := Unmarshal(p, m0, st);
            && st'.end == st.end && Streams.Work(st') <= Streams.Work(st)
            && (err == NoError ==> Streams.Work(st') < Streams.Work(st))
  {
    hide Streams.ReadFull, Streams.Work, Streams.Pending;
    Streams.ReadFullDelivers(st, 2);
    Streams.ReadFullWork(st, 2);
    var (st1, head, err1) := Streams.ReadFull(st, 2);
    if err1 == NoError {
      Streams.ReadFullDelivers(st1, FromBe16(head));
    }
  }

  // ---- Frame alignment ----

  /** A frame as the protocol has it: a known status, the data option exactly with data, a length that
      fits its field, and a target the other end can read. */
  ghost predicate WellFormed(p: Parser, f: Frame) {
    && Encodable(p, f) && Targeted(p, f.meta) && Consistent(p)
    && f.meta.status in {NEW, KEEP, END, KEEP_ALIVE}
    && (HasData(f.meta.option) <==> f.data.Some?) && |Flat(Data(f))| < 0x1_0000
  }

  /** What follows the metadata of f on the stream. */
  ghost predicate Ahead(w: Worker, f: Frame, rest: Bytes) {
    w.stream.end != NoError && Streams.Pending(w.stream) == LenBytes(f) + Flat(Data(f)) + rest
  }

  ghost predicate At(w: Worker, end: Error, rest: Bytes) {
    w.stream.end == end && Streams.Pending(w.stream) == rest
  }

  /** A packet in the first frame of a session that is longer than a buffer. */
  ghost predicate Derails(role: Role, dispatch: Dispatcher, w: Worker, f: Frame) {
    && role == Server && f.meta.status == NEW && f.meta.target.network == UDP
    && |Flat(Data(f))| > SIZE && dispatch(w.dispatched).Some?
  }

  /** The frames that end the loop: a New frame nobody will serve, and too long a packet later on. */
  ghost predicate Stops(role: Role, dispatch: Dispatcher, w: Worker, f: Frame) {
    || (role == Server && f.meta.status == NEW && dispatch(w.dispatched).None?)
    || (f.meta.status == KEEP && |Flat(Data(f))| > SIZE
        && Get(w.table, f.meta.id).Some? && Get(w.table, f.meta.id).value.packets)
  }

  /** A copy of the data of f has ended as it should: what is left is what follows the frame, or the
      rest of the chunk, which a second copy will find the end of. */
  lemma CopyData(w: Worker, f: Frame, rest: Bytes, packets: bool, out: Option<Link>)
    requires Ahead(w, f, rest) && f.data.Some? && |Flat(Data(f))| < 0x1_0000
    requires packets ==> |Flat(Data(f))| <= SIZE
    ensures var c := Flat(Data(f));
            var (r, out', e) := Copy(NewReader(packets, w.stream), out);
            && StreamOf(r).end == w.stream.end && !e.ReadError? && (out.None? ==> e.Done?)
            && (e.Done? ==> Streams.Pending(StreamOf(r)) == rest)
            && (e.WriteError? ==>
                  var (r2, out2, e2) := Copy(r, None);
                  && e2 == Done && StreamOf(r2).end == w.stream.end && Streams.Pending(StreamOf(r2)) == rest)
            && (if packets then (out', Result(e)) == Pass(out, [c]) else Copied(out, out', c, e.Done?))
  {
    hide Copy, Streams.Pending, Copied, Pass;
    var c := Flat(Data(f));
    assert LenBytes(f) + c + rest == Field(c) + rest;
    var r0 := NewReader(packets, w.stream);
    CopyKeeps(r0, out);
    var (r, out', e) := Copy(r0, out);
    if packets {
      CopyPacket(w.stream, out, c, rest);
      CopyUnfold(r, None);
      assert Pass(None, []) == (None, NoError) by { PassNothing(); }
    } else {
      CopyStream(w.stream, out, c, rest);
      if !e.Done? {
        var left: Bytes :| Within(r, left, rest);
        DrainRest(r, left, rest);
        CopyKeeps(r, None);
      }
    }
  }

  lemma PassNothing()
    ensures Pass(None, []) == (None, NoError)
  {
  }

  lemma DiscardStep(w: Worker, f: Frame, rest: Bytes)
    requires Ahead(w, f, rest) && f.data.Some? && |Flat(Data(f))| < 0x1_0000
    ensures var (w', err) := Discard(w);
            err == NoError && w' == w.(stream := w'.stream) && At(w', w.stream.end, rest)
  {
    CopyData(w, f, rest, false, None);
  }

  lemma NothingAhead(w: Worker, f: Frame, rest: Bytes)
    requires Ahead(w, f, rest) && f.data.None?
    ensures At(w, w.stream.end, rest)
  {
    assert [] + [] + rest == rest;
  }

  // ---- What a frame does to the sessions ----

  /** Two records that a handler cannot tell apart: only a New frame's target matters. */
  predicate Alike(m: Metadata, n: Metadata) {
    m.id == n.id && m.option == n.option && m.status == n.status && (m.status == NEW ==> m == n)
  }

  /** An output got the data c, or a front part of it; a packet is never split. */
  ghost predicate Got(l: Link, l': Link, packets: bool, c: Bytes, whole: bool) {
    if packets then
      l'.writes == l.writes + Whole(c) || (!whole && l'.writes == l.writes)
    else
      exists d: Bytes {:trigger l.Sent() + d} :: d <= c && (whole ==> d == c) && l'.Sent() == l.Sent() + d
  }

  /** The writes a packet makes: empty ones are not written. */
  function Whole(c: Bytes): seq<seq<Bytes>> {
    if c == [] then [] else [[c]]
  }

  lemma GotNothing(l: Link, l': Link, packets: bool, c: Bytes)
    requires l'.writes == l.writes
    ensures Got(l, l', packets, c, false) && Got(l, l', packets, [], true)
  {
    assert l.Sent() + [] == l.Sent();
    assert l.writes + Whole([]) == l.writes;
  }

  lemma CopyGot(l: Link, l': Link, packets: bool, c: Bytes, e: Ended)
    requires !e.ReadError?
    requires if packets then (Some(l'), Result(e)) == Pass(Some(l), [c]) else Copied(Some(l), Some(l'), c, e.Done?)
    ensures Got(l, l', packets, c, e.Done?)
  {
    FlatOne(c);
    if packets && c == [] {
      assert l.writes + Whole(c) == l.writes;
    }
  }

  /** A frame for session `id` with data c: every other output and session is as it was, and if the
      session is still live its output got all of c. */
  ghost predicate Effect(w: Worker, w': Worker, id: uint16, c: Bytes) {
    && w'.opens == w.opens && |w'.outs| == |w.outs| == |w.opens|
    && (forall i :: 0 <= i < |w.outs| && w.opens[i].id != id ==> w'.outs[i] == w.outs[i])
    && (id !in w.table.live ==> w'.outs == w.outs)
    && (forall i :: 0 <= i < |w.outs| && w.opens[i].id == id ==>
          Got(w.outs[i], w'.outs[i], w.opens[i].packets, c,
              id in w'.table.live && w'.table.live[id].out == i))
    && (forall k :: k in w'.table.live ==> k in w.table.live && w'.table.live[k] == w.table.live[k])
    && (forall k :: k in w.table.live && k != id ==> k in w'.table.live)
  }

  ghost predicate Distinct(w: Worker) {
    forall i, j :: 0 <= i < j < |w.opens| ==> w.opens[i].id != w.opens[j].id
  }

  /** Only the stream and the link moved: no data was for any session. */
  lemma QuietEffect(w: Worker, w': Worker, id: uint16, c: Bytes)
    requires Linked(w) && w'.opens == w.opens && w'.outs == w.outs && w'.table == w.table
    requires c == [] || id !in w.table.live
    ensures Effect(w, w', id, c)
  {
    forall i | 0 <= i < |w.outs| && w.opens[i].id == id
      ensures Got(w.outs[i], w'.outs[i], w.opens[i].packets, c, id in w'.table.live && w'.table.live[id].out == i)
    {
      GotNothing(w.outs[i], w'.outs[i], w.opens[i].packets, c);
    }
  }

  /** The output o of session `id` took what it took, and the session stayed or was closed. */
  lemma FedEffect(w: Worker, w': Worker, id: uint16, o: nat, c: Bytes, stays: bool)
    requires Linked(w) && Distinct(w) && o < |w.outs| && w.opens[o].id == id && w'.opens == w.opens
    requires id in w.table.live
    requires |w'.outs| == |w.outs| && w'.outs == w.outs[o := w'.outs[o]]
    requires Got(w.outs[o], w'.outs[o], w.opens[o].packets, c, stays)
    requires w'.table.live == (if stays then w.table.live else w.table.live - {id})
    ensures Effect(w, w', id, c)
  {
    forall i | 0 <= i < |w.outs| && w.opens[i].id == id ensures i == o {}
  }

  /** What the data of f means to the session it names. */
  function Carried(role: Role, f: Frame): Bytes {
    if f.meta.status == KEEP || (f.meta.status == NEW && role == Server) then Flat(Data(f)) else []
  }

  lemma KeepAliveStep(w: Worker, m: Metadata, f: Frame, rest: Bytes)
    requires Ahead(w, f, rest) && Linked(w) && m.option == f.meta.option && |Flat(Data(f))| < 0x1_0000
    requires HasData(m.option) <==> f.data.Some?
    ensures var (w', err) := HandleKeepAlive(w, m);
            err == NoError && At(w', w.stream.end, rest) && w' == w.(stream := w'.stream)
  {
    if HasData(m.option) { DiscardStep(w, f, rest); } else { NothingAhead(w, f, rest); }
  }

  lemma EndAligned(w: Worker, m: Metadata, f: Frame, rest: Bytes)
    requires Ahead(w, f, rest) && Linked(w) && m.option == f.meta.option && |Flat(Data(f))| < 0x1_0000
    requires HasData(m.option) <==> f.data.Some?
    ensures var (w', err) := HandleEnd(w, m);
            err == NoError && At(w', w.stream.end, rest) && m.id !in w'.table.live
  {
    hide Discard;
    var g := Get(w.table, m.id);
    var w1 := if g.None? then w else CloseSession(w, m.id, g.value.out);
    assert Ahead(w1, f, rest);
    if HasData(m.option) { DiscardStep(w1, f, rest); } else { NothingAhead(w1, f, rest); }
  }

  lemma EndStep(w: Worker, m: Metadata, f: Frame, rest: Bytes)
    requires Ahead(w, f, rest) && Linked(w) && Distinct(w) && m.option == f.meta.option && |Flat(Data(f))| < 0x1_0000
    requires HasData(m.option) <==> f.data.Some?
    ensures var (w', err) := HandleEnd(w, m);
            && err == NoError && At(w', w.stream.end, rest) && Effect(w, w', m.id, []) && m.id !in w'.table.live
  {
    hide Discard, Got;
    EndAligned(w, m, f, rest);
    var g := Get(w.table, m.id);
    var w1 := if g.None? then w else CloseSession(w, m.id, g.value.out);
    assert Ahead(w1, f, rest);
    var w' := HandleEnd(w, m).0;
    if HasData(m.option) { DiscardStep(w1, f, rest); }
    if g.None? {
      QuietEffect(w, w', m.id, []);
    } else {
      var o := g.value.out;
      GotNothing(w.outs[o], w1.outs[o], w.opens[o].packets, []);
      FedEffect(w, w', m.id, o, [], false);
    }
  }

  /** A Keep frame is consumed exactly, whatever its session's output does, unless it is too long a
      packet; then only its length is gone. */
  lemma KeepAligned(p: Parser, w: Worker, m: Metadata, f: Frame, rest: Bytes)
    requires Ahead(w, f, rest) && Linked(w) && m.option == f.meta.option && |Flat(Data(f))| < 0x1_0000
    requires HasData(m.option) <==> f.data.Some?
    ensures var (w', err) := HandleKeep(p, w, m);
            && (err != NoError <==>
                  |Flat(Data(f))| > SIZE && Get(w.table, m.id).Some? && Get(w.table, m.id).value.packets)
            && (err == NoError ==> At(w', w.stream.end, rest))
            && (err != NoError ==> w' == w.(stream := w'.stream) && w'.stream.end == w.stream.end)
  {
    hide Discard, Copy, Streams.Pending;
    var g := Get(w.table, m.id);
    if !HasData(m.option) {
      NothingAhead(w, f, rest);
    } else if g.None? {
      var w1 := SendEnd(p, w, m.id, false);
      assert Ahead(w1, f, rest);
      DiscardStep(w1, f, rest);
    } else if g.value.packets && |Flat(Data(f))| > SIZE {
      TooLong(w, f, rest, Some(w.outs[g.value.out]));
    } else {
      KeepFedAligned(p, w, m, f, rest);
    }
  }

  lemma KeepFedAligned(p: Parser, w: Worker, m: Metadata, f: Frame, rest: Bytes)
    requires Ahead(w, f, rest) && Linked(w) && m.option == f.meta.option && |Flat(Data(f))| < 0x1_0000
    requires HasData(m.option) && f.data.Some? && Get(w.table, m.id).Some?
    requires Get(w.table, m.id).value.packets ==> |Flat(Data(f))| <= SIZE
    ensures var (w', err) := HandleKeep(p, w, m);
            err == NoError && At(w', w.stream.end, rest)
  {
    hide Copy, Pass, Copied, Streams.Pending;
    var s := w.table.live[m.id];
    var r0, out0 := NewReader(s.packets, w.stream), Some(w.outs[s.out]);
    CopyKeeps(r0, out0);
    CopyData(w, f, rest, s.packets, out0);
    var (r, out, e) := Copy(r0, out0);
    assert HandleKeep(p, w, m).0.stream == if e.WriteError? then StreamOf(Copy(r, None).0) else StreamOf(r);
  }

  lemma KeepStep(p: Parser, w: Worker, m: Metadata, f: Frame, rest: Bytes)
    requires Ahead(w, f, rest) && Linked(w) && Distinct(w) && m.option == f.meta.option && |Flat(Data(f))| < 0x1_0000
    requires HasData(m.option) <==> f.data.Some?
    ensures var (w', err) := HandleKeep(p, w, m);
            && (err != NoError <==>
                  |Flat(Data(f))| > SIZE && Get(w.table, m.id).Some? && Get(w.table, m.id).value.packets)
            && (err == NoError ==> At(w', w.stream.end, rest) && Effect(w, w', m.id, Flat(Data(f))))
            && (err != NoError ==> w' == w.(stream := w'.stream) && w'.stream.end == w.stream.end)
  {
    hide Discard, Got, Copy, Streams.Pending, Effect;
    KeepAligned(p, w, m, f, rest);
    var g := Get(w.table, m.id);
    if !HasData(m.option) {
      QuietEffect(w, w, m.id, []);
    } else if g.None? {
      var w1 := SendEnd(p, w, m.id, false);
      assert Ahead(w1, f, rest);
      DiscardStep(w1, f, rest);
      QuietEffect(w, Discard(w1).0, m.id, Flat(Data(f)));
    } else if !g.value.packets || |Flat(Data(f))| <= SIZE {
      KeepFeeds(p, w, m, f, rest);
    }
  }

  lemma TooLong(w: Worker, f: Frame, rest: Bytes, out: Option<Link>)
    requires Ahead(w, f, rest) && f.data.Some? && SIZE < |Flat(Data(f))| < 0x1_0000
    ensures var (r, out', e) := Copy(NewReader(true, w.stream), out);
            && StreamOf(r).end == w.stream.end && e.ReadError? && out' == out && Result(e) != NoError
            && r == PacketReader(false, StreamOf(r)) && Streams.Pending(StreamOf(r)) == Flat(Data(f)) + rest
  {
    hide Copy, Streams.Pending;
    var c := Flat(Data(f));
    assert LenBytes(f) + c + rest == Field(c) + rest;
    CopyKeeps(NewReader(true, w.stream), out);
    CopyPacket(w.stream, out, c, rest);
    CopyFails(NewReader(true, w.stream), out);
  }

  lemma {:induction false} CopyFails(r: Reader, out: Option<Link>)
    requires StreamOf(r).end != NoError
    ensures Copy(r, out).2.ReadError? ==> Result(Copy(r, out).2) != NoError
    ensures Copy(r, out).2.WriteError? ==> Result(Copy(r, out).2) != NoError
    decreases Streams.Work(StreamOf(r))
  {
    hide ReadOnce, Copy, Streams.Work;
    CopyUnfold(r, out);
    var (r1, o) := ReadOnce(r);
    var (out1, werr) := Pass(out, o.mb);
    if werr == NoError && o.err == NoError {
      CopyFails(r1, out1);
    }
  }

  lemma KeepFeeds(p: Parser, w: Worker, m: Metadata, f: Frame, rest: Bytes)
    requires Ahead(w, f, rest) && Linked(w) && Distinct(w) && m.option == f.meta.option && |Flat(Data(f))| < 0x1_0000
    requires HasData(m.option) && f.data.Some? && Get(w.table, m.id).Some?
    requires Get(w.table, m.id).value.packets ==> |Flat(Data(f))| <= SIZE
    ensures var (w', err) := HandleKeep(p, w, m);
            Effect(w, w', m.id, Flat(Data(f)))
  {
    hide Got, Copy, Pass, Copied, Streams.Pending;
    var s := w.table.live[m.id];
    var c := Flat(Data(f));
    var out0 := w.outs[s.out];
    CopyKeeps(NewReader(s.packets, w.stream), Some(out0));
    CopyData(w, f, rest, s.packets, Some(out0));
    var (r, out, e) := Copy(NewReader(s.packets, w.stream), Some(out0));
    CopyGot(out0, out.value, s.packets, c, e);
    var w' := HandleKeep(p, w, m).0;
    if !e.Done? {
      GotClosed(out0, out.value, s.packets, c, false);
    }
    assert w'.outs == w.outs[s.out := w'.outs[s.out]];
    FedEffect(w, w', m.id, s.out, c, e.Done?);
  }

  lemma GotClosed(l: Link, l': Link, packets: bool, c: Bytes, whole: bool)
    requires Got(l, l', packets, c, whole)
    ensures Got(l, Links.Close(l'), packets, c, whole)
  {
    assert Links.Close(l').Sent() == l'.Sent();
  }

  /** The session that a New frame opens has an output of its own, with nothing in it yet. */
  lemma Opened(w: Worker, id: uint16, packets: bool, refuses: nat -> bool)
    requires Linked(w) && Distinct(w) && forall i :: 0 <= i < |w.opens| ==> w.opens[i].id != id
    ensures var w1 := OpenSession(w, id, packets, refuses);
            && Linked(w1) && Distinct(w1) && w1.stream == w.stream && |w1.outs| == |w.outs| + 1
            && w1.opens[|w.outs|] == Open(id, packets) && w1.outs[|w.outs|] == Link([], 0, false, refuses)
            && (!w.table.closed ==> id in w1.table.live && w1.table.live[id].out == |w.outs|)
  {
  }

  lemma NewAligned(dispatch: Dispatcher, w: Worker, m: Metadata, f: Frame, rest: Bytes)
    requires Ahead(w, f, rest) && Linked(w) && |Flat(Data(f))| < 0x1_0000
    requires m == f.meta && m.status == NEW && (HasData(m.option) <==> f.data.Some?)
    requires dispatch(w.dispatched).Some? && !Derails(Server, dispatch, w, f)
    ensures var (w', err) := HandleNew(Server, dispatch, w, m);
            err == NoError && At(w', w.stream.end, rest)
  {
    hide Copy, Pass, Copied, Streams.Pending;
    var packets := m.target.network == UDP;
    var w1 := OpenSession(w, m.id, packets, dispatch(w.dispatched).value);
    if !HasData(m.option) {
      NothingAhead(w, f, rest);
    } else {
      var r0, out0 := NewReader(packets, w1.stream), Some(w1.outs[|w.outs|]);
      assert Ahead(w1, f, rest);
      CopyKeeps(r0, out0);
      CopyData(w1, f, rest, packets, out0);
      var (r, out, e) := Copy(r0, out0);
      assert HandleNew(Server, dispatch, w, m).0.stream == if e.Done? then StreamOf(r) else StreamOf(Copy(r, None).0);
    }
  }

  lemma NewStep(dispatch: Dispatcher, w: Worker, m: Metadata, f: Frame, rest: Bytes)
    requires Ahead(w, f, rest) && Linked(w) && Distinct(w) && |Flat(Data(f))| < 0x1_0000
    requires m == f.meta && m.status == NEW && (HasData(m.option) <==> f.data.Some?)
    requires forall i :: 0 <= i < |w.opens| ==> w.opens[i].id != m.id
    requires dispatch(w.dispatched).Some? && !w.table.closed
    ensures var (w', err) := HandleNew(Server, dispatch, w, m);
            var w1 := OpenSession(w, m.id, m.target.network == UDP, dispatch(w.dispatched).value);
            && err == NoError && w'.stream.end == w.stream.end
            && (!Derails(Server, dispatch, w, f) ==> At(w', w.stream.end, rest))
            && Effect(w1, w', m.id, Flat(Data(f)))
  {
    hide Got, Copy, Pass, Copied, Streams.Pending;
    var packets := m.target.network == UDP;
    var o, c := |w.outs|, Flat(Data(f));
    var w1 := OpenSession(w, m.id, packets, dispatch(w.dispatched).value);
    Opened(w, m.id, packets, dispatch(w.dispatched).value);
    var w' := HandleNew(Server, dispatch, w, m).0;
    if !HasData(m.option) {
      NothingAhead(w, f, rest);
      QuietEffect(w1, w', m.id, []);
    } else {
      var r0, out0 := NewReader(packets, w1.stream), Some(w1.outs[o]);
      assert Ahead(w1, f, rest);
      CopyKeeps(r0, out0);
      var (r, out, e) := Copy(r0, out0);
      if packets && |c| > SIZE {
        TooLong(w1, f, rest, out0);
        CopyKeeps(r, None);
        GotNothing(w1.outs[o], w'.outs[o], packets, c);
        FedEffect(w1, w', m.id, o, c, false);
      } else {
        CopyData(w1, f, rest, packets, out0);
        CopyGot(w1.outs[o], out.value, packets, c, e);
        if !e.Done? {
          GotClosed(w1.outs[o], out.value, packets, c, false);
        }
        FedEffect(w1, w', m.id, o, c, e.Done?);
      }
    }
  }

  /** The first two bytes of the packet, which the drain after the failure takes for a length, happen to
      lead to the end of the frame, or to the end of everything. */
  ghost predicate LandsAnyway(c: Bytes, rest: Bytes) {
    && |c| >= 2 && FromBe16(c[..2]) <= SIZE
    && (FromBe16(c[..2]) == |c| - 2 || (FromBe16(c[..2]) > |c| - 2 && rest == []))
  }

  lemma DrainDerailed(st: Streams.State, c: Bytes, rest: Bytes)
    requires st.end != NoError && |c| > SIZE && Streams.Pending(st) == c + rest
    ensures var (r, out, e) := Copy(PacketReader(false, st), None);
            Streams.Pending(StreamOf(r)) == rest <==> LandsAnyway(c, rest)
  {
    hide Streams.Pending, Streams.ReadFull;
    var p := c + rest;
    assert p[..2] == c[..2];
    Streams.ReadFullDelivers(st, 2);
    var (st1, head, err1) := Streams.ReadFull(st, 2);
    CutFront(head, Streams.Pending(st1), p, []);
    assert p[2..] + [] == p[2..] && p + [] == p;
    var n := FromBe16(head);
    CopyUnfold(PacketReader(false, st), None);
    if n > SIZE {
      assert |p[2..]| > |rest|;
    } else {
      Streams.ReadFullDelivers(st1, n);
      var (st2, data, err2) := Streams.ReadFull(st1, n);
      CutFront(data, Streams.Pending(st2), p[2..], []);
      assert p[2..][|data|..] + [] == p[2 + |data|..];
      CopyUnfold(PacketReader(true, st2), None);
      assert |p[2 + |data|..]| == |rest| <==> |data| == |c| - 2;
      assert |data| == |c| - 2 ==> p[2 + |data|..] == rest;
    }
  }

  /** After too long a first packet the server goes on, and is on a frame boundary only by accident. */
  lemma DerailedAlignedIff(dispatch: Dispatcher, w: Worker, m: Metadata, f: Frame, rest: Bytes)
    requires Ahead(w, f, rest) && Linked(w) && |Flat(Data(f))| < 0x1_0000
    requires m == f.meta && (HasData(m.option) <==> f.data.Some?) && Derails(Server, dispatch, w, f)
    ensures var (w', err) := HandleNew(Server, dispatch, w, m);
            err == NoError && (At(w', w.stream.end, rest) <==> LandsAnyway(Flat(Data(f)), rest))
  {
    hide Copy, Streams.Pending;
    var o, c := |w.outs|, Flat(Data(f));
    var w1 := OpenSession(w, m.id, true, dispatch(w.dispatched).value);
    assert Ahead(w1, f, rest);
    TooLong(w1, f, rest, Some(w1.outs[o]));
    var r := Copy(NewReader(true, w1.stream), Some(w1.outs[o])).0;
    CopyKeeps(NewReader(true, w1.stream), Some(w1.outs[o]));
    CopyKeeps(r, None);
    DrainDerailed(r.stream, c, rest);
  }

  /** Unmarshal in front of a well-formed frame. */
  lemma MetaStep(p: Parser, m0: Metadata, w: Worker, f: Frame, rest: Bytes)
    requires WellFormed(p, f) && At(w, w.stream.end, FrameBytes(p, f) + rest) && w.stream.end != NoError
    ensures var (m, st, err) := Unmarshal(p, m0, w.stream);
            && err == NoError && Alike(m, f.meta) && Ahead(w.(stream := st), f, rest) && st.end == w.stream.end
  {
    hide Unmarshal, Encode, Targeted, Streams.Pending;
    var b, n, d := Encode(p, f.meta).value, LenBytes(f), Flat(Data(f));
    assert b + n + d + rest == b + (n + d + rest);
    FrameRoundTripIff(p, m0, f.meta, w.stream, n + d + rest);
  }

  /** Frame alignment. On a frame boundary, with a well-formed frame ahead, whatever the table, the
      ids used before, the outputs and the segmentation: the loop stops on exactly two kinds of frames. On
      any other it has consumed exactly this frame, unless it is the kind that derails the server; after that one it is
      on the next boundary if and only if the packet's own bytes happen to lead it there. */
  lemma FrameAlignment(role: Role, p: Parser, dispatch: Dispatcher, w: Worker, m0: Metadata, f: Frame, rest: Bytes)
    requires Linked(w) && WellFormed(p, f) && At(w, w.stream.end, FrameBytes(p, f) + rest)
    ensures var (w', m, err) := HandleFrame(role, p, dispatch, w, m0);
            && (err != NoError <==> Stops(role, dispatch, w, f))
            && (err == NoError ==>
                  (At(w', w.stream.end, rest) <==>
                     Derails(role, dispatch, w, f) ==> LandsAnyway(Flat(Data(f)), rest)))
  {
    hide Unmarshal, HandleKeep, HandleEnd, HandleNew, HandleKeepAlive, Ahead, FrameBytes;
    MetaStep(p, m0, w, f, rest);
    UnmarshalKeepsEnd(p, m0, w.stream);
    var (m, st, err) := Unmarshal(p, m0, w.stream);
    var w1 := w.(stream := st);
    if m.status == KEEP_ALIVE || (m.status == NEW && role == Client) {
      KeepAliveStep(w1, m, f, rest);
      assert m.status == NEW ==>
        HandleNew(role, dispatch, w1, m) == HandleKeepAlive(w1, m) by { ClientNew(dispatch, w1, m, role); }
    } else if m.status == END {
      EndAligned(w1, m, f, rest);
    } else if m.status == KEEP {
      KeepAligned(p, w1, m, f, rest);
    } else if dispatch(w.dispatched).None? {
      UnservedNew(dispatch, w1, m);
    } else if Derails(role, dispatch, w, f) {
      DerailedAlignedIff(dispatch, w1, m, f, rest);
    } else {
      NewAligned(dispatch, w1, m, f, rest);
    }
  }

  /** A frame with a status that nobody knows stops the loop, and does nothing else. */
  lemma UnknownStops(role: Role, p: Parser, dispatch: Dispatcher, w: Worker, m0: Metadata, m: Metadata, rest: Bytes)
    requires Linked(w) && Consistent(p) && m.status !in {1, 2, 3, 4} && ProperTarget(m)
    requires At(w, w.stream.end, Encode(p, m).value + rest)
    ensures var (w', m', err) := HandleFrame(role, p, dispatch, w, m0);
            err != NoError && w' == w.(stream := w'.stream) && At(w', w.stream.end, rest)
  {
    hide Unmarshal, Streams.Pending;
    FrameRoundTripIff(p, m0, m, w.stream, rest);
    UnmarshalKeepsEnd(p, m0, w.stream);
  }

  /** The first frame of a session over UDP, with a packet of 2049 times 255. */
  function LongPacket(id: uint16, target: Destination): Frame {
    Frame(Metadata(target, id, DATA, NEW), Some([seq(SIZE + 1, _ => 0xff)]))
  }

  /** Whatever came before, and whatever follows it: after this frame the server goes on in the middle of
      things. The drain takes 65535 for the next length, and gives up where it stands. */
  lemma LongPacketDerails(p: Parser, dispatch: Dispatcher, w: Worker, m0: Metadata, id: uint16, target: Destination,
                          rest: Bytes)
    requires Linked(w) && WellFormed(p, LongPacket(id, target)) && dispatch(w.dispatched).Some? && target.network == UDP
    requires At(w, w.stream.end, FrameBytes(p, LongPacket(id, target)) + rest)
    ensures var (w', m, err) := HandleFrame(Server, p, dispatch, w, m0);
            err == NoError && !At(w', w.stream.end, rest)
  {
    hide HandleFrame, WellFormed, At, FrameBytes;
    var f := LongPacket(id, target);
    var c: Bytes := seq(SIZE + 1, _ => 0xff);
    FlatOne(c);
    assert Flat(Data(f)) == c && c[..2] == [0xff, 0xff];
    FrameAlignment(Server, p, dispatch, w, m0, f, rest);
  }

  /** The tables of the multiplexer's address parser; names that spell an IP do not matter here. */
  const MUX_PARSER: Parser :=
    Parser(map[1 := IPv4Family, 2 := DomainFamily, 3 := IPv6Family],
           map[IPv4Family := 1, DomainFamily := 2, IPv6Family := 3], true, name => Domain(name))

  /** A server at the start of a connection on which this frame to 10.0.0.1:53 has arrived. */
  ghost function Misled(rest: Bytes): Worker {
    var target := Destination(Some(IPv4([10, 0, 0, 1])), 53, UDP);
    Worker(Empty(), [], [], 0, Link([], 0, false, _ => false),
           Streams.State([FrameBytes(MUX_PARSER, LongPacket(1, target)) + rest], [], EOF))
  }

  /** It happens. */
  lemma DerailHappens(rest: Bytes)
    ensures var target := Destination(Some(IPv4([10, 0, 0, 1])), 53, UDP);
            var f, w := LongPacket(1, target), Misled(rest);
            var dispatch: Dispatcher := _ => Some(_ => false);
            var (w', m, err) := HandleFrame(Server, MUX_PARSER, dispatch, w, BLANK);
            && Linked(w) && WellFormed(MUX_PARSER, f) && Derails(Server, dispatch, w, f)
            && At(w, EOF, FrameBytes(MUX_PARSER, f) + rest)
            && err == NoError && !At(w', EOF, rest)
  {
    hide HandleFrame, FrameBytes;
    var target := Destination(Some(IPv4([10, 0, 0, 1])), 53, UDP);
    var f, w := LongPacket(1, target), Misled(rest);
    var dispatch: Dispatcher := _ => Some(_ => false);
    FlatOne(f.data.value[0]);
    FlatOne(FrameBytes(MUX_PARSER, f) + rest);
    assert WellFormed(MUX_PARSER, f);
    LongPacketDerails(MUX_PARSER, dispatch, w, BLANK, 1, target, rest);
  }

  lemma ClientNew(dispatch: Dispatcher, w: Worker, m: Metadata, role: Role)
    requires Linked(w)
    ensures role == Client ==> HandleNew(role, dispatch, w, m) == HandleKeepAlive(w, m)
  {
  }

  lemma UnservedNew(dispatch: Dispatcher, w: Worker, m: Metadata)
    requires Linked(w) && dispatch(w.dispatched).None?
    ensures var (w', err) := HandleNew(Server, dispatch, w, m);
            err != NoError && w'.opens == w.opens && w'.outs == w.outs && w'.table == w.table
  {
  }

  /** Its data is consumed all the same. */
  lemma UnservedAligned(dispatch: Dispatcher, w: Worker, m: Metadata, f: Frame, rest: Bytes)
    requires Ahead(w, f, rest) && Linked(w) && m.option == f.meta.option && |Flat(Data(f))| < 0x1_0000
    requires (HasData(m.option) <==> f.data.Some?) && dispatch(w.dispatched).None?
    ensures At(HandleNew(Server, dispatch, w, m).0, w.stream.end, rest)
  {
    hide Discard;
    var w0 := w.(dispatched := w.dispatched + 1);
    assert Ahead(w0, f, rest);
    if HasData(m.option) { DiscardStep(w0, f, rest); } else { NothingAhead(w0, f, rest); }
  }

  /** The worker once the session that f announces, if any, is open. */
  ghost function Before(role: Role, dispatch: Dispatcher, w: Worker, f: Frame): Worker {
    if role == Server && f.meta.status == NEW && dispatch(w.dispatched).Some?
    then OpenSession(w, f.meta.id, f.meta.target.network == UDP, dispatch(w.dispatched).value)
    else w
  }

  /** What a frame does to the sessions, whatever becomes of its data. */
  lemma FrameEffect(role: Role, p: Parser, dispatch: Dispatcher, w: Worker, m0: Metadata, f: Frame, rest: Bytes)
    requires Linked(w) && Distinct(w) && WellFormed(p, f) && At(w, w.stream.end, FrameBytes(p, f) + rest)
    requires f.meta.status == NEW && role == Server ==> forall i :: 0 <= i < |w.opens| ==> w.opens[i].id != f.meta.id
    requires role == Server ==> !w.table.closed
    ensures var (w', m, err) := HandleFrame(role, p, dispatch, w, m0);
            if err == NoError then Effect(Before(role, dispatch, w, f), w', f.meta.id, Carried(role, f))
            else w'.opens == w.opens && w'.outs == w.outs && w'.table == w.table
  {
    hide Unmarshal, HandleKeep, HandleEnd, HandleNew, HandleKeepAlive, Ahead, FrameBytes, Effect;
    MetaStep(p, m0, w, f, rest);
    UnmarshalKeepsEnd(p, m0, w.stream);
    var (m, st, err) := Unmarshal(p, m0, w.stream);
    var w1 := w.(stream := st);
    var (w', err') := Handle(role, p, dispatch, w1, m);
    if m.status == KEEP_ALIVE || (m.status == NEW && role == Client) {
      KeepAliveStep(w1, m, f, rest);
      assert m.status == NEW ==>
        HandleNew(role, dispatch, w1, m) == HandleKeepAlive(w1, m) by { ClientNew(dispatch, w1, m, role); }
      QuietEffect(w, w', m.id, []);
    } else if m.status == END {
      EndStep(w1, m, f, rest);
      EffectIgnoresStream(w, w1, w', m.id, []);
    } else if m.status == KEEP {
      KeepStep(p, w1, m, f, rest);
      if err' == NoError {
        EffectIgnoresStream(w, w1, w', m.id, Flat(Data(f)));
      }
    } else if dispatch(w.dispatched).None? {
      UnservedNew(dispatch, w1, m);
    } else {
      NewStep(dispatch, w1, m, f, rest);
      EffectIgnoresStream(Before(role, dispatch, w, f), Before(role, dispatch, w1, f), w', m.id, Flat(Data(f)));
    }
  }

  lemma EffectIgnoresStream(w: Worker, w1: Worker, w': Worker, id: uint16, c: Bytes)
    requires w1 == w.(stream := w1.stream) && Effect(w1, w', id, c)
    ensures Effect(w, w', id, c)
  {
  }

  /** The stream is read on, or left alone. */
  ghost predicate Onward(w: Worker, w': Worker) {
    w'.stream.end == w.stream.end && Streams.Work(w'.stream) <= Streams.Work(w.stream)
  }

  /** Every session keeps its output, whatever comes in. */
  lemma HandleLinked(role: Role, p: Parser, dispatch: Dispatcher, w: Worker, m0: Metadata)
    requires Linked(w)
    ensures var (w', m, err) := HandleFrame(role, p, dispatch, w, m0);
            (err == NoError ==> Streams.Work(w'.stream) < Streams.Work(w.stream)) &&
            Linked(w') && w'.table.closed == w.table.closed && Onward(w, w')
  {
    hide Copy, Unmarshal;
    UnmarshalKeepsEnd(p, m0, w.stream);
    var (m, st, err) := Unmarshal(p, m0, w.stream);
    var w1 := w.(stream := st);
    if err == NoError {
      if m.status == KEEP {
        KeepLinked(p, w1, m);
      } else if m.status == NEW {
        NewLinked(role, dispatch, w1, m);
      } else {
        EndLinked(w1, m);
      }
    }
  }

  lemma KeepLinked(p: Parser, w: Worker, m: Metadata)
    requires Linked(w)
    ensures var w' := HandleKeep(p, w, m).0;
            Linked(w') && w'.table.closed == w.table.closed && Onward(w, w')
  {
    hide Copy;
    CopyKeeps(NewReader(false, w.stream), None);
    var g := Get(w.table, m.id);
    if g.Some? {
      var out := Some(w.outs[g.value.out]);
      CopyKeeps(NewReader(g.value.packets, w.stream), out);
      CopyKeeps(Copy(NewReader(g.value.packets, w.stream), out).0, None);
    }
  }

  lemma EndLinked(w: Worker, m: Metadata)
    requires Linked(w)
    ensures forall w' | w' in {HandleEnd(w, m).0, HandleKeepAlive(w, m).0} ::
              Linked(w') && w'.table.closed == w.table.closed && Onward(w, w')
  {
    hide Copy;
    CopyKeeps(NewReader(false, w.stream), None);
  }

  lemma OpenLinked(w: Worker, id: uint16, packets: bool, refuses: nat -> bool)
    requires Linked(w)
    ensures var w1 := OpenSession(w, id, packets, refuses);
            && Linked(w1) && |w1.outs| == |w.outs| + 1 && w1.table.closed == w.table.closed && w1.stream == w.stream
  {
  }

  lemma MovedLinked(w: Worker, st: Streams.State, o: nat, l: Link)
    requires Linked(w) && st.end == w.stream.end && o < |w.outs|
    ensures Linked(w.(stream := st, outs := w.outs[o := l])) && |w.outs[o := l]| == |w.outs|
  {
  }

  lemma ClosedLinked(w: Worker, id: uint16, o: nat)
    requires Linked(w) && o < |w.outs|
    ensures var w1 := CloseSession(w, id, o);
            Linked(w1) && w1.table.closed == w.table.closed && w1.stream == w.stream
  {
  }

  lemma NewLinked(role: Role, dispatch: Dispatcher, w: Worker, m: Metadata)
    requires Linked(w)
    ensures var w' := HandleNew(role, dispatch, w, m).0;
            Linked(w') && w'.table.closed == w.table.closed && Onward(w, w')
  {
    hide Copy;
    EndLinked(w, m);
    CopyKeeps(NewReader(false, w.stream), None);
    if dispatch(w.dispatched).Some? {
      ServeLinked(w.(dispatched := w.dispatched + 1), m, dispatch(w.dispatched).value);
    }
  }

  lemma ServeLinked(w: Worker, m: Metadata, refuses: nat -> bool)
    requires Linked(w)
    ensures var w' := Serve(w, m, refuses);
            Linked(w') && w'.table.closed == w.table.closed && Onward(w, w')
  {
    var packets, o := m.target.network == UDP, |w.outs|;
    OpenLinked(w, m.id, packets, refuses);
    var w1 := OpenSession(w, m.id, packets, refuses);
    assert w1.stream.end != NoError;
    hide Copy, Linked, OpenSession, CloseSession;
    if HasData(m.option) {
      var r0, out0 := NewReader(packets, w1.stream), Some(w1.outs[o]);
      CopyKeeps(r0, out0);
      var (r, out, e) := Copy(r0, out0);
      MovedLinked(w1, StreamOf(r), o, out.value);
      CopyKeeps(r, None);
      var r2 := Copy(r, None).0;
      MovedLinked(w1, StreamOf(r2), o, out.value);
      ClosedLinked(w1.(stream := StreamOf(r2), outs := w1.outs[o := out.value]), m.id, o);
    }
  }

  // ---- What happens between frames ----

  /** A session's own goroutine ends it; a client worker opens a session; the client closes the table. */
  datatype Event = Ended(o: nat, failed: bool) | Opens(packets: bool, refuses: nat -> bool) | Shut

  /** SessionManager.Close: every live session's output is closed too. */
  function CloseAll(w: Worker): Worker
    requires |w.outs| == |w.opens|
  {
    w.(table := Sessions.Close(w.table),
       outs := seq(|w.outs|, i requires 0 <= i < |w.outs| =>
                 if w.opens[i].id in w.table.live && w.table.live[w.opens[i].id].out == i
                 then Links.Close(w.outs[i]) else w.outs[i]))
  }

  /** The id that Allocate hands out next. */
  function NextId(w: Worker): uint16 {
    (w.table.count + 1) % ID_WRAP
  }

  function Apply(p: Parser, w: Worker, e: Event): Worker
    requires |w.outs| == |w.opens|
  {
    match e
    case Ended(o, failed) =>
      if o >= |w.outs| then w else CloseSession(SendEnd(p, w, w.opens[o].id, failed), w.opens[o].id, o)
    case Opens(packets, refuses) =>
      var (t, id) := Allocate(w.table, _ => Sess(packets, |w.outs|));
      if id.None? then w
      else w.(table := t, outs := w.outs + [Link([], 0, false, refuses)], opens := w.opens + [Open(id.value, packets)])
    case Shut => CloseAll(w)
  }

  lemma ApplyLinked(p: Parser, w: Worker, e: Event)
    requires Linked(w)
    ensures Linked(Apply(p, w, e)) && Apply(p, w, e).stream == w.stream
    ensures !e.Shut? ==> Apply(p, w, e).table.closed == w.table.closed
  {
  }

  function ApplyAll(p: Parser, w: Worker, es: seq<Event>): (w': Worker)
    requires |w.outs| == |w.opens|
    ensures |w'.outs| == |w'.opens|
    decreases |es|
  {
    if es == [] then w else ApplyAll(p, Apply(p, w, es[0]), es[1..])
  }

  lemma {:induction false} ApplyAllLinked(p: Parser, w: Worker, es: seq<Event>)
    requires Linked(w)
    ensures Linked(ApplyAll(p, w, es)) && ApplyAll(p, w, es).stream == w.stream
    decreases |es|
  {
    if es != [] {
      ApplyLinked(p, w, es[0]);
      ApplyAllLinked(p, Apply(p, w, es[0]), es[1..]);
    }
  }

  /** The server reads each frame into a new record, the client into the one before. */
  const BLANK: Metadata := Metadata(Destination(None, 0, Unknown), 0, 0, 0)

  /** The loop of run, and of fetchOutput: events, then a frame, for each turn, until a frame fails;
      then the table is closed. Gives the number of frames begun and the last error. */
  ghost function Run(role: Role, p: Parser, dispatch: Dispatcher, w: Worker, m0: Metadata, turns: seq<seq<Event>>)
    : (Worker, nat, Error)
    requires Linked(w)
    decreases |turns|
  {
    if turns == [] then (w, 0, NoError)
    else
      ApplyAllLinked(p, w, turns[0]);
      var w1 := ApplyAll(p, w, turns[0]);
      HandleLinked(role, p, dispatch, w1, m0);
      var (w2, m, err) := HandleFrame(role, p, dispatch, w1, m0);
      if err != NoError then (CloseAll(w2), 1, err)
      else
        var (w3, n, err3) := Run(role, p, dispatch, w2, if role == Server then BLANK else m, turns[1..]);
        (w3, n + 1, err3)
  }

  /** The loop when nothing else happens: frames until one fails. */
  ghost function RunQuiet(role: Role, p: Parser, dispatch: Dispatcher, w: Worker, m0: Metadata): (Worker, nat, Error)
    requires Linked(w)
    decreases Streams.Work(w.stream)
  {
    HandleLinked(role, p, dispatch, w, m0);
    var (w1, m, err) := HandleFrame(role, p, dispatch, w, m0);
    if err != NoError then (CloseAll(w1), 1, err)
    else
      var (w2, n, err2) := RunQuiet(role, p, dispatch, w1, if role == Server then BLANK else m);
      (w2, n + 1, err2)
  }

  /** Turns without events. */
  ghost function Quiet(n: nat): seq<seq<Event>> {
    seq(n, _ => [])
  }

  lemma {:induction false} RunQuietIsRun(role: Role, p: Parser, dispatch: Dispatcher, w: Worker, m0: Metadata)
    requires Linked(w)
    ensures var (w', n, err) := RunQuiet(role, p, dispatch, w, m0);
            err != NoError && n > 0 && Run(role, p, dispatch, w, m0, Quiet(n)) == (w', n, err)
    decreases Streams.Work(w.stream)
  {
    hide HandleFrame, CloseAll;
    HandleLinked(role, p, dispatch, w, m0);
    var (w1, m, err) := HandleFrame(role, p, dispatch, w, m0);
    var n := RunQuiet(role, p, dispatch, w, m0).1;
    assert n > 0;
    assert Quiet(n)[0] == [] && ApplyAll(p, w, []) == w;
    if err == NoError {
      RunQuietIsRun(role, p, dispatch, w1, if role == Server then BLANK else m);
      assert Quiet(n)[1..] == Quiet(n - 1);
    }
  }
}
