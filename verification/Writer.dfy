/** common/buf/writer.go: a writer with an internal buffer in front of a sink. */
module Writers {
  import opened Bytes
  import opened Buffers
  import opened MultiBuffers
  import Links
  import WriteBuffers

  /** The underlying writer: call number i is refused when `refuses(i)`, or after Close; a refused
      call takes nothing, any other takes everything at once. */
  class Sink {
    const refuses: nat -> bool
    const isIoWriter: bool
    var calls: nat
    var closed: bool
    var writes: seq<seq<Bytes>>

    constructor (refuses: nat -> bool, isIoWriter: bool)
      ensures this.refuses == refuses && this.isIoWriter == isIoWriter
      ensures writes == [] && !closed && calls == 0
    {
      this.refuses, this.isIoWriter := refuses, isIoWriter;
      writes, closed, calls := [], false, 0;
    }

    /** Every byte taken so far. */
    ghost function Sent(): Bytes
      reads this
    {
      FlatAll(writes)
    }

    ghost function Model(): Links.Link
      reads this
    {
      Links.Link(writes, calls, closed, refuses)
    }

    predicate Refuses()
      reads this
    {
      closed || refuses(calls)
    }

    ghost predicate AcceptsAll()
      reads this
    {
      !closed && forall i :: i >= calls ==> !refuses(i)
    }

    method WriteMultiBuffer(mb: MultiBuffer) returns (err: Error)
      requires Owned(mb)
      modifies this
      ensures err == NoError <==> !old(Refuses())
      ensures calls == old(calls) + 1 && closed == old(closed)
      ensures writes == if err == NoError then old(writes) + [old(Payloads(mb))] else old(writes)
      ensures (Model(), err) == Links.Send(old(Model()), old(Payloads(mb)))
    {
      if Refuses() {
        err := Failure("write refused");
      } else {
        var ps := Collect(mb);
        Kept(mb);
        writes := writes + [ps];
        err := NoError;
      }
      calls := calls + 1;
      Kept(mb);
    }

    /** io.Writer's Write: the model's sink takes all of `b` or nothing. */
    method Write(b: Bytes) returns (err: Error)
      modifies this
      ensures err == NoError <==> !old(Refuses())
      ensures calls == old(calls) + 1 && closed == old(closed)
      ensures writes == if err == NoError then old(writes) + [[b]] else old(writes)
    {
      if Refuses() {
        err := Failure("write refused");
      } else {
        writes := writes + [[b]];
        err := NoError;
      }
      calls := calls + 1;
    }

    method Close()
      modifies this`closed
      ensures closed
    {
      closed := true;
    }
  }

  method Collect(mb: MultiBuffer) returns (ps: seq<Bytes>)
    requires Owned(mb)
    ensures ps == Payloads(mb)
  {
    ps := [];
    ghost var all := Payloads(mb);
    for i := 0 to |mb|
      invariant Payloads(mb) == all && ps == all[..i]
    {
      var p := mb[i].BytesRange(0, mb[i].Len());
      assert p == all[i];
      ps := ps + [p];
    }
  }

  /** MultiBufferContainer's Read: the first n bytes, and whether anything is left. */
  method ReadOff(mb: MultiBuffer, n: nat) returns (rest: MultiBuffer, data: Bytes, empty: bool)
    requires Owned(mb)
    modifies mb
    ensures |rest| <= |mb| && rest == mb[|mb| - |rest|..] && Owned(rest)
    ensures data == old(Content(mb))[..Min(n, |old(Content(mb))|)]
    ensures Content(rest) == old(Content(mb))[|data|..] && (empty <==> Content(rest) == [])
  {
    ghost var ps := Payloads(mb);
    rest, data := SplitBytes(mb, n);
    DropBytesConserves(ps, n);
    label Split:
    empty := IsEmpty(rest);
    Kept@Split(rest);
  }

  /** BufferedWriter. */
  class BufferedWriter {
    const writer: Sink
    var buffer: Buffer?
    var buffered: bool

    ghost predicate Valid()
      reads this, buffer
    {
      && (buffer != null ==> buffer.Valid() && buffer.start == 0 && buffer.v.Length == SIZE)
      && (buffer != null ==> !buffer.IsFull() && (!buffered ==> buffer.IsEmpty()))
    }

    ghost function Repr(): set<object>
      reads this
    {
      {this, writer} + if buffer == null then {} else {buffer, buffer.v}
    }

    /** The internal buffer is still the old one, or new, or gone. */
    twostate predicate Renewed()
      reads this
    {
      buffer == null || buffer == old(buffer) || (fresh(buffer) && fresh(buffer.v))
    }

    /** Someone else's list: not the internal buffer. */
    ghost predicate Outside(mb: MultiBuffer)
      reads this
    {
      forall b :: b in mb ==> b != buffer && (buffer != null ==> b.v != buffer.v)
    }

    ghost function Buffered(): (b: Bytes)
      requires buffer != null ==> buffer.Valid()
      reads this, buffer, if buffer == null then {} else {buffer.v}
    {
      if buffer == null then [] else buffer.Bytes()
    }

    ghost function Model(): WriteBuffers.State
      requires buffer != null ==> buffer.Valid()
      reads this, writer, buffer, if buffer == null then {} else {buffer.v}
    {
      WriteBuffers.State(writer.writes, Buffered(), buffered)
    }

    constructor (writer: Sink)
      ensures Valid() && this.writer == writer && fresh(Repr() - {writer})
      ensures Model() == WriteBuffers.State(writer.writes, [], true)
    {
      this.writer := writer;
      buffer := new Buffer.New();
      buffered := true;
    }

    /** flushInternal: the buffer is detached before it is written, so a refusal loses its bytes. */
    method FlushInternal() returns (err: Error)
      requires buffer != null ==> buffer.Valid()
      modifies this, writer
      ensures buffer != null ==> buffer == old(buffer) && buffer.IsEmpty()
      ensures buffered == old(buffered) && writer.closed == old(writer.closed)
      ensures old(Buffered()) == [] ==> err == NoError && writer.calls == old(writer.calls)
      ensures err == NoError ==> Model() == WriteBuffers.Flush(old(Model()))
      ensures old(writer.AcceptsAll()) ==> err == NoError && writer.AcceptsAll()
      ensures err != NoError ==> Buffered() == [] && writer.writes == old(writer.writes)
    {
      if buffer == null || buffer.IsEmpty() {
        assert Buffered() == [];
        return NoError;
      }
      var b := buffer;
      buffer := null;
      var content := b.BytesRange(0, b.Len());
      assert content == b.Bytes() == old(Buffered()) != [];
      if writer.isIoWriter {
        err := writer.Write(content);
      } else {
        PayloadsOne(b);
        err := writer.WriteMultiBuffer([b]);
      }
    }
  
    method Flush() returns (err: Error)
      requires Valid()
      modifies this, writer
      ensures Valid() && Renewed()
      ensures err == NoError ==> Model() == WriteBuffers.Flush(old(Model()))
      ensures old(writer.AcceptsAll()) ==> err == NoError && writer.AcceptsAll()
      ensures err != NoError ==> Buffered() == [] && writer.writes == old(writer.writes)
    {
      err := FlushInternal();
    }

    method SetBuffered(f: bool) returns (err: Error)
      requires Valid()
      modifies this, writer
      ensures Valid() && Renewed() && buffered == f
      ensures err == NoError ==> Model() == WriteBuffers.SetBuffered(old(Model()), f)
      ensures old(writer.AcceptsAll()) ==> err == NoError && writer.AcceptsAll()
      ensures err != NoError ==> Buffered() == [] && writer.writes == old(writer.writes)
    {
      buffered := f;
      if !f {
        err := FlushInternal();
      } else {
        err := NoError;
      }
    }

    /** One turn of the copy loops: put as much of `b` as fits in the buffer, and send it off when it
        is full or nothing may be kept back. */
    method Fill(b: Bytes) returns (n: nat, err: Error)
      requires Valid() && b != []
      modifies Repr()
      ensures Valid() && Renewed() && buffered == old(buffered)
      ensures n == WriteBuffers.Piece(old(Model()), b) > 0
      ensures err == NoError ==> Model() == WriteBuffers.Turn(old(Model()), b)
      ensures old(writer.AcceptsAll()) ==> err == NoError && writer.AcceptsAll()
      ensures err != NoError ==> Buffered() == [] && writer.writes == old(writer.writes)
    {
      if buffer == null {
        buffer := new Buffer.New();
        assert Buffered() == [];
      }
      n := buffer.Write(b);
      if !buffered || buffer.IsFull() {
        err := FlushInternal();
      } else {
        err := NoError;
      }
    }

    /** Write. */
    method Write(b: Bytes) returns (n: nat, err: Error)
      requires Valid()
      modifies Repr()
      ensures Valid() && Renewed() && n <= |b| && buffered == old(buffered)
      ensures err == NoError ==>
                n == |b| && Model() == WriteBuffers.Write(old(Model()), writer.isIoWriter, b)
      ensures old(writer.AcceptsAll()) ==> err == NoError && writer.AcceptsAll()
      ensures err != NoError ==>
                && Buffered() == []
                && n == (if !buffered && writer.isIoWriter then 0
                         else WriteBuffers.Taken(old(Model()), b, writer.writes))
                && writer.writes <= WriteBuffers.Write(old(Model()), writer.isIoWriter, b).sent
      ensures err != NoError ==> writer.Sent() <= (old(WriteBuffers.Accepted(Model())) + b)
    {
      if |b| == 0 {
        return 0, NoError;
      }
      if !buffered && writer.isIoWriter {
        err := writer.Write(b);
        n := if err == NoError then |b| else 0;
        return;
      }
      n, err := PourBytes(b);
    }

    method PourBytes(b: Bytes) returns (n: nat, err: Error)
      requires Valid()
      modifies Repr()
      ensures Valid() && Renewed() && n <= |b| && buffered == old(buffered)
      ensures err == NoError ==> n == |b| && Model() == WriteBuffers.Pour(old(Model()), b)
      ensures old(writer.AcceptsAll()) ==> err == NoError && writer.AcceptsAll()
      ensures err != NoError ==>
                && Buffered() == [] && n == WriteBuffers.Taken(old(Model()), b, writer.writes)
                && writer.writes <= WriteBuffers.Pour(old(Model()), b).sent
                && writer.Sent() <= old(WriteBuffers.Accepted(Model())) + b
    {
      hide Payloads, Flat;
      n := 0;
      err := NoError;
      ghost var st0 := Model();
      assert b[0..] == b;
      while n < |b|
        invariant Valid() && Renewed() && err == NoError && n <= |b|
        invariant WriteBuffers.Pouring(st0, Model(), b, b[n..])
        invariant old(writer.AcceptsAll()) ==> writer.AcceptsAll()
      {
        ghost var st := Model();
        WriteBuffers.PouringStep(st0, st, b, b[n..]);
        WriteBuffers.TakenThere(st0, st, b, b[n..]);
        var k;
        k, err := Fill(b[n..]);
        assert b[n..][k..] == b[n + k..];
        n := n + k;
        if err != NoError {
          return;
        }
      }
    }

    /** WriteMultiBuffer; what is left of the list after a refusal is released. */
    method WriteMultiBuffer(mb: MultiBuffer) returns (err: Error)
      requires Valid() && Owned(mb) && Outside(mb)
      modifies Repr(), mb
      ensures Valid() && Renewed() && buffered == old(buffered)
      ensures err == NoError ==> Model() == WriteBuffers.WriteMultiBuffer(old(Model()), old(Payloads(mb)))
      ensures old(writer.AcceptsAll()) ==> err == NoError && writer.AcceptsAll()
      ensures err != NoError ==>
                && Buffered() == []
                && writer.writes <= WriteBuffers.WriteMultiBuffer(old(Model()), old(Payloads(mb))).sent
      ensures err != NoError ==> writer.Sent() <= old(WriteBuffers.Accepted(Model()) + Content(mb))
    {
      var empty := IsEmpty(mb);
      Kept(mb);
      if empty {
        return NoError;
      }
      if !buffered {
        err := writer.WriteMultiBuffer(mb);
        return;
      }
      err := PourAll(mb);
    }

    method PourAll(mb: MultiBuffer) returns (err: Error)
      requires Valid() && buffered && Owned(mb) && Outside(mb)
      modifies Repr(), mb
      ensures Valid() && Renewed() && buffered
      ensures err == NoError ==> Model() == WriteBuffers.Pour(old(Model()), old(Content(mb)))
      ensures old(writer.AcceptsAll()) ==> err == NoError && writer.AcceptsAll()
      ensures err != NoError ==>
                Buffered() == [] && writer.writes <= WriteBuffers.Pour(old(Model()), old(Content(mb))).sent
      ensures err != NoError ==> writer.Sent() <= old(WriteBuffers.Accepted(Model()) + Content(mb))
    {
      hide Payloads, Flat;
      var left := mb;
      ghost var st0, all, rest := Model(), Content(mb), Content(mb);
      var empty := IsEmpty(left);
      Kept(mb);
      err := NoError;
      while !empty && err == NoError
        invariant Valid() && Renewed()
        invariant Owned(left) && Outside(left) && |left| <= |mb| && left == mb[|mb| - |left|..]
        invariant Progress(st0, all, rest, err)
        invariant err == NoError ==> Content(left) == rest && (empty <==> rest == [])
        invariant old(writer.AcceptsAll()) ==> err == NoError && writer.AcceptsAll()
        decreases |rest|
      {
        left, empty, err, rest := PourSome(left, st0, all, rest);
      }
      if err != NoError {
        ReleaseMulti(left);
      }
    }

    /** Where the copy loop stands: `rest` of `all` still to pour, or a refusal. */
    ghost predicate Progress(st0: WriteBuffers.State, all: Bytes, rest: Bytes, err: Error)
      requires Valid()
      reads this, buffer, Repr()
    {
      && buffered && WriteBuffers.Settled(st0)
      && if err == NoError then WriteBuffers.Pouring(st0, Model(), all, rest)
         else
           && Buffered() == [] && writer.Sent() <= WriteBuffers.Accepted(st0) + all
           && writer.writes <= WriteBuffers.Pour(st0, all).sent
    }

    method PourSome(mb: MultiBuffer, ghost st0: WriteBuffers.State, ghost all: Bytes, ghost data: Bytes)
      returns (left: MultiBuffer, empty: bool, err: Error, ghost rest: Bytes)
      requires Valid() && Owned(mb) && Outside(mb) && Content(mb) == data != []
      requires Progress(st0, all, data, NoError)
      modifies Repr(), mb
      ensures Valid() && Renewed() && Progress(st0, all, rest, err) && |rest| < |data|
      ensures Owned(left) && Outside(left) && |left| <= |mb| && left == mb[|mb| - |left|..]
      ensures Content(left) == rest && (empty <==> rest == [])
      ensures old(writer.AcceptsAll()) ==> err == NoError && writer.AcceptsAll()
    {
      ghost var st := Model();
      WriteBuffers.PouringStep(st0, st, all, data);
      WriteBuffers.PourAdds(st, data);
      left, empty, err, rest := PourPart(mb, data);
    }

    /** ReadFrom into the buffer, then send the buffer off if it is full. */
    method PourPart(mb: MultiBuffer, ghost data: Bytes)
      returns (left: MultiBuffer, empty: bool, err: Error, ghost rest: Bytes)
      requires Valid() && buffered && Owned(mb) && Outside(mb) && Content(mb) == data != []
      modifies Repr(), mb
      ensures Valid() && Renewed() && buffered
      ensures rest == data[WriteBuffers.Piece(old(Model()), data)..] && |rest| < |data|
      ensures Owned(left) && Outside(left) && |left| <= |mb| && left == mb[|mb| - |left|..]
      ensures Content(left) == rest && (empty <==> rest == [])
      ensures err == NoError ==> Model() == WriteBuffers.Turn(old(Model()), data)
      ensures old(writer.AcceptsAll()) ==> err == NoError && writer.AcceptsAll()
      ensures err != NoError ==> Buffered() == [] && writer.writes == old(writer.writes)
    {
      var part;
      left, part, empty := TakePart(mb, data);
      rest := data[|part|..];
      WriteBuffers.TurnPiece(Model(), data);
      err := FillBeside(part, left);
    }

    /** Fill, seen next to a list it does not touch. */
    method FillBeside(part: Bytes, ghost left: MultiBuffer) returns (err: Error)
      requires Valid() && part != [] && |part| == WriteBuffers.Piece(Model(), part)
      requires Owned(left) && Outside(left)
      modifies Repr()
      ensures Valid() && Renewed() && buffered == old(buffered)
      ensures Owned(left) && Outside(left) && Payloads(left) == old(Payloads(left))
      ensures err == NoError ==> Model() == WriteBuffers.Turn(old(Model()), part)
      ensures old(writer.AcceptsAll()) ==> err == NoError && writer.AcceptsAll()
      ensures err != NoError ==> Buffered() == [] && writer.writes == old(writer.writes)
    {
      var k;
      k, err := Fill(part);
      Kept(left);
    }

    /** The bytes the buffer has room for, read off the list. */
    method TakePart(mb: MultiBuffer, ghost data: Bytes) returns (left: MultiBuffer, part: Bytes, empty: bool)
      requires Valid() && Owned(mb) && Outside(mb) && Content(mb) == data != []
      modifies mb
      ensures Valid() && Model() == old(Model())
      ensures Owned(left) && |left| <= |mb| && left == mb[|mb| - |left|..]
      ensures part == data[..WriteBuffers.Piece(Model(), data)] != []
      ensures Content(left) == data[|part|..] && (empty <==> data[|part|..] == [])
    {
      var room := if buffer == null then SIZE else buffer.Room();
      left, part, empty := ReadOff(mb, room);
      assert Buffered() == old(Buffered());
    }
  }
}
