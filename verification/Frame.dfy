/** common/mux/frame.go on values: the metadata of a frame and its encoding. */
module Frames {
  import opened Bytes
  import opened Addresses
  import Streams

  const NEW: byte := 1
  const KEEP: byte := 2
  const END: byte := 3
  const KEEP_ALIVE: byte := 4

  const DATA: byte := 1
  const ERROR: byte := 2

  const TARGET_TCP: byte := 1
  const TARGET_UDP: byte := 2

  const MAX_META: nat := 512

  datatype Network = Unknown | RawTCP | TCP | UDP | UNIX

  /** net.Destination; its address may be nil. */
  datatype Destination = Destination(address: Option<Address>, port: uint16, network: Network)

  datatype Metadata = Metadata(target: Destination, id: uint16, option: byte, status: byte)

  /** Option.Has(OptionData). */
  predicate HasData(option: byte) {
    option % 2 == 1
  }

  predicate HasError(option: byte) {
    (option / ERROR) % 2 == 1
  }

  // ---- Writing ----

  /** The network byte: nothing at all for a network that is neither. */
  function NetworkByte(n: Network): Bytes {
    match n
    case TCP => [TARGET_TCP]
    case UDP => [TARGET_UDP]
    case _ => []
  }

  /** WriteTo dereferences the address of a New frame. */
  predicate Writable(m: Metadata) {
    m.status == NEW ==> m.target.address.Some?
  }

  function Head(m: Metadata): Bytes {
    Be16(m.id) + [m.status, m.option]
  }

  /** What follows the length field; None when the address cannot be written. */
  function Body(p: Parser, m: Metadata): Option<Bytes>
    requires Writable(m)
  {
    if m.status != NEW then Some(Head(m))
    else
      var a := WriteAddressPort(p, m.target.address.value, m.target.port);
      if a.None? then None else Some(Head(m) + NetworkByte(m.target.network) + a.value)
  }

  function Encode(p: Parser, m: Metadata): Option<Bytes>
    requires Writable(m)
  {
    var b := Body(p, m);
    if b.None? then None else Some(Be16(|b.value| % 0x1_0000) + b.value)
  }

  /** The addresses in metadata are ones the program can hold. */
  predicate ProperTarget(m: Metadata) {
    m.target.address.Some? ==> Proper(m.target.address.value)
  }

  /** The length never overflows its field, nor comes near the limit that Unmarshal enforces. */
  lemma BodyBound(p: Parser, m: Metadata)
    requires Writable(m) && ProperTarget(m) && Body(p, m).Some?
    ensures 4 <= |Body(p, m).value| <= 264 < MAX_META
  {
  }

  // ---- Reading ----

  /** UnmarshalFromBuffer on the bytes b, into a record that held m. */
  function UnmarshalBytes(p: Parser, m: Metadata, b: Bytes): (Metadata, Error) {
    if |b| < 4 then (m, Failure("insufficient buffer"))
    else
      var m1 := Metadata(m.target.(network := Unknown), FromBe16(b[..2]), b[3], b[2]);
      if m1.status != NEW then (m1, NoError)
      else if |b| < 8 then (m1, Failure("insufficient buffer"))
      else
        match ReadAddressPort(p, b[5..])
        case Bad(err) => (m1, Failure("failed to parse address and port"))
        case Read(ap, rest) =>
          if b[4] == TARGET_TCP then (m1.(target := Destination(ap.0, ap.1, TCP)), NoError)
          else if b[4] == TARGET_UDP then (m1.(target := Destination(ap.0, ap.1, UDP)), NoError)
          else (m1, Failure("unknown network type"))
  }

  /** Unmarshal. */
  function Unmarshal(p: Parser, m: Metadata, st: Streams.State): (Metadata, Streams.State, Error)
    requires st.end != NoError
  {
    var (st1, head, err1) := Streams.ReadFull(st, 2);
    Streams.ReadFullDelivers(st, 2);
    if err1 != NoError then (m, st1, err1)
    else if FromBe16(head) > MAX_META then (m, st1, Failure("invalid metalen"))
    else
      var (st2, b, err2) := Streams.ReadFull(st1, FromBe16(head));
      if err2 != NoError then (m, st2, err2)
      else
        var (m', err) := UnmarshalBytes(p, m, b);
        (m', st2, err)
  }

  /** On any stream, whatever the segmentation: the length, and then as many bytes; a length over the limit
      is an error that takes nothing more, and a stream that is cut off is one that leaves the record alone. */
  lemma UnmarshalTakes(p: Parser, m0: Metadata, st: Streams.State)
    requires st.end != NoError
    ensures var q := Streams.Pending(st);
            var (m, st', err) := Unmarshal(p, m0, st);
            if |q| < 2 then
              m == m0 && err == (if q != [] && st.end == EOF then UnexpectedEOF else st.end)
            else
              var n := 0x100 * q[0] as int + q[1] as int;
              if n > 512 then m == m0 && err == Failure("invalid metalen") && Streams.Pending(st') == q[2..]
              else if |q| < 2 + n then
                m == m0 && err == if |q| > 2 && st.end == EOF then UnexpectedEOF else st.end
              else (m, err) == UnmarshalBytes(p, m0, q[2..2 + n]) && Streams.Pending(st') == q[2 + n..]
  {
    hide Streams.Pending, Streams.ReadFull, UnmarshalBytes;
    var q := Streams.Pending(st);
    Streams.ReadFullDelivers(st, 2);
    var (st1, head, err1) := Streams.ReadFull(st, 2);
    if |q| >= 2 {
      var n := 0x100 * q[0] as int + q[1] as int;
      assert head == [q[0], q[1]] && Streams.Pending(st1) == (head + Streams.Pending(st1))[2..] == q[2..];
      if n <= 512 {
        Streams.ReadFullDelivers(st1, n);
        var (st2, b, err2) := Streams.ReadFull(st1, n);
        assert |q| >= 2 + n ==> b == q[2..][..n] == q[2..2 + n];
        assert |q| >= 2 + n ==> Streams.Pending(st2) == (b + Streams.Pending(st2))[n..] == q[2..][n..] == q[2 + n..];
      }
    }
  }

  /** Which metadata is accepted: four bytes; of a New frame eight, with one of the two networks and an
      address that can be read. What follows in the metadata is passed over. */
  lemma AcceptedIff(p: Parser, m0: Metadata, b: Bytes)
    ensures var (m, err) := UnmarshalBytes(p, m0, b);
            && (err == NoError <==>
                  |b| >= 4 && (b[2] == 1 ==> |b| >= 8 && b[4] in {1, 2} && ReadAddressPort(p, b[5..]).Read?))
            && (err == NoError ==>
                  && m.id == 0x100 * b[0] as int + b[1] as int && m.status == b[2] && m.option == b[3]
                  && (b[2] == 1 ==>
                        && m.target.network == (if b[4] == 1 then TCP else UDP)
                        && (m.target.address, m.target.port) == ReadAddressPort(p, b[5..]).value))
  {
    hide ReadAddressPort;
  }

  // ---- The round trip ----

  /** The target of a New frame survives: its network is one of the two, its address readable. */
  predicate Targeted(p: Parser, m: Metadata) {
    m.status == NEW ==>
      && m.target.network in {TCP, UDP} && m.target.address.Some? && Readable(p, m.target.address.value)
  }

  /** What is left in a record that held m0 once m is read into it: frames without a target leave the
      old address and port behind. */
  function Landed(m0: Metadata, m: Metadata): Metadata {
    if m.status == NEW then m else m.(target := m0.target.(network := Unknown))
  }

  lemma BodyRoundTripIff(p: Parser, m0: Metadata, m: Metadata)
    requires Writable(m) && ProperTarget(m) && Consistent(p) && Body(p, m).Some?
    ensures UnmarshalBytes(p, m0, Body(p, m).value) == (Landed(m0, m), NoError) <==> Targeted(p, m)
    ensures m.status != NEW ==> UnmarshalBytes(p, m0, Body(p, m).value).1 == NoError
  {
    hide ReadAddressPort, WriteAddressPort, Readable;
    var b := Body(p, m).value;
    Be16RoundTrip(m.id);
    assert b[..2] == Be16(m.id) && b[2] == m.status && b[3] == m.option;
    if m.status == NEW {
      var a := WriteAddressPort(p, m.target.address.value, m.target.port).value;
      var t := m.target.address.value;
      AddressPortRoundTripIff(p, t, m.target.port, []);
      assert a + [] == a;
      if m.target.network in {TCP, UDP} {
        assert b[5..] == a;
      }
    }
  }

  /** Unmarshal takes exactly the encoding of a frame off the stream, whatever follows, whatever the
      segmentation, and whether or not it can make sense of it. It gets the frame back if and only if
      the target is one it can read. */
  lemma FrameRoundTripIff(p: Parser, m0: Metadata, m: Metadata, st: Streams.State, suffix: Bytes)
    requires Writable(m) && ProperTarget(m) && Consistent(p) && Encode(p, m).Some?
    requires st.end != NoError && Streams.Pending(st) == Encode(p, m).value + suffix
    ensures |Encode(p, m).value| == 2 + |Body(p, m).value|
    ensures var (m', st', err) := Unmarshal(p, m0, st);
            && Streams.Pending(st') == suffix && st'.end == st.end
            && (m' == Landed(m0, m) && err == NoError <==> Targeted(p, m))
            && (m.status != NEW ==> err == NoError)
  {
    hide Body, UnmarshalBytes, Landed, Targeted, Streams.Pending, Streams.ReadFull;
    BodyBound(p, m);
    var b := Body(p, m).value;
    Be16RoundTrip(|b|);
    Streams.ReadFullDelivers(st, 2);
    var (st1, head, err1) := Streams.ReadFull(st, 2);
    assert (Be16(|b|) + b) + suffix == Be16(|b|) + (b + suffix);
    CutFront(head, Streams.Pending(st1), Be16(|b|), b + suffix);
    assert Be16(|b|)[|head|..] + (b + suffix) == b + suffix;
    Streams.ReadFullDelivers(st1, |b|);
    var (st2, bytes, err2) := Streams.ReadFull(st1, |b|);
    CutFront(bytes, Streams.Pending(st2), b, suffix);
    assert b[|bytes|..] + suffix == suffix;
    BodyRoundTripIff(p, m0, m);
  }
}

/** common/mux/frame.go: the metadata record. */
module FrameRecords {
  import opened Bytes
  import opened Buffers
  import opened Addresses
  import opened Frames
  import opened Readers
  import Streams

  /** binary.BigEndian.PutUint16 on a slice of the buffer. */
  method PutUint16(b: Buffer, at: nat, n: uint16)
    requires b.Valid() && b.start <= at && at + 2 <= b.end
    modifies b.v
    ensures b.Bytes() == old(b.Bytes())[..at - b.start] + Be16(n) + old(b.Bytes())[at - b.start + 2..]
  {
    b.v[at] := n / 0x100;
    b.v[at + 1] := n % 0x100;
  }

  lemma Patched(before: Bytes, hole: Bytes, n: Bytes, body: Bytes)
    requires |hole| == |n| == 2
    ensures var b := before + hole + body;
            b[..|before|] + n + b[|before| + 2..] == before + (n + body)
  {
  }

  class FrameMetadata {
    var target: Destination
    var sessionID: uint16
    var option: byte
    var status: byte

    ghost function Model(): Metadata
      reads this
    {
      Metadata(target, sessionID, option, status)
    }

    /** The zero record. */
    constructor ()
      ensures Model() == Metadata(Destination(None, 0, Unknown), 0, 0, 0)
    {
      target, sessionID, option, status := Destination(None, 0, Unknown), 0, 0, 0;
    }

    constructor With(m: Metadata)
      ensures Model() == m
    {
      target, sessionID, option, status := m.target, m.id, m.option, m.status;
    }

    /** WriteTo: the length field is reserved first and patched at the end. The room has to be there. */
    method WriteTo(p: Parser, b: Buffer) returns (err: Error)
      requires b.Valid() && Writable(Model()) && b.Room() >= 7  // Extend and WriteByte panic otherwise
      requires Encode(p, Model()).Some? ==> |Encode(p, Model()).value| <= b.Room()
      modifies b, b.v
      ensures b.Valid() && b.start == old(b.start)
      ensures err == NoError <==> Encode(p, Model()).Some?
      ensures err == NoError ==> b.Bytes() == old(b.Bytes()) + Encode(p, Model()).value
    {
      hide Body;
      ghost var before := b.Bytes();
      var at := b.end;
      b.Extend([0, 0]);
      var len0 := b.Len();
      err := WriteBody(p, b);
      if err == NoError {
        ghost var body := Body(p, Model()).value;
        var n := (b.Len() - len0) % 0x1_0000;
        assert b.Bytes() == before + [0, 0] + body;
        PutUint16(b, at, n);
        Patched(before, [0, 0], Be16(n), body);
      }
    }

    /** What follows the length field. */
    method WriteBody(p: Parser, b: Buffer) returns (err: Error)
      requires b.Valid() && Writable(Model()) && b.Room() >= 5
      requires Body(p, Model()).Some? ==> |Body(p, Model()).value| <= b.Room()
      modifies b, b.v
      ensures b.Valid() && b.start == old(b.start)
      ensures err == NoError <==> Body(p, Model()).Some?
      ensures err == NoError ==> b.Bytes() == old(b.Bytes()) + Body(p, Model()).value
    {
      hide WriteAddressPort, NetworkByte;
      ghost var before := b.Bytes();
      b.Extend(Be16(sessionID));
      err := b.WriteByte(status);
      err := b.WriteByte(option);
      assert b.Bytes() == before + Head(Model());
      if status == NEW {
        err := WriteTarget(p, b);
        if err == NoError {
          ghost var head, n := Head(Model()), NetworkByte(target.network);
          ghost var a := WriteAddressPort(p, target.address.value, target.port).value;
          Streams.Glue(before, head, n + a);
          Streams.Glue(head, n, a);
        }
      }
    }

    method WriteTarget(p: Parser, b: Buffer) returns (err: Error)
      requires b.Valid() && status == NEW && target.address.Some? && b.Room() >= 1
      requires var a := WriteAddressPort(p, target.address.value, target.port);
               a.Some? ==> b.Room() >= |NetworkByte(target.network)| + |a.value|
      modifies b, b.v
      ensures b.Valid() && b.start == old(b.start)
      ensures var a := WriteAddressPort(p, target.address.value, target.port);
              && (err == NoError <==> a.Some?)
              && (err == NoError ==> b.Bytes() == old(b.Bytes()) + (NetworkByte(target.network) + a.value))
    {
      hide WriteAddressPort;
      match target.network {
        case TCP => err := b.WriteByte(TARGET_TCP);
        case UDP => err := b.WriteByte(TARGET_UDP);
        case _ =>
      }
      err := WriteAddressPortTo(p, b, target.address.value, target.port);
    }

    method UnmarshalFromBuffer(p: Parser, b: Buffer) returns (err: Error)
      requires b.Valid()
      modifies this, b
      ensures b.Valid()
      ensures (Model(), err) == UnmarshalBytes(p, old(Model()), old(b.Bytes()))
    {
      hide ReadAddressPort;
      ghost var bytes := b.Bytes();
      if b.Len() < 4 {
        return Failure("insufficient buffer");
      }
      var head := b.BytesRange(0, 4);
      assert head[..2] == bytes[..2] && head[2] == bytes[2] && head[3] == bytes[3];
      sessionID, status, option := FromBe16(head[..2]), head[2], head[3];
      target := target.(network := Unknown);
      if status == NEW {
        if b.Len() < 8 {
          return Failure("insufficient buffer");
        }
        var network := b.v[b.start + 4];
        assert network == bytes[4];
        b.Advance(5);
        assert b.Bytes() == bytes[5..];
        var a, port;
        a, port, err := ReadAddressPortFrom(p, b);
        if err != NoError {
          return Failure("failed to parse address and port");
        }
        if network == TARGET_TCP {
          target := Destination(a, port, TCP);
        } else if network == TARGET_UDP {
          target := Destination(a, port, UDP);
        } else {
          return Failure("unknown network type");
        }
      }
      err := NoError;
    }

    method Unmarshal(p: Parser, reader: BufferedReader) returns (err: Error)
      requires reader.Valid()
      modifies this, reader.Repr()
      ensures reader.Valid() && reader.Renewed()
      ensures (Model(), reader.Model(), err) == Frames.Unmarshal(p, old(Model()), old(reader.Model()))
    {
      hide UnmarshalBytes, Streams.ReadFull, Streams.Pending, Streams.Delivered;
      Streams.ReadFullDelivers(reader.Model(), 2);
      var head;
      head, err := reader.ReadFull(2);
      if err != NoError {
        return;
      }
      var metaLen := FromBe16(head);
      if metaLen > MAX_META {
        return Failure("invalid metalen");
      }
      Streams.ReadFullDelivers(reader.Model(), metaLen);
      var data;
      data, err := reader.ReadFull(metaLen);
      if err != NoError {
        return;
      }
      label Read:
      var b := NewWith(data);
      err := UnmarshalFromBuffer(p, b);
      reader.Untouched@Read();
    }
  }
}
