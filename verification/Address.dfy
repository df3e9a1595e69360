/** common/protocol/address.go: ports and addresses on the wire. */
module Addresses {
  import opened Bytes
  import opened Buffers
  import Streams

  datatype Family = IPv4Family | IPv6Family | DomainFamily

  datatype Address = IPv4(ip: Bytes) | IPv6(ip: Bytes) | Domain(name: Bytes) {
    function Family(): Family {
      match this
      case IPv4(_) => IPv4Family
      case IPv6(_) => IPv6Family
      case Domain(_) => DomainFamily
    }
  }

  /** An IPv4 address in IPv6 clothes: ten zeros and two 0xff in front. */
  predicate Mapped(ip: Bytes) {
    |ip| == 16 && ip[10] == 0xff && ip[11] == 0xff && forall i :: 0 <= i < 10 ==> ip[i] == 0
  }

  /** net.IPAddress; None is its nil. It is the only way to make an IP address. */
  function IPAddress(ip: Bytes): Option<Address> {
    if |ip| == 4 then Some(IPv4(ip))
    else if |ip| != 16 then None
    else if Mapped(ip) then Some(IPv4(ip[12..]))
    else Some(IPv6(ip))
  }

  /** The addresses the program can hold. */
  predicate Proper(a: Address) {
    match a
    case IPv4(ip) => |ip| == 4
    case IPv6(ip) => |ip| == 16 && !Mapped(ip)
    case Domain(_) => true
  }

  predicate MaybeIPPrefix(b: byte) {
    b == '[' as int || '0' as int <= b <= '9' as int
  }

  predicate DomainByte(c: byte) {
    || '0' as int <= c <= '9' as int || 'a' as int <= c <= 'z' as int || 'A' as int <= c <= 'Z' as int
    || c == '-' as int || c == '.' as int || c == '_' as int
  }

  predicate IsValidDomain(d: Bytes) {
    forall i :: 0 <= i < |d| ==> DomainByte(d[i])
  }

  /** The tables of an addressParser, the order of port and address, and net.ParseAddress, which this
      model does not look into. */
  datatype Parser = Parser(
    familyOf: map<byte, Family>,
    byteOf: map<Family, byte>,
    portFirst: bool,
    parse: Bytes -> Address)

  /** Every type byte written is read as the family it was written for. */
  predicate Consistent(p: Parser) {
    forall f :: f in p.byteOf ==> p.byteOf[f] < 16 && p.byteOf[f] in p.familyOf && p.familyOf[p.byteOf[f]] == f
  }

  // ---- Writing ----

  function WriteAddress(p: Parser, a: Address): Option<Bytes> {
    if a.Family() !in p.byteOf then None
    else
      var tb := p.byteOf[a.Family()];
      match a
      case IPv4(ip) => Some([tb] + ip)
      case IPv6(ip) => Some([tb] + ip)
      case Domain(name) => if |name| > 255 then None else Some([tb, |name|] + name)
  }

  function WriteAddressPort(p: Parser, a: Address, port: uint16): Option<Bytes> {
    var b := WriteAddress(p, a);
    if b.None? then None else Some(if p.portFirst then Be16(port) + b.value else b.value + Be16(port))
  }

  // ---- Reading ----

  datatype Reading<+T> = Read(value: T, rest: Bytes) | Bad(err: Error)

  /** The domain name read, or the IP address it spells. A name of length 0 is taken from the front of
      the scratch buffer instead: `got` is what was read before the name. */
  function NameAddress(p: Parser, got: Bytes, name: Bytes): Option<Address>
    requires |got| > 0
  {
    var domain := if name == [] then got else name;
    if MaybeIPPrefix(domain[0]) && !p.parse(domain).Domain? then Some(p.parse(domain))
    else if !IsValidDomain(domain) then None
    else Some(Domain(domain))
  }

  function Short(src: Bytes, n: nat): Error {
    Streams.FullError(src, EOF, n)
  }

  /** readAddress: `got` is what is in the scratch buffer already. */
  function ReadAddress(p: Parser, got: Bytes, src: Bytes): Reading<Option<Address>> {
    if |src| < 1 then Bad(EOF)
    else if src[0] >= 16 || src[0] !in p.familyOf then Bad(Failure("unknown address type"))
    else
      match p.familyOf[src[0]]
      case IPv4Family => if |src| < 5 then Bad(Short(src[1..], 4)) else Read(IPAddress(src[1..5]), src[5..])
      case IPv6Family => if |src| < 17 then Bad(Short(src[1..], 16)) else Read(IPAddress(src[1..17]), src[17..])
      case DomainFamily =>
        if |src| < 2 then Bad(EOF)
        else if |src| < 2 + src[1] as int then Bad(Short(src[2..], src[1]))
        else
          var a := NameAddress(p, got + src[..2], src[2..2 + src[1] as int]);
          if a.None? then Bad(Failure("invalid domain name")) else Read(a, src[2 + src[1] as int..])
  }

  function ReadAddressPort(p: Parser, src: Bytes): Reading<(Option<Address>, uint16)> {
    if p.portFirst then
      if |src| < 2 then Bad(Short(src, 2))
      else
        match ReadAddress(p, src[..2], src[2..])
        case Bad(err) => Bad(err)
        case Read(a, rest) => Read((a, FromBe16(src[..2])), rest)
    else
      match ReadAddress(p, [], src)
      case Bad(err) => Bad(err)
      case Read(a, rest) =>
        if |rest| < 2 then Bad(Short(rest, 2)) else Read((a, FromBe16(rest[..2])), rest[2..])
  }

  // ---- The round trip ----

  /** An address that the reader takes for itself: any IP, and a domain name that is not empty, is made
      of the characters of names, and does not spell an IP. */
  predicate Readable(p: Parser, a: Address) {
    match a
    case IPv4(_) => true
    case IPv6(_) => true
    case Domain(name) =>
      |name| > 0 && IsValidDomain(name) && (MaybeIPPrefix(name[0]) ==> p.parse(name).Domain?)
  }

  /** The reading failed, or what was read is something else. */
  predicate Misread<T(==)>(r: Reading<T>, value: T) {
    r.Bad? || r.value != value
  }

  lemma AddressRoundTripIff(p: Parser, a: Address, got: Bytes, suffix: Bytes)
    requires Consistent(p) && Proper(a) && WriteAddress(p, a).Some?
    ensures var r := ReadAddress(p, got, WriteAddress(p, a).value + suffix);
            if Readable(p, a) then r == Read(Some(a), suffix) else Misread(r, Some(a))
  {
    var w := WriteAddress(p, a).value;
    var src := w + suffix;
    assert src[0] == p.byteOf[a.Family()];
    match a
    case IPv4(ip) =>
      assert src[1..5] == ip && src[5..] == suffix;
    case IPv6(ip) =>
      assert src[1..17] == ip && src[17..] == suffix;
    case Domain(name) =>
      assert src[1] == |name| && src[2..2 + |name|] == name && src[2 + |name|..] == suffix;
  }

  /** What is written is read back exactly, whatever follows it, if and only if the address is readable. */
  lemma AddressPortRoundTripIff(p: Parser, a: Address, port: uint16, suffix: Bytes)
    requires Consistent(p) && Proper(a) && WriteAddressPort(p, a, port).Some?
    ensures var r := ReadAddressPort(p, WriteAddressPort(p, a, port).value + suffix);
            if Readable(p, a) then r == Read((Some(a), port), suffix) else Misread(r, (Some(a), port))
    ensures 4 <= |WriteAddressPort(p, a, port).value| <= 259
  {
    var w := WriteAddress(p, a).value;
    Be16RoundTrip(port);
    var src := WriteAddressPort(p, a, port).value + suffix;
    if p.portFirst {
      assert src[..2] == Be16(port) && src[2..] == w + suffix;
      AddressRoundTripIff(p, a, Be16(port), suffix);
    } else {
      assert src == w + (Be16(port) + suffix);
      AddressRoundTripIff(p, a, [], Be16(port) + suffix);
      assert (Be16(port) + suffix)[..2] == Be16(port) && (Be16(port) + suffix)[2..] == suffix;
    }
  }

  /** The other way round, for any bytes: what is read as an address has a known type in front and its full
      length behind it, and writing it gives back exactly what was read; but for an IPv6 address that is an
      IPv4 address in disguise, a name that spells an IP, and a name of length 0. */
  lemma ReadIsWritten(p: Parser, got: Bytes, src: Bytes)
    requires forall t :: t in p.familyOf && t < 16 ==> p.familyOf[t] in p.byteOf && p.byteOf[p.familyOf[t]] == t
    ensures match ReadAddress(p, got, src)
            case Bad(_) => true
            case Read(a, rest) =>
              && a.Some? && |src| > |rest| && src[|src| - |rest|..] == rest
              && src[0] < 16 && src[0] in p.familyOf
              && (a.value.Family() == p.familyOf[src[0]] && (a.value.Domain? ==> src[1] > 0) ==>
                    WriteAddress(p, a.value) == Some(src[..|src| - |rest|]))
              && (a.value.Family() != p.familyOf[src[0]] ==>
                    p.familyOf[src[0]] == DomainFamily || (p.familyOf[src[0]] == IPv6Family && Mapped(src[1..17])))
  {
    if |src| > 0 && src[0] < 16 && src[0] in p.familyOf {
      match p.familyOf[src[0]]
      case IPv4Family =>
        assert |src| >= 5 ==> src[..5] == [src[0]] + src[1..5];
      case IPv6Family =>
        assert |src| >= 17 ==> src[..17] == [src[0]] + src[1..17];
      case DomainFamily =>
        if |src| >= 2 && |src| >= 2 + src[1] as int {
          assert src[..2 + src[1] as int] == [src[0], src[1]] + src[2..2 + src[1] as int];
        }
    }
  }

  /** What is read is an address that the program can hold, as long as the parser of names makes only such;
      an IPv6 address that is an IPv4 address in disguise is read as that. */
  lemma ReadIsProper(p: Parser, got: Bytes, src: Bytes)
    requires forall d :: Proper(p.parse(d))
    ensures match ReadAddress(p, got, src)
            case Bad(_) => true
            case Read(a, rest) =>
              && a.Some? && Proper(a.value)
              && (p.familyOf[src[0]] == IPv6Family && Mapped(src[1..17]) ==> a.value == IPv4(src[13..17]))
  {
  }

  /** Where the fields of an address begin and end: a type, the length of a name, and the address itself. */
  predicate Boundary(a: Address, n: nat) {
    n <= 1 || (a.Domain? && n == 2)
  }

  /** An address that is cut off is not read at all, and the error says so: a clean end if the cut is between
      two fields, an unexpected one within one. */
  lemma CutAddress(p: Parser, a: Address, got: Bytes, w: Bytes)
    requires Consistent(p) && Proper(a) && WriteAddress(p, a).Some? && w < WriteAddress(p, a).value
    ensures ReadAddress(p, got, w) == Bad(if Boundary(a, |w|) then EOF else UnexpectedEOF)
  {
    assert w != [] ==> w[0] == p.byteOf[a.Family()];
  }

  /** With its port, in front of it or behind. */
  lemma CutAddressPort(p: Parser, a: Address, port: uint16, w: Bytes)
    requires Consistent(p) && Readable(p, a) && Proper(a)
    requires WriteAddressPort(p, a, port).Some? && w < WriteAddressPort(p, a, port).value
    ensures var n := |WriteAddress(p, a).value|;
            var between := if p.portFirst then |w| == 0 || (|w| >= 2 && Boundary(a, |w| - 2))
                           else |w| == n || (|w| < n && Boundary(a, |w|));
            ReadAddressPort(p, w) == Bad(if between then EOF else UnexpectedEOF)
  {
    var b := WriteAddress(p, a).value;
    if p.portFirst {
      if |w| >= 2 {
        assert w[2..] == (Be16(port) + b)[..|w|][2..] == b[..|w| - 2];
        CutAddress(p, a, w[..2], w[2..]);
      }
    } else if |w| < |b| {
      assert w == (b + Be16(port))[..|w|] == b[..|w|];
      CutAddress(p, a, [], w);
    } else {
      assert w == (b + Be16(port))[..|w|] == b + Be16(port)[..|w| - |b|];
      AddressRoundTripIff(p, a, [], Be16(port)[..|w| - |b|]);
    }
  }

  // ---- On buffers ----

  /** Buffer.ReadFullFrom with another buffer as the reader. */
  method ReadFullFrom(b: Buffer, src: Buffer, n: nat) returns (err: Error)
    requires b.Valid() && src.Valid() && b != src && b.v != src.v
    modifies b, b.v, src
    ensures b.Valid() && src.Valid() && b.start == old(b.start)
    ensures n > old(b.Room()) ==>
              err == Failure("out of bound") && b.Bytes() == old(b.Bytes()) && src.Bytes() == old(src.Bytes())
    ensures n <= old(b.Room()) ==>
              && err == Short(old(src.Bytes()), n)
              && b.Bytes() == old(b.Bytes()) + old(src.Bytes())[..Min(n, |old(src.Bytes())|)]
              && src.Bytes() == old(src.Bytes())[Min(n, |old(src.Bytes())|)..]
  {
    if n > b.Room() {
      return Failure("out of bound");
    }
    err := NoError;
    if n > 0 {
      var part;
      part, err := src.Read(n);
      b.Extend(part);
      if err == NoError && |part| < n {
        err := UnexpectedEOF;
      }
    }
  }

  /** As much of w as there is room for: Write on a buffer drops the rest without a word. */
  function Fitting(w: Bytes, room: nat): Bytes {
    w[..Min(|w|, room)]
  }

  /** writeAddress. */
  method WriteAddressTo(p: Parser, b: Buffer, a: Address) returns (err: Error)
    requires b.Valid()
    modifies b, b.v
    ensures b.Valid() && b.start == old(b.start)
    ensures err == NoError <==> WriteAddress(p, a).Some?
    ensures b.Bytes() ==
              old(b.Bytes()) + if err == NoError then Fitting(WriteAddress(p, a).value, old(b.Room())) else []
  {
    if a.Family() !in p.byteOf {
      return Failure("unknown address family");
    }
    var tb := p.byteOf[a.Family()];
    match a {
      case IPv4(ip) => WriteTwo(b, [tb], ip);
      case IPv6(ip) => WriteTwo(b, [tb], ip);
      case Domain(name) =>
        if |name| > 255 {
          return Failure("Super long domain is not supported");
        }
        WriteTwo(b, [tb, |name|], name);
    }
    err := NoError;
  }

  lemma FittingTwo(head: Bytes, tail: Bytes, room: nat)
    ensures Fitting(head, room) + Fitting(tail, room - |Fitting(head, room)|) == Fitting(head + tail, room)
  {
  }

  method WriteFitting(b: Buffer, w: Bytes)
    requires b.Valid()
    modifies b, b.v
    ensures b.Valid() && b.start == old(b.start) && b.Bytes() == old(b.Bytes()) + Fitting(w, old(b.Room()))
  {
    var n := b.Write(w);
  }

  method WriteTwo(b: Buffer, head: Bytes, tail: Bytes)
    requires b.Valid()
    modifies b, b.v
    ensures b.Valid() && b.start == old(b.start) && b.Bytes() == old(b.Bytes()) + Fitting(head + tail, old(b.Room()))
  {
    ghost var before, room := b.Bytes(), b.Room();
    WriteFitting(b, head);
    WriteFitting(b, tail);
    FittingTwo(head, tail, room);
    assert b.Bytes() == before + Fitting(head + tail, room);
  }

  method WriteAddressPortTo(p: Parser, b: Buffer, a: Address, port: uint16) returns (err: Error)
    requires b.Valid()
    modifies b, b.v
    ensures b.Valid() && b.start == old(b.start)
    ensures err == NoError <==> WriteAddressPort(p, a, port).Some?
    ensures err == NoError ==>
              b.Bytes() == old(b.Bytes()) + Fitting(WriteAddressPort(p, a, port).value, old(b.Room()))
  {
    hide WriteAddress, Fitting;
    ghost var before, room, w := b.Bytes(), b.Room(), WriteAddress(p, a);
    if p.portFirst {
      WriteFitting(b, Be16(port));
      err := WriteAddressTo(p, b, a);
      if err == NoError {
        FittingTwo(Be16(port), w.value, room);
        assert b.Bytes() == before + Fitting(Be16(port) + w.value, room);
      }
    } else {
      err := WriteAddressTo(p, b, a);
      if err == NoError {
        WriteFitting(b, Be16(port));
        FittingTwo(w.value, Be16(port), room);
        assert b.Bytes() == before + Fitting(w.value + Be16(port), room);
      }
    }
  }

  /** readPort. */
  method ReadPort(b: Buffer, src: Buffer) returns (port: uint16, err: Error)
    requires b.Valid() && src.Valid() && b != src && b.v != src.v && b.Room() >= 2
    modifies b, b.v, src
    ensures b.Valid() && src.Valid() && b.start == old(b.start)
    ensures err == Short(old(src.Bytes()), 2)
    ensures err == NoError ==>
              && port == FromBe16(old(src.Bytes())[..2]) && src.Bytes() == old(src.Bytes())[2..]
              && b.Bytes() == old(b.Bytes()) + old(src.Bytes())[..2]
  {
    err := ReadFullFrom(b, src, 2);
    if err != NoError {
      return 0, err;
    }
    var bytes := b.BytesRange(-2, b.Len());
    port := FromBe16(bytes);
  }

  /** What a reading method reports, and where it leaves its source. */
  ghost predicate Reports<T>(r: Reading<T>, value: T, err: Error, rest: Bytes) {
    match r
    case Read(v, left) => err == NoError && value == v && rest == left
    case Bad(e) => err == e != NoError
  }

  method ReadIP(b: Buffer, src: Buffer, n: nat) returns (a: Option<Address>, err: Error)
    requires b.Valid() && src.Valid() && b != src && b.v != src.v && n > 0
    modifies b, b.v, src
    ensures b.Valid() && src.Valid() && b.start == old(b.start) && b.Room() >= old(b.Room()) - n
    ensures var all := old(src.Bytes());
            && err == (if n > old(b.Room()) then Failure("out of bound") else Short(all, n))
            && (err == NoError ==> |all| >= n && a == IPAddress(all[..n]) && src.Bytes() == all[n..])
  {
    ghost var all := src.Bytes();
    a := None;
    err := ReadFullFrom(b, src, n);
    if err == NoError {
      var ip := b.BytesRange(-(n as int), b.Len());
      assert ip == all[..n];
      a := IPAddress(ip);
    }
  }

  lemma Slices(all: Bytes, i: nat, n: nat)
    requires i + n <= |all|
    ensures all[i..][..n] == all[i..i + n] && all[i..][n..] == all[i + n..]
  {
  }

  /** readAddress comes to a place where the scratch buffer has no room for what is to be read next. */
  predicate Cramped(p: Parser, src: Bytes, room: nat) {
    room < 1 ||
    (&& |src| >= 1 && src[0] < 16 && src[0] in p.familyOf
     && match p.familyOf[src[0]]
        case IPv4Family => room < 5
        case IPv6Family => room < 17
        case DomainFamily => room < 2 || (|src| >= 2 && room < 2 + src[1] as int))
  }

  /** readAddress, with the scratch buffer b. */
  method ReadAddressFrom(p: Parser, b: Buffer, src: Buffer) returns (a: Option<Address>, err: Error)
    requires b.Valid() && src.Valid() && b != src && b.v != src.v
    modifies b, b.v, src
    ensures b.Valid() && src.Valid() && b.start == old(b.start) && b.Room() >= old(b.Room()) - 257
    ensures if Cramped(p, old(src.Bytes()), old(b.Room())) then err == Failure("out of bound")
            else Reports(ReadAddress(p, old(b.Bytes()), old(src.Bytes())), a, err, src.Bytes())
  {
    hide NameAddress;
    ghost var got, all := b.Bytes(), src.Bytes();
    a := None;
    err := ReadFullFrom(b, src, 1);
    if err != NoError {
      return;
    }
    var t := b.v[b.end - 1];
    assert t == all[0] by { assert b.Bytes()[|got|] == all[0]; }
    if t >= 16 || t !in p.familyOf {
      return None, Failure("unknown address type");
    }
    match p.familyOf[t]
    case IPv4Family =>
      a, err := ReadIP(b, src, 4);
      if |all| >= 5 { Slices(all, 1, 4); }
    case IPv6Family =>
      a, err := ReadIP(b, src, 16);
      if |all| >= 17 { Slices(all, 1, 16); }
    case DomainFamily =>
      assert b.Bytes() == got + all[..1] && src.Bytes() == all[1..];
      a, err := ReadDomain(p, b, src, got, all);
  }

  lemma DomainReading(p: Parser, got: Bytes, all: Bytes)
    requires |all| > 0 && all[0] < 16 && all[0] in p.familyOf && p.familyOf[all[0]] == DomainFamily
    ensures ReadAddress(p, got, all) ==
              if |all| < 2 then Bad(EOF)
              else if |all| < 2 + all[1] as int then Bad(Short(all[2..], all[1]))
              else
                var a := NameAddress(p, got + all[..2], all[2..2 + all[1] as int]);
                if a.None? then Bad(Failure("invalid domain name")) else Read(a, all[2 + all[1] as int..])
  {
  }

  /** readAddress once the family is known to be a domain name. */
  method ReadDomain(p: Parser, b: Buffer, src: Buffer, ghost got: Bytes, ghost all: Bytes)
    returns (a: Option<Address>, err: Error)
    requires b.Valid() && src.Valid() && b != src && b.v != src.v
    requires |all| > 0 && all[0] < 16 && all[0] in p.familyOf && p.familyOf[all[0]] == DomainFamily
    requires b.Bytes() == got + all[..1] && src.Bytes() == all[1..]
    modifies b, b.v, src
    ensures b.Valid() && src.Valid() && b.start == old(b.start) && b.Room() >= old(b.Room()) - 256
    ensures if old(b.Room()) < 1 || (|all| >= 2 && old(b.Room()) < 1 + all[1] as int)
            then err == Failure("out of bound")
            else Reports(ReadAddress(p, got, all), a, err, src.Bytes())
  {
    DomainReading(p, got, all);
    hide ReadAddress, NameAddress;
    a := None;
    err := ReadFullFrom(b, src, 1);
    if err != NoError {
      return;
    }
    assert b.Bytes() == got + all[..2] && src.Bytes() == all[2..];
    a, err := ReadName(p, b, src, got + all[..2]);
    if |all| >= 2 + all[1] as int { Slices(all, 2, all[1]); }
  }

  /** readAddress once the length of the domain name is read. */
  method ReadName(p: Parser, b: Buffer, src: Buffer, ghost got: Bytes) returns (a: Option<Address>, err: Error)
    requires b.Valid() && src.Valid() && b != src && b.v != src.v
    requires |got| > 0 && b.Bytes() == got
    modifies b, b.v, src
    ensures b.Valid() && src.Valid() && b.start == old(b.start) && b.Room() >= old(b.Room()) - 255
    ensures var n, all := got[|got| - 1], old(src.Bytes());
            if n > old(b.Room()) then err == Failure("out of bound")
            else if |all| < n then err == Short(all, n)
            else var r := NameAddress(p, got, all[..n]);
                 if r.None? then err == Failure("invalid domain name")
                 else err == NoError && a == r && src.Bytes() == all[n..]
  {
    ghost var all := src.Bytes();
    a := None;
    var n := b.v[b.end - 1];
    assert n == got[|got| - 1];
    err := ReadFullFrom(b, src, n);
    if err != NoError {
      return;
    }
    assert b.Bytes() == got + all[..n] && src.Bytes() == all[n..];
    var domain := b.BytesRange(-(n as int), b.Len());
    assert domain == b.Bytes()[if n == 0 then 0 else |got|..];
    assert domain == if all[..n] == [] then got else all[..n];
    hide IsValidDomain, MaybeIPPrefix;
    if MaybeIPPrefix(domain[0]) {
      var addr := p.parse(domain);
      if !addr.Domain? {
        return Some(addr), NoError;
      }
    }
    if !IsValidDomain(domain) {
      return None, Failure("invalid domain name");
    }
    a := Some(Domain(domain));
  }

  /** ReadAddressPort(nil, src). */
  method ReadAddressPortFrom(p: Parser, src: Buffer) returns (a: Option<Address>, port: uint16, err: Error)
    requires src.Valid()
    modifies src
    ensures src.Valid()
    ensures Reports(ReadAddressPort(p, old(src.Bytes())), (a, port), err, src.Bytes())
  {
    a, port := None, 0;
    var b := new Buffer.New();
    assert b.Bytes() == [];
    if p.portFirst {
      port, err := ReadPort(b, src);
      if err == NoError {
        a, err := ReadAddressFrom(p, b, src);
      }
    } else {
      a, err := ReadAddressFrom(p, b, src);
      if err == NoError {
        port, err := ReadPort(b, src);
      }
    }
  }
}
