/** common/buf/reader.go: a reader with an internal buffer over a source that hands out whole lists. */
module Readers {
  import opened Bytes
  import opened Buffers
  import opened MultiBuffers
  import Streams

  ghost predicate Small(segs: seq<seq<Bytes>>) {
    forall i, j :: 0 <= i < |segs| && 0 <= j < |segs[i]| ==> |segs[i][j]| <= SIZE
  }

  /** Fresh buffers of the standard size. */
  twostate predicate Minted(new mb: MultiBuffer) {
    forall b :: b in mb ==> fresh(b) && fresh(b.v) && b.v.Length == SIZE
  }

  /** The underlying reader: it hands out the lists of `segs` one by one, each in buffers of its own,
      and then reports `end` for ever. It never returns data and an error together. */
  class Source {
    var segs: seq<seq<Bytes>>
    const end: Error

    ghost predicate Valid()
      reads this
    {
      end != NoError && Small(segs)
    }

    constructor (segs: seq<seq<Bytes>>, end: Error)
      requires end != NoError && Small(segs)
      ensures Valid() && this.segs == segs && this.end == end
    {
      this.segs, this.end := segs, end;
    }

    method ReadMultiBuffer() returns (mb: MultiBuffer, err: Error)
      requires Valid()
      modifies this
      ensures Valid() && Owned(mb) && Minted(mb)
      ensures old(segs) == [] ==> mb == [] && err == end && segs == []
      ensures old(segs) != [] ==>
                err == NoError && segs == old(segs)[1..] && Payloads(mb) == old(segs)[0]
    {
      if segs == [] {
        return [], end;
      }
      mb := Allocate(segs[0]);
      err := NoError;
      segs := segs[1..];
    }
  }

  method Allocate(ps: seq<Bytes>) returns (mb: MultiBuffer)
    requires forall i :: 0 <= i < |ps| ==> |ps[i]| <= SIZE
    ensures Owned(mb) && Minted(mb) && Payloads(mb) == ps
    decreases |ps|
  {
    hide Payloads;
    if ps == [] {
      return [];
    }
    var b := NewWith(ps[0]);
    var rest := Allocate(ps[1..]);
    mb := [b] + rest;
    PayloadsOne(b);
    PayloadsAppend([b], rest);
  }

  ghost predicate Standard(mb: MultiBuffer) {
    forall b :: b in mb ==> b.v.Length == SIZE
  }

  /** SplitSize, with a rest that holds nothing replaced by nil. */
  method SplitTrimmed(mb: MultiBuffer, size: nat) returns (rest: MultiBuffer, r: MultiBuffer)
    requires Owned(mb) && Standard(mb)
    modifies mb
    ensures Owned(rest) && Owned(r) && Apart(r, rest) && Standard(rest) && Standard(r)
    ensures forall b :: b in rest ==> b in mb
    ensures forall b :: b in r ==> b in mb || (fresh(b) && fresh(b.v))
    ensures Payloads(rest) == Streams.Trim(Left(old(Payloads(mb)), size))
    ensures Payloads(r) == Taken(old(Payloads(mb)), size)
  {
    rest, r := SplitSize(mb, size);
    ApartWhenDistinct(r, rest);
    label Split:
    var empty := IsEmpty(rest);
    Kept@Split(rest);
    Kept@Split(r);
    if empty {
      rest := [];
    }
  }

  method NewWith(p: Bytes) returns (b: Buffer)
    requires |p| <= SIZE
    ensures b.Valid() && b.Bytes() == p && fresh(b) && fresh(b.v) && b.v.Length == SIZE
  {
    b := new Buffer.New();
    b.Extend(p);
  }

  /** BufferedReader, with the default splitter. */
  class BufferedReader {
    const reader: Source
    var buffer: MultiBuffer

    ghost predicate Valid()
      reads this, reader, buffer
    {
      reader.Valid() && Owned(buffer) && Standard(buffer)
    }

    /** The objects a call may change: buffered bytes themselves are never written. */
    ghost function Repr(): set<object>
      reads this
    {
      {this, reader} + Cells(buffer)
    }

    /** What is buffered now was buffered before, or is new. */
    twostate predicate Renewed()
      reads this
    {
      OwnOrNew(buffer)
    }

    /** The buffers of a list were buffered before, or are new. */
    twostate predicate OwnOrNew(new mb: MultiBuffer)
      reads this
    {
      forall b :: b in mb ==> b in old(buffer) || (fresh(b) && fresh(b.v))
    }

    ghost function Model(): (st: Streams.State)
      requires Valid()
      reads this, reader, buffer, Arrays(buffer)
      ensures st.end == reader.end != NoError
    {
      Streams.State(Payloads(buffer), reader.segs, reader.end)
    }

    /** Nobody touched the reader: it is where it was. */
    twostate lemma Untouched()
      requires old(Valid()) && unchanged(this) && unchanged(reader)
      requires forall b :: b in buffer ==> unchanged(b) && unchanged(b.v)
      ensures Valid() && Model() == old(Model())
    {
      Kept(buffer);
    }

    constructor (reader: Source)
      requires reader.Valid()
      ensures Valid() && this.reader == reader && buffer == []
    {
      this.reader, buffer := reader, [];
    }

    /** BufferedBytes. */
    method BufferedBytes() returns (n: nat)
      requires Valid()
      ensures n == |Flat(Model().buffer)|
    {
      n := Len(buffer);
    }

    method Read(n: nat) returns (data: Bytes, err: Error)
      requires Valid()
      modifies Repr()
      ensures Valid() && Renewed()
      ensures Model() == Streams.Read(old(Model()), n).0
      ensures err == Streams.Read(old(Model()), n).1.err
      ensures data == Flat(Streams.Read(old(Model()), n).1.mb)
    {
      var empty := IsEmpty(buffer);
      Kept(buffer);
      if !empty {
        data := TakeBuffered(n);
        return data, NoError;
      }
      var mb;
      mb, err := reader.ReadMultiBuffer();
      Kept(buffer);
      if err != NoError {
        return [], err;
      }
      data := TakeFetched(mb, n);
      FlatOne(data);
    }

    /** Read when the internal buffer holds something: the source is not touched. */
    method TakeBuffered(n: nat) returns (data: Bytes)
      requires Valid() && Content(buffer) != []
      modifies this, buffer
      ensures Valid() && Renewed()
      ensures Model() == Streams.Read(old(Model()), n).0
      ensures data == Flat(Streams.Read(old(Model()), n).1.mb)
    {
      hide Payloads, DropBytes, Flat;
      ghost var st := Model();
      var rest;
      rest, data := SplitBytes(buffer, n);
      var drained := IsEmpty(rest);
      assert Payloads(rest) == DropBytes(st.buffer, n);
      buffer := if drained then [] else rest;
      assert Payloads(buffer) == Streams.Trim(DropBytes(st.buffer, n));
      FlatOne(data);
    }

    /** Read after the source handed out `mb`. */
    method TakeFetched(mb: MultiBuffer, n: nat) returns (data: Bytes)
      requires Valid() && Content(buffer) == []
      requires Owned(mb) && Standard(mb)
      requires Apart(mb, buffer)
      modifies this, mb
      ensures Valid() && forall b :: b in buffer ==> b in old(buffer) || b in mb
      ensures reader.segs == old(reader.segs)
      ensures data == old(Content(mb))[..Min(n, |old(Content(mb))|)]
      ensures var rest := DropBytes(old(Payloads(mb)), n);
              Payloads(buffer) == if Flat(rest) != [] then rest else old(Payloads(buffer))
    {
      hide Payloads, DropBytes, Flat;
      var rest;
      rest, data := SplitBytes(mb, n);
      ghost var left := Payloads(rest);
      var drained := IsEmpty(rest);
      assert Payloads(rest) == left;
      Kept(buffer);
      if !drained {
        buffer := rest;
      }
    }
  
    /** io.ReadFull(r, b) for a slice of n bytes. */
    method ReadFull(n: nat) returns (data: Bytes, err: Error)
      requires Valid()
      modifies Repr()
      ensures Valid() && Renewed()
      ensures (Model(), data, err) == Streams.ReadFull(old(Model()), n)
    {
      data := [];
      ghost var st0 := Model();
      Streams.FillingStarts(st0, n);
      while |data| < n
        invariant Valid() && Renewed()
        invariant Streams.Filling(st0, Model(), data, n)
        decreases Streams.Work(Model())
      {
        Streams.FillingTurn(st0, Model(), data, n);
        var part;
        part, err := Read(n - |data|);
        if err != NoError {
          if err == EOF && data != [] {
            err := UnexpectedEOF;
          }
          return;
        }
        data := data + part;
      }
      Streams.FillingDone(st0, Model(), data, n);
      err := NoError;
    }

    method ReadByte() returns (c: byte, err: Error)
      requires Valid()
      modifies Repr()
      ensures Valid() && Renewed()
      ensures Model() == Streams.ReadByte(old(Model())).0
      ensures err == Streams.ReadByte(old(Model())).1.err
      ensures err == NoError ==> [c] == Flat(Streams.ReadByte(old(Model())).1.mb)
    {
      Streams.ReadConserves(Model(), 1);
      var data;
      data, err := Read(1);
      c := if data == [] then 0 else data[0];
      FlatOne([c]);
    }

    method ReadMultiBuffer() returns (mb: MultiBuffer, err: Error)
      requires Valid()
      modifies Repr()
      ensures Valid() && Renewed()
      ensures Model() == Streams.ReadMultiBuffer(old(Model())).0
      ensures Handed(mb) && OwnOrNew(mb)
      ensures Streams.Outcome(Payloads(mb), err) == Streams.ReadMultiBuffer(old(Model())).1
    {
      var empty := IsEmpty(buffer);
      Kept(buffer);
      if !empty {
        mb, buffer := buffer, [];
        return mb, NoError;
      }
      mb, err := reader.ReadMultiBuffer();
      Kept(buffer);
    }

    /** A list the reader gave away: its own no longer, and in buffers of the standard size. */
    ghost predicate Handed(mb: MultiBuffer)
      reads this, mb
    {
      Owned(mb) && Apart(mb, buffer) && Standard(mb)
    }

    /** ReadAtMost. */
    method ReadAtMost(size: nat) returns (mb: MultiBuffer, err: Error)
      requires Valid()
      modifies Repr()
      ensures Valid() && Renewed()
      ensures Model() == Streams.ReadAtMost(old(Model()), size).0
      ensures Handed(mb) && OwnOrNew(mb)
      ensures Streams.Outcome(Payloads(mb), err) == Streams.ReadAtMost(old(Model()), size).1
    {
      var empty := IsEmpty(buffer);
      Kept(buffer);
      if empty {
        err := Fetch();
        if err != NoError {
          return [], err;
        }
      }
      mb := SplitBuffered(size);
      err := NoError;
    }

    /** Refill the internal buffer with what the source hands out next. */
    method Fetch() returns (err: Error)
      requires Valid()
      modifies this, reader
      ensures Valid() && Renewed()
      ensures old(reader.segs) == [] ==>
                err == reader.end && reader.segs == [] && buffer == old(buffer) &&
                Payloads(buffer) == old(Payloads(buffer))
      ensures old(reader.segs) != [] ==>
                err == NoError && reader.segs == old(reader.segs)[1..] && Payloads(buffer) == old(reader.segs)[0]
    {
      var fetched;
      fetched, err := reader.ReadMultiBuffer();
      Kept(buffer);
      if err == NoError {
        buffer := fetched;
      }
    }

    method SplitBuffered(size: nat) returns (mb: MultiBuffer)
      requires Valid()
      modifies this, buffer
      ensures Valid() && Renewed()
      ensures reader.segs == old(reader.segs)
      ensures Payloads(buffer) == Streams.Trim(Left(old(Payloads(buffer)), size))
      ensures Handed(mb) && OwnOrNew(mb)
      ensures Payloads(mb) == Taken(old(Payloads(buffer)), size)
    {
      buffer, mb := SplitTrimmed(buffer, size);
    }
  }
}
