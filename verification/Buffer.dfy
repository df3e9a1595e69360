/** common/buf/buffer.go: a byte array with two cursors. */
module Buffers {
  import opened Bytes

  /** Capacity of a buffer made by New. */
  const SIZE: nat := 2048

  /** Resolves a possibly negative position against the length, as BytesFrom, BytesTo and Resize do. */
  function Resolve(len: nat, pos: int): int {
    if pos < 0 then pos + len else pos
  }

  class Buffer {
    const v: array<byte>
    var start: int
    var end: int
    var released: bool

    ghost predicate Valid()
      reads this
    {
      !released && 0 <= start <= end <= v.Length
    }

    /** The content: what Bytes returns in the source. */
    ghost function Bytes(): (r: Bytes)
      requires Valid()
      reads this, v
      ensures |r| == end - start
    {
      v[start..end]
    }

    constructor New()
      ensures Valid() && fresh(v) && v.Length == SIZE && start == end == 0
    {
      v := new byte[SIZE];
      start, end, released := 0, 0, false;
    }

    /** FromBytes: the buffer takes over an array the caller hands in. */
    constructor FromBytes(data: array<byte>)
      ensures Valid() && v == data && start == 0 && end == data.Length
    {
      v := data;
      start, end, released := 0, data.Length, false;
    }

    method Release()
      modifies this
      ensures released && start == end == 0
    {
      released := true;
      start, end := 0, 0;
    }

    method Clear()
      requires Valid()
      modifies this
      ensures Valid() && start == end == 0
    {
      start, end := 0, 0;
    }

    function Len(): (n: nat)
      requires Valid()
      reads this
      ensures n == end - start
    {
      end - start
    }

    predicate IsEmpty()
      requires Valid()
      reads this
    {
      Len() == 0
    }

    predicate IsFull()
      requires Valid()
      reads this
    {
      end == v.Length
    }

    /** Room left after the content. */
    function Room(): nat
      requires Valid()
      reads this
    {
      v.Length - end
    }

    /** Extend followed by a copy of `data` into the extended part; the source panics without room. */
    method Extend(data: Bytes)
      requires Valid() && |data| <= Room()
      modifies this, v
      ensures Valid() && start == old(start)
      ensures Bytes() == old(Bytes()) + data
    {
      forall i | 0 <= i < |data| {
        v[end + i] := data[i];
      }
      end := end + |data|;
      assert v[start..end] == old(v[start..end]) + data;
    }

    /** Write: as much of `data` as fits. */
    method Write(data: Bytes) returns (n: nat)
      requires Valid()
      modifies this, v
      ensures Valid() && start == old(start)
      ensures n == Min(|data|, old(Room()))
      ensures Bytes() == old(Bytes()) + data[..n]
    {
      n := Min(|data|, Room());
      Extend(data[..n]);
    }

    method WriteByte(c: byte) returns (err: Error)
      requires Valid()
      modifies this, v
      ensures Valid() && start == old(start)
      ensures err == NoError <==> !old(IsFull())
      ensures Bytes() == if err == NoError then old(Bytes()) + [c] else old(Bytes())
    {
      if IsFull() {
        return Failure("buffer full");
      }
      Extend([c]);
      err := NoError;
    }

    /** What lies between two positions, each counted from the end of the content when negative. Like the
        source it looks at the array only: the positions may lie outside the content. */
    method BytesRange(from: int, to: int) returns (r: Bytes)
      requires Valid()
      requires 0 <= start + Resolve(Len(), from) <= start + Resolve(Len(), to) <= v.Length
      ensures r == v[start + Resolve(Len(), from)..start + Resolve(Len(), to)]
      ensures 0 <= Resolve(Len(), from) && Resolve(Len(), to) <= Len() ==>
                r == Bytes()[Resolve(Len(), from)..Resolve(Len(), to)]
    {
      var f, t := Resolve(Len(), from), Resolve(Len(), to);
      r := v[start + f..start + t];
      if 0 <= f && t <= Len() {
        assert forall i :: 0 <= i < t - f ==> v[start..end][f..t][i] == r[i];
      }
    }

    /** Resize: cut the content to [from, to). The source panics when to < from and checks nothing else:
        `to` may reach past the content, as readBuffer relies on, and the buffer is good afterwards if and
        only if both positions are in the array. */
    method Resize(from: int, to: int)
      requires Valid() && Resolve(Len(), from) <= Resolve(Len(), to)
      modifies this
      ensures start == old(start) + Resolve(old(Len()), from)
      ensures end == old(start) + Resolve(old(Len()), to)
      ensures Valid() <==> 0 <= start && end <= v.Length
      ensures 0 <= Resolve(old(Len()), from) && Resolve(old(Len()), to) <= old(Len()) ==>
                Valid() && Bytes() == old(Bytes())[Resolve(old(Len()), from)..Resolve(old(Len()), to)]
    {
      var f, t := Resolve(Len(), from), Resolve(Len(), to);
      end := start + t;
      start := start + f;
      assert 0 <= f && t <= old(Len()) ==> v[start..end] == old(v[start..end])[f..t];
    }

    /** Advance: drop the first `from` bytes (all but the last -from when negative). Nothing is checked: the
        buffer is good afterwards if and only if that leaves the start within the array, before the end. */
    method Advance(from: int)
      requires Valid()
      modifies this
      ensures start == old(start) + Resolve(old(Len()), from) && end == old(end)
      ensures Valid() <==> 0 <= start <= end
      ensures 0 <= Resolve(old(Len()), from) <= old(Len()) ==>
                Valid() && Bytes() == old(Bytes())[Resolve(old(Len()), from)..]
    {
      var f := Resolve(Len(), from);
      start := start + f;
      assert 0 <= f <= old(Len()) ==> v[start..end] == old(v[start..end])[f..];
    }

    method ReadByte() returns (c: byte, err: Error)
      requires Valid()
      modifies this
      ensures Valid()
      ensures err == if old(Len()) == 0 then EOF else NoError
      ensures err == NoError ==> old(Bytes()) == [c] + Bytes()
      ensures err != NoError ==> Bytes() == old(Bytes()) == []
    {
      if start == end {
        return 0, EOF;
      }
      c := v[start];
      start := start + 1;
      err := NoError;
    }

    /** Read into a slice of `n` bytes, which the model returns as a value; a drained buffer rewinds
        both cursors. */
    method Read(n: nat) returns (r: Bytes, err: Error)
      requires Valid()
      modifies this
      ensures Valid()
      ensures err == if old(Len()) == 0 then EOF else NoError
      ensures r == old(Bytes())[..Min(n, old(Len()))]
      ensures Bytes() == old(Bytes())[Min(n, old(Len()))..]
    {
      if Len() == 0 {
        r := [];
        assert old(Bytes()) == [];
        return r, EOF;
      }
      var k := Min(n, Len());
      r := v[start..start + k];
      assert r == v[start..end][..k] && v[start + k..end] == v[start..end][k..];
      if k == Len() {
        Clear();
      } else {
        start := start + k;
      }
      err := NoError;
    }

    /** ReadFrom(reader) where the reader is another Buffer: one Read into the free tail. */
    method ReadFromBuffer(src: Buffer) returns (n: nat, err: Error)
      requires Valid() && src.Valid() && src != this && src.v != v
      modifies this, v, src
      ensures Valid() && src.Valid() && start == old(start)
      ensures err == if old(src.Len()) == 0 then EOF else NoError
      ensures n == Min(old(Room()), old(src.Len()))
      ensures Bytes() == old(Bytes()) + old(src.Bytes())[..n]
      ensures src.Bytes() == old(src.Bytes())[n..]
    {
      var r;
      r, err := src.Read(Room());
      n := |r|;
      Extend(r);
    }
  }
}
