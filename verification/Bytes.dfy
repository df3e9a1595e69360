/** Byte strings, their big-endian 16-bit form, and the content of a list of byte strings. */
module Bytes {

  type byte = x: int | 0 <= x < 0x100
  type uint16 = x: int | 0 <= x < 0x1_0000
  type Bytes = seq<byte>

  datatype Option<+T> = None | Some(value: T)

  function Min(a: int, b: int): int { if a <= b then a else b }

  function Max(a: int, b: int): int { if a >= b then a else b }

  /** A front part no longer than `cur` is cut from `cur`. */
  lemma CutFront(d: Bytes, p: Bytes, cur: Bytes, more: Bytes)
    requires d + p == cur + more && |d| <= |cur|
    ensures d == cur[..|d|] && p == cur[|d|..] + more && d + cur[|d|..] == cur
  {
    assert (d + p)[..|d|] == d && (cur + more)[..|d|] == cur[..|d|];
    assert (d + p)[|d|..] == p && (cur + more)[|d|..] == cur[|d|..] + more;
  }

  /** The content of a list of buffers, in order. */
  function Flat(ps: seq<Bytes>): Bytes {
    if ps == [] then [] else ps[0] + Flat(ps[1..])
  }

  lemma {:induction false} FlatAppend(a: seq<Bytes>, b: seq<Bytes>)
    ensures Flat(a + b) == Flat(a) + Flat(b)
  {
    if a == [] {
      assert a + b == b;
    } else {
      assert (a + b)[1..] == a[1..] + b;
      FlatAppend(a[1..], b);
    }
  }

  lemma FlatOne(p: Bytes)
    ensures Flat([p]) == p
  {
    assert [p][1..] == [];
  }

  lemma FlatSnoc(a: seq<Bytes>, p: Bytes)
    ensures Flat(a + [p]) == Flat(a) + p
  {
    FlatAppend(a, [p]);
    FlatOne(p);
  }

  lemma FlatSplit(ps: seq<Bytes>, k: nat)
    requires k <= |ps|
    ensures Flat(ps) == Flat(ps[..k]) + Flat(ps[k..])
  {
    FlatAppend(ps[..k], ps[k..]);
    assert ps[..k] + ps[k..] == ps;
  }

  /** A list holds no byte exactly when each of its members holds none. */
  lemma {:induction false} FlatEmpty(ps: seq<Bytes>)
    ensures Flat(ps) == [] <==> forall i :: 0 <= i < |ps| ==> ps[i] == []
  {
    if ps != [] {
      FlatEmpty(ps[1..]);
      assert forall i :: 1 <= i < |ps| ==> ps[i] == ps[1..][i - 1];
    }
  }

  /** The content of a list of lists of buffers. */
  function FlatAll(segs: seq<seq<Bytes>>): Bytes {
    if segs == [] then [] else Flat(segs[0]) + FlatAll(segs[1..])
  }

  lemma {:induction false} FlatAllAppend(a: seq<seq<Bytes>>, b: seq<seq<Bytes>>)
    ensures FlatAll(a + b) == FlatAll(a) + FlatAll(b)
  {
    if a == [] {
      assert a + b == b;
    } else {
      assert (a + b)[1..] == a[1..] + b;
      FlatAllAppend(a[1..], b);
    }
  }

  lemma FlatAllSnoc(a: seq<seq<Bytes>>, ps: seq<Bytes>)
    ensures FlatAll(a + [ps]) == FlatAll(a) + Flat(ps)
  {
    FlatAllAppend(a, [ps]);
    assert [ps][1..] == [];
  }

  /** The packets of a list that are not empty. */
  function NonEmpty(ps: seq<Bytes>): seq<Bytes> {
    if ps == [] then []
    else if ps[0] == [] then NonEmpty(ps[1..])
    else [ps[0]] + NonEmpty(ps[1..])
  }

  lemma {:induction false} NonEmptyFlat(ps: seq<Bytes>)
    ensures Flat(NonEmpty(ps)) == Flat(ps)
  {
    if ps != [] {
      NonEmptyFlat(ps[1..]);
      var rest := NonEmpty(ps[1..]);
      if ps[0] == [] {
        assert [] + Flat(ps[1..]) == Flat(ps[1..]);
      } else {
        assert NonEmpty(ps) == [ps[0]] + rest;
        FlatAppend([ps[0]], rest);
        FlatOne(ps[0]);
      }
    }
  }

  lemma {:induction false} NonEmptyNothing(ps: seq<Bytes>)
    requires Flat(ps) == []
    ensures NonEmpty(ps) == []
  {
    if ps != [] {
      NonEmptyNothing(ps[1..]);
    }
  }

  function NonEmptyAll(ws: seq<seq<Bytes>>): seq<Bytes> {
    if ws == [] then [] else NonEmpty(ws[0]) + NonEmptyAll(ws[1..])
  }

  /** binary.BigEndian.PutUint16. */
  function Be16(n: uint16): Bytes {
    [n / 0x100, n % 0x100]
  }

  /** binary.BigEndian.Uint16. */
  function FromBe16(b: Bytes): uint16
    requires |b| == 2
  {
    b[0] as int * 0x100 + b[1] as int
  }

  lemma Be16RoundTrip(n: uint16)
    ensures |Be16(n)| == 2 && FromBe16(Be16(n)) == n
  {
  }

  /** What a failed operation reports: nothing, a clean end, an end in mid-item, or anything else. */
  datatype Error = NoError | EOF | UnexpectedEOF | Failure(reason: string)
}
