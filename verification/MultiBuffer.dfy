/** common/buf/multi_buffer.go: lists of buffers, split and merged in place. */
module MultiBuffers {
  import opened Bytes
  import opened Buffers

  type MultiBuffer = seq<Buffer>

  // ---- What a list of buffers is ----

  /** No buffer, and no array, occurs twice. */
  ghost predicate Distinct(mb: MultiBuffer) {
    forall i, j :: 0 <= i < j < |mb| ==> mb[i] != mb[j] && mb[i].v != mb[j].v
  }

  /** The lists share no buffer and no array. */
  ghost predicate Apart(a: MultiBuffer, b: MultiBuffer) {
    forall x, y :: x in a && y in b ==> x != y && x.v != y.v
  }

  lemma ApartWhenDistinct(a: MultiBuffer, b: MultiBuffer)
    requires Distinct(a + b)
    ensures Apart(a, b)
  {
    forall x, y | x in a && y in b ensures x != y && x.v != y.v {
      var i :| 0 <= i < |a| && a[i] == x;
      var j :| 0 <= j < |b| && b[j] == y;
      assert (a + b)[i] == x && (a + b)[|a| + j] == y;
    }
  }

  /** Buffers nobody touched still hold what they held. */
  twostate lemma Kept(mb: MultiBuffer)
    requires old(Owned(mb))
    requires forall b :: b in mb ==> unchanged(b) && unchanged(b.v)
    ensures Owned(mb) && Payloads(mb) == old(Payloads(mb))
  {
  }

  ghost function Cells(mb: MultiBuffer): set<object> {
    set b | b in mb
  }

  ghost function Arrays(mb: MultiBuffer): set<object> {
    set b | b in mb :: b.v
  }

  ghost function Footprint(mb: MultiBuffer): set<object> {
    Cells(mb) + Arrays(mb)
  }

  ghost predicate Owned(mb: MultiBuffer)
    reads mb
  {
    Distinct(mb) && forall i :: 0 <= i < |mb| ==> mb[i].Valid()
  }

  /** The content of each buffer: the value every operation below is specified on. */
  ghost function Payloads(mb: MultiBuffer): (ps: seq<Bytes>)
    requires forall i :: 0 <= i < |mb| ==> mb[i].Valid()
    reads mb, Arrays(mb)
    ensures |ps| == |mb|
    ensures forall i :: 0 <= i < |mb| ==> ps[i] == mb[i].Bytes()
  {
    seq(|mb|, i requires 0 <= i < |mb| && mb[i].Valid() reads mb, Arrays(mb) => mb[i].Bytes())
  }

  ghost function Content(mb: MultiBuffer): Bytes
    requires forall i :: 0 <= i < |mb| ==> mb[i].Valid()
    reads mb, Arrays(mb)
  {
    Flat(Payloads(mb))
  }

  lemma OwnedSlices(mb: MultiBuffer, k: nat)
    requires k <= |mb| && Owned(mb)
    ensures mb[..k] + mb[k..] == mb && Owned(mb[..k]) && Owned(mb[k..])
    ensures Payloads(mb[..k]) == Payloads(mb)[..k] && Payloads(mb[k..]) == Payloads(mb)[k..]
    ensures Payloads(mb[..k]) + Payloads(mb[k..]) == Payloads(mb)
  {
    hide Payloads;
  }

  lemma PayloadsOne(b: Buffer)
    requires b.Valid()
    ensures Owned([b]) && Payloads([b]) == [b.Bytes()] && Content([b]) == b.Bytes()
  {
    FlatOne(b.Bytes());
  }

  lemma PayloadsNone()
    ensures Payloads([]) == []
  {
  }

  lemma PayloadsAppend(a: MultiBuffer, b: MultiBuffer)
    requires forall i :: 0 <= i < |a| ==> a[i].Valid()
    requires forall i :: 0 <= i < |b| ==> b[i].Valid()
    ensures forall i :: 0 <= i < |a + b| ==> (a + b)[i].Valid()
    ensures Payloads(a + b) == Payloads(a) + Payloads(b)
  {
  }

  // ---- The operations on contents ----

  /** How many leading items fit in `size` bytes, stopping at the first that does not. */
  function Fit(ps: seq<Bytes>, size: nat): (k: nat)
    ensures k <= |ps|
  {
    if ps == [] || |ps[0]| > size then 0 else 1 + Fit(ps[1..], size - |ps[0]|)
  }

  /** SplitSize on contents: what is split off. */
  function Taken(ps: seq<Bytes>, size: nat): seq<Bytes> {
    if ps == [] then []
    else if |ps[0]| > size then [ps[0][..size]]
    else ps[..Fit(ps, size)]
  }

  /** SplitSize on contents: what stays. */
  function Left(ps: seq<Bytes>, size: nat): seq<Bytes> {
    if ps == [] then []
    else if |ps[0]| > size then ps[0 := ps[0][size..]]
    else ps[Fit(ps, size)..]
  }

  /** SplitBytes on contents: what stays after `n` bytes are read off. */
  function DropBytes(ps: seq<Bytes>, n: nat): seq<Bytes> {
    if ps == [] then []
    else if |ps[0]| <= n then DropBytes(ps[1..], n - |ps[0]|)
    else [ps[0][n..]] + ps[1..]
  }

  lemma {:induction false} FitSum(ps: seq<Bytes>, size: nat)
    ensures |Flat(ps[..Fit(ps, size)])| <= size
    ensures Fit(ps, size) < |ps| ==> |Flat(ps[..Fit(ps, size)])| + |ps[Fit(ps, size)]| > size
  {
    if ps != [] && |ps[0]| <= size {
      var k := Fit(ps[1..], size - |ps[0]|);
      FitSum(ps[1..], size - |ps[0]|);
      assert ps[..1 + k] == [ps[0]] + ps[1..][..k];
      assert Flat(ps[..1 + k]) == ps[0] + Flat(ps[1..][..k]);
    }
  }

  /** With every item within the size, an item is reached unless all before it fit. */
  lemma {:induction false} FitReaches(ps: seq<Bytes>, size: nat)
    requires forall i :: 0 <= i < |ps| ==> |ps[i]| <= size
    requires Flat(ps) != []
    ensures Flat(ps[..Fit(ps, size)]) != []
  {
    var k := Fit(ps, size);
    if ps[0] == [] {
      assert forall i :: 0 <= i < |ps[1..]| ==> ps[1..][i] == ps[i + 1];
      FitReaches(ps[1..], size);
      assert ps[..k] == [ps[0]] + ps[1..][..k - 1];
    }
    assert ps[..k][0] == ps[0];
    assert ps[..k][1..] == ps[1..][..k - 1];
  }

  /** SplitSize conserves content and order and respects the size. */
  lemma SplitSizeConserves(ps: seq<Bytes>, size: nat)
    ensures Flat(Taken(ps, size)) + Flat(Left(ps, size)) == Flat(ps)
    ensures |Flat(Taken(ps, size))| <= size
  {
    if ps == [] {
    } else if |ps[0]| > size {
      CutHeadConserves(ps, size);
    } else {
      FitSum(ps, size);
      FlatSplit(ps, Fit(ps, size));
    }
  }

  lemma CutHeadConserves(ps: seq<Bytes>, size: nat)
    requires ps != [] && |ps[0]| > size
    ensures Flat([ps[0][..size]]) == ps[0][..size]
    ensures ps[0][..size] + Flat(ps[0 := ps[0][size..]]) == Flat(ps)
  {
    FlatOne(ps[0][..size]);
    assert ps[0] == ps[0][..size] + ps[0][size..];
    assert ps[0 := ps[0][size..]][1..] == ps[1..];
  }

  /** What is split off is non-empty when the head is, or when no item is longer than the size. */
  lemma SplitSizeNonEmpty(ps: seq<Bytes>, size: nat)
    requires size > 0 && ps != []
    requires ps[0] != [] || (Flat(ps) != [] && forall i :: 0 <= i < |ps| ==> |ps[i]| <= size)
    ensures Flat(Taken(ps, size)) != []
  {
    if |ps[0]| > size {
      FlatOne(ps[0][..size]);
    } else if ps[0] == [] {
      FitReaches(ps, size);
    } else {
      assert ps[..Fit(ps, size)][0] == ps[0];
    }
  }

  /** Splitting with room makes progress: bytes or list entries go. */
  lemma SplitSizeProgress(ps: seq<Bytes>, size: nat)
    requires size > 0 && ps != []
    ensures |Flat(Left(ps, size))| + |Left(ps, size)| < |Flat(ps)| + |ps|
  {
    SplitSizeConserves(ps, size);
    if |ps[0]| > size {
      FlatOne(ps[0][..size]);
    }
  }

  /** The split off part is as large as it can be: the next non-empty item would not have fitted. */
  lemma SplitSizeGreedy(ps: seq<Bytes>, size: nat)
    requires ps != [] && |ps[0]| <= size
    ensures Left(ps, size) != [] ==> |Flat(Taken(ps, size))| + |Left(ps, size)[0]| > size
  {
    FitSum(ps, size);
  }

  /** SplitBytes reads off exactly the first `n` bytes and keeps the rest in order. */
  lemma {:induction false} DropBytesConserves(ps: seq<Bytes>, n: nat)
    ensures Flat(DropBytes(ps, n)) == Flat(ps)[Min(n, |Flat(ps)|)..]
    ensures DropBytes(ps, n) != [] ==> DropBytes(ps, n)[0] != []
    ensures |DropBytes(ps, n)| <= |ps|
  {
    if ps == [] {
    } else if |ps[0]| <= n {
      DropBytesConserves(ps[1..], n - |ps[0]|);
    } else {
      assert ([ps[0][n..]] + ps[1..])[1..] == ps[1..];
    }
  }

  // ---- The operations on the heap ----

  method IsEmpty(mb: MultiBuffer) returns (empty: bool)
    requires Owned(mb)
    ensures empty <==> Content(mb) == []
  {
    FlatEmpty(Payloads(mb));
    for i := 0 to |mb|
      invariant forall j :: 0 <= j < i ==> Payloads(mb)[j] == []
    {
      if mb[i].Len() != 0 {
        assert Payloads(mb)[i] != [];
        return false;
      }
    }
    empty := true;
  }

  method Len(mb: MultiBuffer) returns (n: nat)
    requires Owned(mb)
    ensures n == |Content(mb)|
  {
    n := 0;
    for i := 0 to |mb|
      invariant n == |Flat(Payloads(mb)[..i])|
    {
      assert Payloads(mb)[..i + 1] == Payloads(mb)[..i] + [mb[i].Bytes()];
      FlatSnoc(Payloads(mb)[..i], mb[i].Bytes());
      n := n + mb[i].Len();
    }
    assert Payloads(mb)[..|mb|] == Payloads(mb);
  }

  /** Copy: the first bytes of the content, as many as the slice of `n` bytes takes. */
  method Copy(mb: MultiBuffer, n: nat) returns (r: Bytes)
    requires Owned(mb)
    ensures r == Content(mb)[..Min(n, |Content(mb)|)]
  {
    r := [];
    ghost var ps := Payloads(mb);
    for i := 0 to |mb|
      invariant Payloads(mb) == ps && r == Flat(ps[..i]) && |r| <= n
    {
      var all := mb[i].BytesRange(0, mb[i].Len());
      var k := Min(n - |r|, |all|);
      assert all == ps[i];
      PrefixStep(ps, i, k);
      r := r + all[..k];
      if k < mb[i].Len() {
        assert Payloads(mb) == ps;
        return;
      }
    }
    assert ps[..|mb|] == ps;
  }

  lemma PrefixStep(ps: seq<Bytes>, i: nat, k: nat)
    requires i < |ps| && k <= |ps[i]|
    ensures Flat(ps[..i + 1]) == Flat(ps[..i]) + ps[i]
    ensures |Flat(ps[..i])| + k <= |Flat(ps)|
    ensures Flat(ps[..i]) + ps[i][..k] == Flat(ps)[..|Flat(ps[..i])| + k]
  {
    assert ps[..i + 1] == ps[..i] + [ps[i]];
    FlatSnoc(ps[..i], ps[i]);
    FlatSplit(ps, i + 1);
  }

  method ReleaseMulti(mb: MultiBuffer)
    modifies mb
    ensures forall i :: 0 <= i < |mb| ==> mb[i].released
  {
    for i := 0 to |mb|
      invariant forall j :: 0 <= j < i ==> mb[j].released
    {
      mb[i].Release();
    }
  }

  /** MergeMulti: src's buffers move to the end of dest. */
  method MergeMulti(dest: MultiBuffer, src: MultiBuffer) returns (merged: MultiBuffer, left: MultiBuffer)
    requires Owned(dest) && Owned(src) && Footprint(dest) !! Footprint(src)
    ensures Owned(merged) && merged == dest + src && left == []
    ensures Content(merged) == Content(dest) + Content(src)
  {
    merged, left := dest + src, [];
    DistinctAppend(dest, src);
    PayloadsAppend(dest, src);
    FlatAppend(Payloads(dest), Payloads(src));
  }

  lemma DistinctAppend(a: MultiBuffer, b: MultiBuffer)
    requires Distinct(a) && Distinct(b) && Footprint(a) !! Footprint(b)
    ensures Distinct(a + b)
  {
    forall i, j | 0 <= i < j < |a + b|
      ensures (a + b)[i] != (a + b)[j] && (a + b)[i].v != (a + b)[j].v
    {
      if i < |a| <= j {
        assert a[i] in Cells(a) && a[i].v in Arrays(a);
        assert b[j - |a|] in Cells(b) && b[j - |a|].v in Arrays(b);
      }
    }
  }

  /** SplitFirst: detach the first buffer. */
  method SplitFirst(mb: MultiBuffer) returns (rest: MultiBuffer, first: seq<Buffer>)
    requires Owned(mb)
    ensures first + rest == mb && |first| == Min(1, |mb|)
    ensures Owned(rest) && Owned(first)
    ensures Payloads(first) + Payloads(rest) == Payloads(mb)
  {
    if |mb| == 0 {
      return mb, [];
    }
    first, rest := mb[..1], mb[1..];
    OwnedSlices(mb, 1);
  }

  /** SplitSize. Either the head alone is cut, its first `size` bytes copied to a fresh buffer, or
      whole buffers move to the result: every live buffer is in exactly one of the two lists. */
  method SplitSize(mb: MultiBuffer, size: nat) returns (rest: MultiBuffer, r: MultiBuffer)
    requires Owned(mb)
    requires mb != [] && mb[0].Len() > size ==> size <= SIZE  // Extend panics otherwise
    modifies mb[..Min(1, |mb|)]
    ensures Owned(rest) && Owned(r) && Distinct(r + rest)
    ensures Payloads(rest) == Left(old(Payloads(mb)), size)
    ensures Payloads(r) == Taken(old(Payloads(mb)), size)
    ensures if mb != [] && old(mb[0].Len()) > size
            then rest == mb && |r| == 1 && fresh(r[0]) && fresh(r[0].v) && r[0].v.Length == SIZE
            else r + rest == mb
  {
    hide Payloads, Fit, Flat, Distinct;
    if |mb| == 0 {
      Singular([] + mb);
      return mb, [];
    }
    ghost var ps := Payloads(mb);
    assert |ps[0]| == mb[0].Len();
    if mb[0].Len() > size {
      var b := CutHead(mb, size);
      rest, r := mb, [b];
      PayloadsOne(b);
      DistinctCons(b, mb);
    } else {
      rest, r := SplitWhole(mb, size);
      Kept(mb);
    }
  }

  lemma Singular(mb: MultiBuffer)
    requires |mb| <= 1
    ensures Distinct(mb)
  {
  }

  lemma DistinctCons(b: Buffer, mb: MultiBuffer)
    requires Distinct(mb) && forall x :: x in mb ==> x != b && x.v != b.v
    ensures Distinct([b] + mb)
  {
    var all := [b] + mb;
    assert forall i :: 0 < i < |all| ==> all[i] == mb[i - 1] && mb[i - 1] in mb;
  }

  /** The head is longer than `size`: copy its first bytes out and advance it. */
  method CutHead(mb: MultiBuffer, size: nat) returns (b: Buffer)
    requires Owned(mb) && mb != [] && size < mb[0].Len() && size <= SIZE
    modifies mb[0]
    ensures Owned(mb) && b.Valid() && fresh(b) && fresh(b.v) && b.v.Length == SIZE
    ensures b.Bytes() == old(Payloads(mb))[0][..size]
    ensures Payloads(mb) == old(Payloads(mb))[0 := old(Payloads(mb))[0][size..]]
  {
    b := new Buffer.New();
    var head := mb[0].BytesRange(0, size);
    b.Extend(head);
    mb[0].Advance(size);
    forall i | 1 <= i < |mb| ensures mb[i].Bytes() == old(mb[i].Bytes()) {
      assert mb[i] != mb[0];
    }
  }

  /** The head fits: move leading buffers over until the next would not fit. */
  method SplitWhole(mb: MultiBuffer, size: nat) returns (rest: MultiBuffer, r: MultiBuffer)
    requires Owned(mb)
    ensures r + rest == mb && |r| == Fit(Payloads(mb), size)
    ensures Owned(rest) && Owned(r)
    ensures Payloads(r) == Payloads(mb)[..|r|] && Payloads(rest) == Payloads(mb)[|r|..]
  {
    hide Payloads;
    ghost var ps := Payloads(mb);
    var total, i := 0, 0;
    assert ps[0..] == ps;
    while i < |mb| && total + mb[i].Len() <= size
      invariant i <= |mb| && total <= size && Payloads(mb) == ps
      invariant Fit(ps, size) == i + Fit(ps[i..], size - total)
    {
      FitStep(ps, i, size - total);
      total := total + mb[i].Len();
      i := i + 1;
    }
    FitStep(ps, i, size - total);
    r, rest := mb[..i], mb[i..];
    OwnedSlices(mb, i);
  }

  lemma FitStep(ps: seq<Bytes>, i: nat, size: nat)
    requires i <= |ps|
    ensures Fit(ps[i..], size) ==
              if i == |ps| || |ps[i]| > size then 0 else 1 + Fit(ps[i + 1..], size - |ps[i]|)
    ensures DropBytes(ps[i..], size) ==
              if i == |ps| then []
              else if |ps[i]| <= size then DropBytes(ps[i + 1..], size - |ps[i]|)
              else [ps[i][size..]] + ps[i + 1..]
  {
    if i < |ps| {
      assert ps[i..][0] == ps[i] && ps[i..][1..] == ps[i + 1..];
    }
  }

  /** The buffers of mb from i on hold qs. */
  ghost predicate Holds(mb: MultiBuffer, i: nat, qs: seq<Bytes>)
    reads mb, Arrays(mb)
  {
    i <= |mb| && |qs| == |mb| - i && Distinct(mb) &&
    forall j :: i <= j < |mb| ==> mb[j].Valid() && mb[j].Bytes() == qs[j - i]
  }

  lemma HoldsSuffix(mb: MultiBuffer, i: nat, qs: seq<Bytes>)
    requires Holds(mb, i, qs)
    ensures Owned(mb[i..]) && Payloads(mb[i..]) == qs
  {
  }

  /** SplitBytes: read `n` bytes off the front; drained buffers are released. */
  method SplitBytes(mb: MultiBuffer, n: nat) returns (rest: MultiBuffer, data: Bytes)
    requires Owned(mb)
    modifies mb
    ensures |rest| <= |mb| && rest == mb[|mb| - |rest|..] && Owned(rest)
    ensures forall i :: 0 <= i < |mb| - |rest| ==> mb[i].released
    ensures Payloads(rest) == DropBytes(old(Payloads(mb)), n)
    ensures data == old(Content(mb))[..Min(n, |old(Content(mb))|)]
  {
    hide Payloads, DropBytes;
    ghost var ps := Payloads(mb);
    ghost var qs := ps;
    data := [];
    var i, cut := 0, false;
    while i < |mb| && !cut
      invariant Holds(mb, i, qs)
      invariant forall j :: 0 <= j < i ==> mb[j].released
      invariant Reading(ps, qs, n, data, cut)
      decreases |mb| - i, !cut
    {
      var part, drained := ReadOne(mb, i, n - |data|, qs);
      ReadingStep(ps, qs, n, data, part);
      qs := Drop(qs, |part|);
      data := data + part;
      i, cut := if drained then i + 1 else i, !drained;
    }
    rest := mb[i..];
    HoldsSuffix(mb, i, qs);
    ReadingDone(ps, qs, n, data, cut);
  }

  /** What SplitBytes has read off ps so far, and what it still has to look at: qs is the unread
      part, and `cut` says that a buffer was left half read because the slice is full. */
  ghost predicate Reading(ps: seq<Bytes>, qs: seq<Bytes>, n: nat, data: Bytes, cut: bool) {
    && |data| <= n && (cut ==> |data| == n) && data + Flat(qs) == Flat(ps)
    && DropBytes(ps, n) == if cut then qs else DropBytes(qs, n - |data|)
  }

  lemma ReadingDone(ps: seq<Bytes>, qs: seq<Bytes>, n: nat, data: Bytes, cut: bool)
    requires Reading(ps, qs, n, data, cut) && (cut || qs == [])
    ensures DropBytes(ps, n) == qs && data == Flat(ps)[..Min(n, |Flat(ps)|)]
  {
  }

  lemma ReadingStep(ps: seq<Bytes>, qs: seq<Bytes>, n: nat, data: Bytes, part: Bytes)
    requires qs != [] && Reading(ps, qs, n, data, false)
    requires part == qs[0][..Min(n - |data|, |qs[0]|)]
    ensures Reading(ps, Drop(qs, |part|), n, data + part, |part| < |qs[0]|)
  {
    assert Flat(qs) == part + Flat(Drop(qs, |part|)) by {
      assert part + (qs[0][|part|..] + Flat(qs[1..])) == qs[0] + Flat(qs[1..]);
      assert |part| < |qs[0]| ==> Drop(qs, |part|)[1..] == qs[1..];
    }
    assert data + (part + Flat(Drop(qs, |part|))) == data + part + Flat(Drop(qs, |part|));
  }

  /** qs after k bytes are read off its head, which goes once it is drained. */
  ghost function Drop(qs: seq<Bytes>, k: nat): seq<Bytes>
    requires qs != [] && k <= |qs[0]|
  {
    if k == |qs[0]| then qs[1..] else [qs[0][k..]] + qs[1..]
  }

  lemma DropShifts(qs: seq<Bytes>, k: nat, drained: bool)
    requires qs != [] && k <= |qs[0]| && (drained <==> k == |qs[0]|)
    ensures |Drop(qs, k)| == |qs| - if drained then 1 else 0
    ensures forall n :: 0 < n < |qs| ==> Drop(qs, k)[n - if drained then 1 else 0] == qs[n]
  {
  }

  /** One step of SplitBytes: read from buffer i, and release it when it is drained. */
  method ReadOne(mb: MultiBuffer, i: nat, n: nat, ghost qs: seq<Bytes>) returns (part: Bytes, drained: bool)
    requires i < |mb| && Holds(mb, i, qs)
    modifies mb[i]
    ensures part == qs[0][..Min(n, |qs[0]|)]
    ensures drained <==> |part| == |qs[0]|
    ensures drained ==> mb[i].released
    ensures Holds(mb, if drained then i + 1 else i, Drop(qs, |part|))
  {
    hide Payloads, Flat;
    var err;
    part, err := mb[i].Read(n);
    drained := mb[i].IsEmpty();
    if drained {
      mb[i].Release();
    }
    forall j | i < j < |mb| ensures mb[j].Valid() && mb[j].Bytes() == qs[j - i] {
      assert mb[j] != mb[i] && mb[j].v != mb[i].v;
    }
    DropShifts(qs, |part|, drained);
  }

  // ---- MergeBytes ----

  /** MergeBytes: fill the last buffer, then append fresh ones for what does not fit. */
  method MergeBytes(dest: MultiBuffer, src: Bytes) returns (merged: MultiBuffer)
    requires Owned(dest)
    modifies if dest == [] then {} else {dest[|dest| - 1], dest[|dest| - 1].v}
    ensures dest <= merged && Owned(merged)
    ensures forall b :: b in merged[|dest|..] ==> fresh(b) && fresh(b.v)
    ensures Content(merged) == old(Content(dest)) + src
  {
    hide Payloads;
    merged := dest;
    var left := src;
    if dest != [] && !dest[|dest| - 1].IsFull() {
      var n := WriteLast(dest, src);
      left := src[n..];
    }
    assert Content(merged) + left == old(Content(dest)) + src;
    merged := AppendAll(dest, left, Content(merged) + left);
  }

  /** The loop that appends fresh buffers. */
  method AppendAll(dest: MultiBuffer, src: Bytes, ghost all: Bytes) returns (merged: MultiBuffer)
    requires Owned(dest) && Content(dest) + src == all
    ensures dest <= merged && Owned(merged)
    ensures forall b :: b in merged[|dest|..] ==> fresh(b) && fresh(b.v)
    ensures Content(merged) == all
  {
    hide Payloads, Flat;
    merged := dest;
    var left := src;
    ghost var added: MultiBuffer := [];
    while left != []
      invariant merged == dest + added && Owned(merged)
      invariant forall b :: b in added ==> fresh(b) && fresh(b.v)
      invariant Content(merged) + left == all
      decreases |left|
    {
      ghost var before := Payloads(merged);
      var b;
      b, left := AppendNew(merged, left);
      assert Payloads(merged) == before;
      merged := merged + [b];
      added := added + [b];
    }
  }

  method AppendNew(mb: MultiBuffer, src: Bytes) returns (b: Buffer, left: Bytes)
    requires Owned(mb) && src != []
    ensures fresh(b) && fresh(b.v) && Owned(mb + [b])
    ensures Content(mb + [b]) + left == Content(mb) + src && |left| < |src|
  {
    hide Payloads, Flat;
    ghost var ps := Payloads(mb);
    b := new Buffer.New();
    assert b.Bytes() == [];
    var n := b.Write(src);
    assert b.Bytes() == src[..n];
    left := src[n..];
    Kept(mb);
    AppendedContent(mb, b, ps);
    assert Flat(ps) + (src[..n] + left) == (Flat(ps) + src[..n]) + left;
  }

  lemma AppendedContent(mb: MultiBuffer, b: Buffer, ps: seq<Bytes>)
    requires Owned(mb) && b.Valid() && Payloads(mb) == ps
    requires forall i :: 0 <= i < |mb| ==> mb[i] != b && mb[i].v != b.v
    ensures Owned(mb + [b]) && Payloads(mb + [b]) == ps + [b.Bytes()]
    ensures Content(mb + [b]) == Flat(ps) + b.Bytes()
  {
    assert Payloads(mb + [b]) == ps + [b.Bytes()];
    FlatSnoc(ps, b.Bytes());
  }

  method WriteLast(dest: MultiBuffer, src: Bytes) returns (n: nat)
    requires Owned(dest) && dest != []
    modifies dest[|dest| - 1], dest[|dest| - 1].v
    ensures Owned(dest) && n <= |src|
    ensures Content(dest) == old(Content(dest)) + src[..n]
  {
    var k := |dest| - 1;
    ghost var ps := Payloads(dest);
    n := dest[k].Write(src);
    forall i | 0 <= i < k ensures dest[i].Bytes() == ps[i] {
      assert dest[i] != dest[k] && dest[i].v != dest[k].v;
    }
    assert Payloads(dest) == ps[k := ps[k] + src[..n]];
    ExtendLast(ps, src[..n]);
  }

  lemma ExtendLast(ps: seq<Bytes>, data: Bytes)
    requires ps != []
    ensures var k := |ps| - 1; Flat(ps[k := ps[k] + data]) == Flat(ps) + data
  {
    var k := |ps| - 1;
    assert ps[k := ps[k] + data] == ps[..k] + [ps[k] + data];
    assert ps == ps[..k] + [ps[k]];
    FlatSnoc(ps[..k], ps[k] + data);
    FlatSnoc(ps[..k], ps[k]);
  }

  // ---- Compact ----

  /** What Compact looks at in a buffer: its content and the room after it. */
  datatype Shape = Shape(payload: Bytes, room: nat)

  ghost function ShapeOf(b: Buffer): Shape
    requires b.Valid()
    reads b, b.v
  {
    Shape(b.Bytes(), b.Room())
  }

  ghost function Shapes(mb: MultiBuffer): (r: seq<Shape>)
    requires forall i :: 0 <= i < |mb| ==> mb[i].Valid()
    reads mb, Arrays(mb)
    ensures |r| == |mb| && forall i :: 0 <= i < |mb| ==> r[i] == ShapeOf(mb[i])
  {
    seq(|mb|, i requires 0 <= i < |mb| && mb[i].Valid() reads mb, Arrays(mb) => ShapeOf(mb[i]))
  }

  /** Compact on shapes: merge by total length, but copy only what the room allows. */
  function CompactSpec(last: Shape, rest: seq<Shape>): seq<Bytes>
    decreases |rest|
  {
    if rest == [] then [last.payload]
    else if |last.payload| + |rest[0].payload| > SIZE then [last.payload] + CompactSpec(rest[0], rest[1..])
    else CompactSpec(Merged(last, rest[0]), rest[1..])
  }

  function Merged(last: Shape, curr: Shape): Shape {
    var n := Min(last.room, |curr.payload|);
    Shape(last.payload + curr.payload[..n], last.room - n)
  }

  /** No merge that Compact attempts is short of room. */
  predicate CompactFits(last: Shape, rest: seq<Shape>)
    decreases |rest|
  {
    rest == [] ||
    if |last.payload| + |rest[0].payload| > SIZE then CompactFits(rest[0], rest[1..])
    else |rest[0].payload| <= last.room && CompactFits(Merged(last, rest[0]), rest[1..])
  }

  function AllPayloads(shapes: seq<Shape>): Bytes {
    if shapes == [] then [] else shapes[0].payload + AllPayloads(shapes[1..])
  }

  /** Compact conserves the content exactly when every attempted merge has room; otherwise it loses bytes. */
  lemma {:induction false} CompactConservesIff(last: Shape, rest: seq<Shape>)
    ensures Flat(CompactSpec(last, rest)) == last.payload + AllPayloads(rest) <==> CompactFits(last, rest)
    ensures |Flat(CompactSpec(last, rest))| <= |last.payload| + |AllPayloads(rest)|
    ensures !CompactFits(last, rest) ==>
              |Flat(CompactSpec(last, rest))| < |last.payload| + |AllPayloads(rest)|
    decreases |rest|
  {
    if rest == [] {
      FlatOne(last.payload);
    } else if |last.payload| + |rest[0].payload| > SIZE {
      CompactConservesIff(rest[0], rest[1..]);
      var tail := CompactSpec(rest[0], rest[1..]);
      assert ([last.payload] + tail)[1..] == tail;
    } else {
      var m := Merged(last, rest[0]);
      CompactConservesIff(m, rest[1..]);
      if |rest[0].payload| <= last.room {
        assert m.payload + AllPayloads(rest[1..]) == last.payload + (rest[0].payload + AllPayloads(rest[1..]));
      }
    }
  }

  /** Buffers of the standard capacity whose content starts at the front always have the room. */
  lemma {:induction false} CompactFitsAtFront(last: Shape, rest: seq<Shape>)
    requires |last.payload| + last.room == SIZE
    requires forall i :: 0 <= i < |rest| ==> |rest[i].payload| + rest[i].room == SIZE
    ensures CompactFits(last, rest)
    decreases |rest|
  {
    if rest != [] {
      if |last.payload| + |rest[0].payload| > SIZE {
        CompactFitsAtFront(rest[0], rest[1..]);
      } else {
        CompactFitsAtFront(Merged(last, rest[0]), rest[1..]);
      }
    }
  }

  /** Two buffers, the first full to its end and read but for a byte: the lengths pass Compact's test, the
      room does not, and the byte of the second is gone. */
  lemma CompactLosesBytes()
    ensures var last, curr := Shape([7], 0), Shape([8], SIZE - 1);
            && |last.payload| + |curr.payload| <= SIZE && !CompactFits(last, [curr])
            && Flat(CompactSpec(last, [curr])) == [7]
  {
    var last, curr := Shape([7], 0), Shape([8], SIZE - 1);
    assert [8][..0] == [] && Merged(last, curr) == last;
    assert [curr][0] == curr && [curr][1..] == [];
    assert CompactSpec(last, []) == [[7]];
    assert CompactSpec(last, [curr]) == [[7]];
    FlatOne([7]);
  }

  lemma {:induction false} AllPayloadsFlat(mb: MultiBuffer)
    requires Owned(mb)
    ensures AllPayloads(Shapes(mb)) == Content(mb)
  {
    if mb != [] {
      AllPayloadsFlat(mb[1..]);
      assert Shapes(mb)[1..] == Shapes(mb[1..]);
      assert Payloads(mb)[1..] == Payloads(mb[1..]);
    }
  }

  /** A buffer as the loop of Compact leaves it: still holding something, or released. */
  datatype View = Gone | Live(shape: Shape)

  ghost predicate Alive(mb: MultiBuffer)
    reads mb
  {
    forall i :: 0 <= i < |mb| ==> mb[i].released || mb[i].Valid()
  }

  ghost function Views(mb: MultiBuffer): (vs: seq<View>)
    requires Alive(mb)
    reads mb, Arrays(mb)
    ensures |vs| == |mb|
    ensures forall i :: 0 <= i < |mb| ==> vs[i] == if mb[i].released then Gone else Live(ShapeOf(mb[i]))
  {
    seq(|mb|, i requires 0 <= i < |mb| && (mb[i].released || mb[i].Valid()) reads mb, Arrays(mb) =>
      if mb[i].released then Gone else Live(ShapeOf(mb[i])))
  }

  /** From i on the buffers have the shapes qs, and hold something. */
  ghost predicate StillThere(vs: seq<View>, qs: seq<Shape>, i: nat)
    requires i <= |vs| && |qs| == |vs| - i
  {
    forall n :: 0 <= n < |qs| ==> vs[i + n] == Live(qs[n]) && qs[n].payload != []
  }

  lemma NextThere(vs: seq<View>, qs: seq<Shape>, i: nat)
    requires i < |vs| && |qs| == |vs| - i && StillThere(vs, qs, i)
    ensures vs[i] == Live(qs[0]) && qs[0].payload != []
  {
    assert vs[i + 0] == Live(qs[0]);
  }

  lemma StillToCome(vs: seq<View>, qs: seq<Shape>, i: nat)
    requires i < |vs| && |qs| == |vs| - i && StillThere(vs, qs, i)
    ensures StillThere(vs, qs[1..], i + 1)
  {
    forall n | 0 <= n < |qs[1..]| ensures vs[i + 1 + n] == Live(qs[1..][n]) && qs[1..][n].payload != [] {
      assert qs[1..][n] == qs[n + 1] && vs[i + (n + 1)] == Live(qs[n + 1]);
    }
  }

  /** The loop of Compact: the buffers at idx are finished with contents `done`, the one at `last` is
      being filled and has the given shape, and qs are the shapes still to come. */
  ghost predicate Compacting(vs: seq<View>, idx: seq<int>, last: nat, i: nat,
                             done: seq<Bytes>, shape: Shape, qs: seq<Shape>)
  {
    && last < i <= |vs| && |qs| == |vs| - i && |done| == |idx|
    && (forall k :: 0 <= k < |idx| ==> 0 <= idx[k] < last)
    && (forall k, l :: 0 <= k < l < |idx| ==> idx[k] < idx[l])
    && (forall k :: 0 <= k < |idx| ==> vs[idx[k]].Live? && vs[idx[k]].shape.payload == done[k])
    && vs[last] == Live(shape)
    && StillThere(vs, qs, i)
    && (forall j :: 0 <= j < i && j != last ==> j in idx || vs[j].Gone?)
  }

  lemma CompactingNext(vs: seq<View>, idx: seq<int>, last: nat, i: nat,
                       done: seq<Bytes>, shape: Shape, qs: seq<Shape>)
    requires i < |vs| && Compacting(vs, idx, last, i, done, shape, qs)
    ensures Compacting(vs, idx + [last], i, i + 1, done + [shape.payload], qs[0], qs[1..])
  {
    var more, all := idx + [last], done + [shape.payload];
    forall k | 0 <= k < |more|
      ensures 0 <= more[k] < i && vs[more[k]].Live? && vs[more[k]].shape.payload == all[k]
    {
      assert more[k] == if k < |idx| then idx[k] else last;
    }
    forall j | 0 <= j < i + 1 && j != i ensures j in more || vs[j].Gone? {
      assert more[|idx|] == last;
      if j in idx {
        var k :| 0 <= k < |idx| && idx[k] == j;
        assert more[k] == j;
      }
    }
    StillToCome(vs, qs, i);
  }

  lemma CompactingMerged(vs: seq<View>, idx: seq<int>, last: nat, i: nat,
                         done: seq<Bytes>, shape: Shape, qs: seq<Shape>)
    requires i < |vs| && Compacting(vs, idx, last, i, done, shape, qs)
    ensures Compacting(vs[last := Live(Merged(shape, qs[0]))][i := Gone],
                       idx, last, i + 1, done, Merged(shape, qs[0]), qs[1..])
  {
    var m, rest := Merged(shape, qs[0]), qs[1..];
    hide Merged;
    var ws := vs[last := Live(m)][i := Gone];
    forall k | 0 <= k < |idx| ensures ws[idx[k]].Live? && ws[idx[k]].shape.payload == done[k] {
      assert ws[idx[k]] == vs[idx[k]];
    }
    assert forall j :: i < j < |vs| ==> ws[j] == vs[j];
    StillToCome(vs, qs, i);
    assert StillThere(ws, rest, i + 1);
    forall j | 0 <= j < i + 1 && j != last ensures j in idx || ws[j].Gone? {
      assert j < i ==> ws[j] == vs[j];
    }
    assert ws[last] == Live(m);
  }

  lemma CompactUnfold(done: seq<Bytes>, last: Shape, qs: seq<Shape>)
    ensures qs == [] ==> done + CompactSpec(last, qs) == done + [last.payload]
    ensures qs != [] ==>
              done + CompactSpec(last, qs) ==
                if |last.payload| + |qs[0].payload| > SIZE
                then done + [last.payload] + CompactSpec(qs[0], qs[1..])
                else done + CompactSpec(Merged(last, qs[0]), qs[1..])
  {
  }

  /** The buffers at idx, and then the one at `last`. */
  ghost predicate Picked(r: MultiBuffer, mb: MultiBuffer, idx: seq<int>) {
    |r| == |idx| && forall k :: 0 <= k < |r| ==> 0 <= idx[k] < |mb| && r[k] == mb[idx[k]]
  }

  lemma CompactingDone(mb: MultiBuffer, r: MultiBuffer, idx: seq<int>, last: nat,
                       done: seq<Bytes>, shape: Shape)
    requires Distinct(mb) && Alive(mb) && Picked(r, mb, idx) && last < |mb|
    requires Compacting(Views(mb), idx, last, |mb|, done, shape, [])
    ensures Owned(r + [mb[last]]) && Payloads(r + [mb[last]]) == done + [shape.payload]
    ensures forall b :: b in r + [mb[last]] ==> b in mb
    ensures forall b :: b in mb ==> b in r + [mb[last]] || b.released
  {
    var all := r + [mb[last]];
    forall k | 0 <= k < |all| ensures all[k] in mb && all[k].Valid() && all[k].Bytes() == (done + [shape.payload])[k] {
      assert all[k] == mb[if k < |r| then idx[k] else last];
    }
    assert Distinct(all) by {
      forall k, l | 0 <= k < l < |all| ensures all[k] != all[l] && all[k].v != all[l].v {
        assert all[k] == mb[idx[k]] && all[l] == mb[if l < |r| then idx[l] else last];
      }
    }
    forall b | b in mb ensures b in all || b.released {
      var j :| 0 <= j < |mb| && mb[j] == b;
      if j in idx {
        var k :| 0 <= k < |idx| && idx[k] == j;
        assert all[k] == b;
      } else if j == last {
        assert all[|r|] == b;
      }
    }
  }

  /** Compact: merge neighbours while their lengths add up to at most one buffer. A merged buffer
      must not be empty: its Read reports EOF, which the source turns into a panic. */
  method Compact(mb: MultiBuffer) returns (r: MultiBuffer)
    requires Owned(mb)
    requires forall i :: 1 <= i < |mb| ==> !mb[i].IsEmpty()
    modifies mb, Arrays(mb)
    ensures Owned(r) && forall b :: b in r ==> b in mb
    ensures forall b :: b in mb ==> b in r || b.released
    ensures mb == [] ==> r == []
    ensures mb != [] ==> Payloads(r) == CompactSpec(old(Shapes(mb))[0], old(Shapes(mb))[1..])
  {
    hide MidCompact, CompactSpec, Payloads, Shapes, Distinct;
    if |mb| == 0 {
      return mb;
    }
    ghost var result := CompactSpec(Shapes(mb)[0], Shapes(mb)[1..]);
    ghost var g := Progress([], [], Shapes(mb)[0], Shapes(mb)[1..]);
    CompactingStarts(mb);
    r := [];
    var last: nat, i: nat := 0, 1;
    while i < |mb|
      invariant i <= |mb| && MidCompact(mb, r, last, i, g, result)
    {
      r, last, g := CompactStep(mb, r, last, i, g, result);
      i := i + 1;
    }
    r := CompactLast(mb, r, last, g, result);
  }

  /** The ghost side of the loop of Compact. */
  datatype Progress = Progress(idx: seq<int>, done: seq<Bytes>, shape: Shape, qs: seq<Shape>)

  ghost predicate MidCompact(mb: MultiBuffer, r: MultiBuffer, last: nat, i: nat, g: Progress, result: seq<Bytes>)
    reads mb, Arrays(mb)
  {
    && Distinct(mb) && Alive(mb) && Picked(r, mb, g.idx) && last < i <= |mb| && |mb| == i + |g.qs|
    && Compacting(Views(mb), g.idx, last, i, g.done, g.shape, g.qs)
    && g.done + CompactSpec(g.shape, g.qs) == result
  }

  lemma CompactingStarts(mb: MultiBuffer)
    requires Owned(mb) && mb != [] && forall i :: 1 <= i < |mb| ==> !mb[i].IsEmpty()
    ensures MidCompact(mb, [], 0, 1, Progress([], [], Shapes(mb)[0], Shapes(mb)[1..]),
                       CompactSpec(Shapes(mb)[0], Shapes(mb)[1..]))
  {
  }

  method CompactLast(mb: MultiBuffer, r: MultiBuffer, last: nat, ghost g: Progress, ghost result: seq<Bytes>)
    returns (all: MultiBuffer)
    requires MidCompact(mb, r, last, |mb|, g, result)
    ensures Owned(all) && Payloads(all) == result
    ensures forall b :: b in all ==> b in mb
    ensures forall b :: b in mb ==> b in all || b.released
  {
    hide Compacting, CompactSpec, Views;
    assert g.qs == [];
    CompactUnfold(g.done, g.shape, g.qs);
    CompactingDone(mb, r, g.idx, last, g.done, g.shape);
    all := r + [mb[last]];
  }

  method CompactStep(mb: MultiBuffer, r: MultiBuffer, last: nat, i: nat, ghost g: Progress, ghost result: seq<Bytes>)
    returns (r': MultiBuffer, last': nat, ghost g': Progress)
    requires i < |mb| && MidCompact(mb, r, last, i, g, result)
    modifies mb, Arrays(mb)
    ensures MidCompact(mb, r', last', i + 1, g', result)
  {
    hide CompactSpec, Merged, StillThere;
    ghost var vs := Views(mb);
    ghost var Progress(idx, done, shape, qs) := g;
    CompactUnfold(done, shape, qs);
    NextThere(vs, qs, i);
    assert vs[last] == Live(shape) && vs[i] == Live(qs[0]);
    if mb[last].Len() + mb[i].Len() > SIZE {
      CompactingNext(vs, idx, last, i, done, shape, qs);
      r', last' := r + [mb[last]], i;
      g' := Progress(idx + [last], done + [shape.payload], qs[0], qs[1..]);
    } else {
      CompactingMerged(vs, idx, last, i, done, shape, qs);
      MergeInto(mb, last, i);
      r', last' := r, last;
      g' := Progress(idx, done, Merged(shape, qs[0]), qs[1..]);
    }
  }

  /** last.ReadFrom(curr), then curr.Release(). */
  method MergePair(last: Buffer, curr: Buffer)
    requires last.Valid() && curr.Valid() && last != curr && last.v != curr.v
    modifies last, last.v, curr
    ensures last.Valid() && curr.released
    ensures ShapeOf(last) == Merged(old(ShapeOf(last)), old(ShapeOf(curr)))
  {
    ghost var a, b := ShapeOf(last), ShapeOf(curr);
    var n, err := last.ReadFromBuffer(curr);
    assert last.Bytes() == a.payload + b.payload[..n];
    curr.Release();
    assert last.Bytes() == a.payload + b.payload[..n] && last.Room() == a.room - n;
  }

  method MergeInto(mb: MultiBuffer, last: nat, i: nat)
    requires Distinct(mb) && Alive(mb) && last < i < |mb| && mb[last].Valid() && mb[i].Valid()
    modifies mb[last], mb[last].v, mb[i]
    ensures Alive(mb)
    ensures Views(mb) == old(Views(mb))[last := Live(Merged(old(ShapeOf(mb[last])), old(ShapeOf(mb[i]))))][i := Gone]
  {
    hide Views, Merged, ShapeOf;
    MergePair(mb[last], mb[i]);
    forall j | 0 <= j < |mb| && j != last && j != i ensures unchanged(mb[j]) && unchanged(mb[j].v) {
      assert mb[j] != mb[last] && mb[j].v != mb[last].v && mb[j] != mb[i];
    }
  }
}
