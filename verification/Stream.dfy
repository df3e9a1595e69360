/** common/buf/reader.go on contents: what each call on a buffered reader delivers, and what every run
    of such calls conserves. */
module Streams {
  import opened Bytes
  import opened MultiBuffers

  /** The reader's state: buffered contents, the lists the source will still hand out, and the
      error it reports after that. Quantifying over `segs` is quantifying over all segmentations. */
  datatype State = State(buffer: seq<Bytes>, segs: seq<seq<Bytes>>, end: Error)

  /** What an operation delivers: a list of contents, or an error. */
  datatype Outcome = Outcome(mb: seq<Bytes>, err: Error)

  /** Every byte not delivered yet. */
  function Pending(st: State): Bytes {
    Flat(st.buffer) + FlatAll(st.segs)
  }

  function SegWork(segs: seq<seq<Bytes>>): nat {
    if segs == [] then 0 else 1 + |segs[0]| + SegWork(segs[1..])
  }

  /** List entries and source reads left: with the pending bytes, a bound on the calls to come. */
  function Work(st: State): nat {
    |Pending(st)| + |st.buffer| + SegWork(st.segs)
  }

  /** A list without content is replaced by nil. */
  function Trim(ps: seq<Bytes>): seq<Bytes> {
    if Flat(ps) == [] then [] else ps
  }

  /** Read into a slice of n bytes. */
  function Read(st: State, n: nat): (State, Outcome) {
    if Flat(st.buffer) != [] then
      (st.(buffer := Trim(DropBytes(st.buffer, n))),
       Outcome([Flat(st.buffer)[..Min(n, |Flat(st.buffer)|)]], NoError))
    else if st.segs == [] then
      (st, Outcome([], st.end))
    else
      var mb := st.segs[0];
      var rest := DropBytes(mb, n);
      (State(if Flat(rest) != [] then rest else st.buffer, st.segs[1..], st.end),
       Outcome([Flat(mb)[..Min(n, |Flat(mb)|)]], NoError))
  }

  /** ReadByte delivers the byte slot whatever Read put in it: 0 when Read read nothing. */
  function ReadByte(st: State): (State, Outcome) {
    var (st', out) := Read(st, 1);
    (st', if out.err == NoError && Flat(out.mb) == [] then Outcome([[0]], NoError) else out)
  }

  function ReadMultiBuffer(st: State): (State, Outcome) {
    if Flat(st.buffer) != [] then (st.(buffer := []), Outcome(st.buffer, NoError))
    else if st.segs == [] then (st, Outcome([], st.end))
    else (st.(segs := st.segs[1..]), Outcome(st.segs[0], NoError))
  }

  /** ReadAtMost once the internal buffer holds `buffer`. */
  function SplitOff(buffer: seq<Bytes>, segs: seq<seq<Bytes>>, end: Error, size: nat): (State, Outcome) {
    (State(Trim(Left(buffer, size)), segs, end), Outcome(Taken(buffer, size), NoError))
  }

  function ReadAtMost(st: State, size: nat): (State, Outcome) {
    if Flat(st.buffer) != [] then SplitOff(st.buffer, st.segs, st.end, size)
    else if st.segs == [] then (st, Outcome([], st.end))
    else SplitOff(st.segs[0], st.segs[1..], st.end, size)
  }

  // ---- Conservation over every run ----

  datatype Op = OpRead(n: nat) | OpReadByte | OpReadMultiBuffer | OpReadAtMost(size: nat)

  function Step(st: State, op: Op): (State, Outcome) {
    match op
    case OpRead(n) => Read(st, n)
    case OpReadByte => ReadByte(st)
    case OpReadMultiBuffer => ReadMultiBuffer(st)
    case OpReadAtMost(size) => ReadAtMost(st, size)
  }

  /** ReadByte has a byte to deliver, or an error to report. */
  predicate ByteReady(st: State) {
    Flat(st.buffer) != [] || st.segs == [] || Flat(st.segs[0]) != []
  }

  lemma TrimFlat(ps: seq<Bytes>)
    ensures Flat(Trim(ps)) == Flat(ps)
  {
  }

  /** The outcome tells the truth: an error is the source's own, and only once nothing is left. */
  ghost predicate Faithful(st: State, st': State, out: Outcome) {
    && Flat(out.mb) + Pending(st') == Pending(st)
    && st'.end == st.end
    && (out.err != NoError ==> out == Outcome([], st.end) && st' == st && st.segs == [] && Pending(st) == [])
  }

  /** One step delivers the next bytes of the stream, or reports the source's error once nothing is left. */
  lemma StepConserves(st: State, op: Op)
    requires st.end != NoError && (op.OpReadByte? ==> ByteReady(st))
    ensures Faithful(st, Step(st, op).0, Step(st, op).1)
    ensures Flat(st.buffer) == [] && st.segs == [] ==> Step(st, op).1.err == st.end
  {
    match op
    case OpRead(n) => ReadConserves(st, n);
    case OpReadByte => ReadByteConserves(st);
    case OpReadMultiBuffer =>
    case OpReadAtMost(size) => ReadAtMostConserves(st, size);
  }

  lemma ReadConserves(st: State, n: nat)
    ensures Faithful(st, Read(st, n).0, Read(st, n).1)
    ensures |Flat(Read(st, n).1.mb)| <= n
    ensures Flat(st.buffer) != [] ==>
              Read(st, n).0.segs == st.segs &&
              Flat(Read(st, n).1.mb) + Flat(Read(st, n).0.buffer) == Flat(st.buffer)
    ensures n > 0 && (Flat(st.buffer) != [] || (st.segs != [] && Flat(st.segs[0]) != [])) ==>
              Flat(Read(st, n).1.mb) != []
  {
    assert Flat([]) == [];
    hide DropBytes, Flat;
    var mb := if Flat(st.buffer) != [] || st.segs == [] then st.buffer else st.segs[0];
    var m := Min(n, |Flat(mb)|);
    DropBytesConserves(mb, n);
    FlatOne(Flat(mb)[..m]);
    assert Flat(mb) == Flat(mb)[..m] + Flat(mb)[m..];
    Glue(Flat(mb)[..m], Flat(mb)[m..], FlatAll(if Flat(st.buffer) != [] then st.segs else Read(st, n).0.segs));
  }

  lemma ReadByteConserves(st: State)
    requires st.end != NoError && ByteReady(st)
    ensures Faithful(st, ReadByte(st).0, ReadByte(st).1)
  {
    ReadConserves(st, 1);
  }

  lemma ReadAtMostConserves(st: State, size: nat)
    ensures Faithful(st, ReadAtMost(st, size).0, ReadAtMost(st, size).1)
  {
    var mb := if Flat(st.buffer) != [] || st.segs == [] then st.buffer else st.segs[0];
    SplitSizeConserves(mb, size);
    TrimFlat(Left(mb, size));
  }

  /** ReadByte keeps the stream intact exactly when it has a byte ready; otherwise it invents a zero. */
  lemma ReadByteConservesIff(st: State)
    requires st.end != NoError
    ensures var (st', out) := ReadByte(st);
            Flat(out.mb) + Pending(st') == Pending(st) <==> ByteReady(st)
  {
    if ByteReady(st) {
      ReadByteConserves(st);
    } else {
      ByteInvented(st);
    }
  }

  /** ReadAtMost never delivers more than asked for. */
  lemma ReadAtMostBound(st: State, size: nat)
    ensures |Flat(ReadAtMost(st, size).1.mb)| <= size
  {
    var mb := if Flat(st.buffer) != [] || st.segs == [] then st.buffer else st.segs[0];
    SplitSizeConserves(mb, size);
  }

  /** ReadMultiBuffer takes all that is buffered and leaves the source alone, or else the next list whole. */
  lemma ReadMultiBufferDrains(st: State)
    ensures var (st', out) := ReadMultiBuffer(st);
            && Flat(st'.buffer) == []
            && (Flat(st.buffer) != [] ==> st'.segs == st.segs && Flat(out.mb) == Flat(st.buffer))
            && (Flat(st.buffer) == [] && st.segs != [] ==> [out.mb] + st'.segs == st.segs && out.err == NoError)
  {
  }

  /** The states and outcomes of a run. */
  function Run(st: State, ops: seq<Op>): (State, seq<Bytes>)
    decreases |ops|
  {
    if ops == [] then (st, [])
    else
      var (st1, out) := Step(st, ops[0]);
      var (st2, rest) := Run(st1, ops[1..]);
      (st2, out.mb + rest)
  }

  predicate RunReady(st: State, ops: seq<Op>)
    decreases |ops|
  {
    ops == [] ||
    ((ops[0].OpReadByte? ==> ByteReady(st)) && RunReady(Step(st, ops[0]).0, ops[1..]))
  }

  lemma Glue(a: Bytes, b: Bytes, c: Bytes)
    ensures (a + b) + c == a + (b + c)
  {
  }

  /** Over any run of the four operations, what was delivered followed by what is pending is the
      stream the run started with, exactly when no ReadByte came before its byte; each that did
      added one byte of its own. */
  lemma {:induction false} RunConservesIff(st: State, ops: seq<Op>)
    requires st.end != NoError
    ensures var (st', delivered) := Run(st, ops);
            && (Flat(delivered) + Pending(st') == Pending(st) <==> RunReady(st, ops))
            && |Flat(delivered)| + |Pending(st')| >= |Pending(st)|
            && (!RunReady(st, ops) ==> |Flat(delivered)| + |Pending(st')| > |Pending(st)|)
    decreases |ops|
  {
    if ops != [] {
      var (st1, out) := Step(st, ops[0]);
      var (st2, rest) := Run(st1, ops[1..]);
      FlatAppend(out.mb, rest);
      Glue(Flat(out.mb), Flat(rest), Pending(st2));
      if ops[0].OpReadByte? && !ByteReady(st) {
        ByteInvented(st);
      } else {
        StepConserves(st, ops[0]);
      }
      RunConservesIff(st1, ops[1..]);
    }
  }

  lemma ByteInvented(st: State)
    requires st.end != NoError && !ByteReady(st)
    ensures ReadByte(st).1 == Outcome([[0]], NoError) && ReadByte(st).0.end == st.end
    ensures Flat([[0]]) == [0] && Pending(ReadByte(st).0) == Pending(st)
  {
    ReadConserves(st, 1);
    FlatOne([0]);
    FlatOne([]);
  }

  /** Every step that reports no error leaves less to do: loops over a reader terminate. */
  lemma StepProgress(st: State, op: Op)
    requires op.OpRead? ==> op.n > 0
    requires op.OpReadAtMost? ==> op.size > 0
    requires st.end != NoError
    ensures Step(st, op).1.err == NoError ==> Work(Step(st, op).0) < Work(st)
  {
    match op
    case OpRead(n) => if Flat(st.buffer) != [] || st.segs != [] { DropProgress(st, n); }
    case OpReadByte => if Flat(st.buffer) != [] || st.segs != [] { DropProgress(st, 1); }
    case OpReadMultiBuffer =>
    case OpReadAtMost(size) =>
      var mb := if Flat(st.buffer) != [] || st.segs == [] then st.buffer else st.segs[0];
      if mb != [] {
        SplitSizeProgress(mb, size);
      }
  }

  lemma DropProgress(st: State, n: nat)
    requires n > 0 && (Flat(st.buffer) != [] || st.segs != [])
    ensures Work(Read(st, n).0) < Work(st)
  {
    var mb := if Flat(st.buffer) != [] || st.segs == [] then st.buffer else st.segs[0];
    DropBytesConserves(mb, n);
  }

  // ---- io.ReadFull: the calls that do not show the segmentation ----

  /** io.ReadFull: read until the slice of n bytes is full or the reader fails. */
  function ReadFull(st: State, n: nat): (State, Bytes, Error)
    requires st.end != NoError
    decreases Work(st)
  {
    if n == 0 then (st, [], NoError)
    else
      var (st1, out) := Read(st, n);
      if out.err != NoError then (st1, [], out.err)
      else
        StepProgress(st, OpRead(n));
        ReadConserves(st, n);
        var (st2, more, err) := ReadFull(st1, n - |Flat(out.mb)|);
        (st2, Flat(out.mb) + more, ShortRead(Flat(out.mb), err))
  }

  /** A clean end after some bytes is an unexpected one. */
  function ShortRead(data: Bytes, err: Error): Error {
    if err == EOF && data != [] then UnexpectedEOF else err
  }

  /** What io.ReadFull reports for n bytes: it depends on the pending bytes and on `end` alone. */
  function FullError(pending: Bytes, end: Error, n: nat): Error {
    if |pending| >= n then NoError else ShortRead(pending, end)
  }

  /** A reader went from st0 to st by delivering `data`, without reading the source if the first n
      bytes were buffered. */
  ghost predicate Delivered(st0: State, st: State, data: Bytes, n: nat) {
    && st.end == st0.end && data + Pending(st) == Pending(st0)
    && (n <= |Flat(st0.buffer)| ==> st.segs == st0.segs && data + Flat(st.buffer) == Flat(st0.buffer))
  }

  /** io.ReadFull delivers the next n bytes whatever the segmentation, or everything there is; it
      leaves the source alone when the bytes are buffered already. */
  lemma ReadFullDelivers(st: State, n: nat)
    requires st.end != NoError
    ensures var (st', data, err) := ReadFull(st, n);
            && Delivered(st, st', data, n) && Work(st') <= Work(st)
            && data == Pending(st)[..Min(n, |Pending(st)|)]
            && err == FullError(Pending(st), st.end, n)
  {
    ReadFullFills(st, n);
    ReadFullWork(st, n);
  }

  lemma {:induction false} ReadFullWork(st: State, n: nat)
    requires st.end != NoError
    ensures Work(ReadFull(st, n).0) <= Work(st)
    ensures n > 0 && ReadFull(st, n).2 == NoError ==> Work(ReadFull(st, n).0) < Work(st)
    decreases Work(st)
  {
    hide Read, Work, Pending;
    if n > 0 {
      var (st1, out) := Read(st, n);
      ReadConserves(st, n);
      if out.err == NoError {
        StepProgress(st, OpRead(n));
        ReadFullWork(st1, n - |Flat(out.mb)|);
      }
    }
  }

  lemma {:induction false} ReadFullFills(st: State, n: nat)
    requires st.end != NoError
    ensures var (st', data, err) := ReadFull(st, n);
            && Delivered(st, st', data, n)
            && if err == NoError then |data| == n
               else |data| < n && Pending(st') == [] && err == ShortRead(data, st.end)
    decreases Work(st)
  {
    hide Read, Work, Pending, Flat;
    if n > 0 {
      var (st1, out) := Read(st, n);
      ReadConserves(st, n);
      if out.err == NoError {
        StepProgress(st, OpRead(n));
        ReadFullFills(st1, n - |Flat(out.mb)|);
        var (st2, more, err) := ReadFull(st1, n - |Flat(out.mb)|);
        DeliveredTwice(st, st1, st2, Flat(out.mb), more, n);
      }
    }
  }

  lemma DeliveredTwice(st: State, st1: State, st2: State, part: Bytes, more: Bytes, n: nat)
    requires |part| <= n && Pending(st) == part + Pending(st1) && st1.end == st.end
    requires Flat(st.buffer) != [] ==> st1.segs == st.segs && Flat(st.buffer) == part + Flat(st1.buffer)
    requires n > 0 && Delivered(st1, st2, more, n - |part|)
    ensures Delivered(st, st2, part + more, n)
  {
    Glue(part, more, Pending(st2));
    Glue(part, more, Flat(st2.buffer));
  }

  /** The loop of io.ReadFull, started at st0, has `data` and is at st. */
  ghost predicate Filling(st0: State, st: State, data: Bytes, n: nat)
    requires st0.end != NoError
  {
    && st.end == st0.end && |data| <= n
    && ReadFull(st0, n).0 == ReadFull(st, n - |data|).0
    && ReadFull(st0, n).1 == data + ReadFull(st, n - |data|).1
    && ReadFull(st0, n).2 == ShortRead(data, ReadFull(st, n - |data|).2)
  }

  lemma FillingStarts(st: State, n: nat)
    requires st.end != NoError
    ensures Filling(st, st, [], n)
  {
  }

  lemma FillingTurn(st0: State, st: State, data: Bytes, n: nat)
    requires st0.end != NoError && Filling(st0, st, data, n) && |data| < n
    ensures var (st', out) := Read(st, n - |data|);
            && (out.err != NoError ==> ReadFull(st0, n) == (st', data, ShortRead(data, out.err)))
            && (out.err == NoError ==>
                  Filling(st0, st', data + Flat(out.mb), n) && Work(st') < Work(st))
  {
    hide Read, Work, Pending;
    var (st', out) := Read(st, n - |data|);
    ReadConserves(st, n - |data|);
    StepProgress(st, OpRead(n - |data|));
    if out.err == NoError {
      var (z, more, err) := ReadFull(st', n - |data| - |Flat(out.mb)|);
      Glue(data, Flat(out.mb), more);
    } else {
      assert data + [] == data;
    }
  }

  lemma FillingDone(st0: State, st: State, data: Bytes, n: nat)
    requires st0.end != NoError && Filling(st0, st, data, n) && |data| == n
    ensures ReadFull(st0, n) == (st, data, NoError)
  {
    assert data + [] == data;
  }
}
