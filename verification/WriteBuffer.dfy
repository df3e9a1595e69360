/** common/buf/writer.go on contents: what each call on a buffered writer sends and keeps back while
    the sink takes everything, and what every run of such calls conserves. */
module WriteBuffers {
  import opened Bytes
  import opened Buffers

  datatype State = State(sent: seq<seq<Bytes>>, buffer: Bytes, buffered: bool)

  /** Sent, then buffered: every byte accepted so far. */
  ghost function Accepted(st: State): Bytes {
    FlatAll(st.sent) + st.buffer
  }

  /** Unbuffered mode keeps nothing back, and the buffer is never left full. */
  predicate Settled(st: State) {
    |st.buffer| < SIZE && (!st.buffered ==> st.buffer == [])
  }

  function Flush(st: State): State {
    if st.buffer == [] then st else st.(sent := st.sent + [[st.buffer]], buffer := [])
  }

  function SetBuffered(st: State, f: bool): State {
    if f then st.(buffered := true) else Flush(st.(buffered := false))
  }

  /** How much of the data the buffer takes next. */
  function Piece(st: State, data: Bytes): nat
    requires |st.buffer| < SIZE
  {
    Min(|data|, SIZE - |st.buffer|)
  }

  /** One turn: put a piece in the buffer, and send the buffer off when it is full, or at once in
      unbuffered mode. */
  function Turn(st: State, data: Bytes): State
    requires |st.buffer| < SIZE
  {
    var filled := st.(buffer := st.buffer + data[..Piece(st, data)]);
    if !st.buffered || |filled.buffer| == SIZE then Flush(filled) else filled
  }

  function Pour(st: State, data: Bytes): State
    requires |st.buffer| < SIZE
    decreases |data|
  {
    if data == [] then st else Pour(Turn(st, data), data[Piece(st, data)..])
  }

  function Write(st: State, isIoWriter: bool, b: Bytes): State
    requires |st.buffer| < SIZE
  {
    if b == [] then st
    else if !st.buffered && isIoWriter then st.(sent := st.sent + [[b]])
    else Pour(st, b)
  }

  function WriteMultiBuffer(st: State, ps: seq<Bytes>): State
    requires |st.buffer| < SIZE
  {
    if Flat(ps) == [] then st
    else if !st.buffered then st.(sent := st.sent + [ps])
    else Pour(st, Flat(ps))
  }

  lemma FlushKeeps(st: State)
    ensures Accepted(Flush(st)) == Accepted(st) && Flush(st).buffer == []
  {
    FlatOne(st.buffer);
    FlatAllSnoc(st.sent, [st.buffer]);
  }

  lemma TurnConserves(st: State, data: Bytes)
    requires Settled(st)
    ensures Accepted(Turn(st, data)) == Accepted(st) + data[..Piece(st, data)]
    ensures Settled(Turn(st, data)) && Turn(st, data).buffered == st.buffered
  {
    var filled := st.(buffer := st.buffer + data[..Piece(st, data)]);
    FlushKeeps(filled);
    assert Accepted(filled) == Accepted(st) + data[..Piece(st, data)];
  }

  /** A copy loop started from st0 with `b` is at st with `rest` still to pour. */
  ghost predicate Pouring(st0: State, st: State, b: Bytes, rest: Bytes)
    requires Settled(st0)
  {
    && Settled(st) && st.buffered == st0.buffered
    && Pour(st, rest) == Pour(st0, b)
    && Accepted(st) + rest == Accepted(st0) + b
  }

  /** What is left to pour only adds writes. */
  lemma {:induction false} PourAdds(st: State, data: Bytes)
    requires Settled(st)
    ensures st.sent <= Pour(st, data).sent
    decreases |data|
  {
    if data != [] {
      TurnConserves(st, data);
      PourAdds(Turn(st, data), data[Piece(st, data)..]);
    }
  }

  /** How much of b a copy has taken when the sink refuses a write after these: the refused buffer and what
      it was filled up with count as taken. */
  ghost function Taken(st0: State, b: Bytes, sent: seq<seq<Bytes>>): int {
    Min(|b|, |FlatAll(sent)| + SIZE - |Accepted(st0)|)
  }

  lemma TakenThere(st0: State, st: State, b: Bytes, rest: Bytes)
    requires Settled(st0) && Pouring(st0, st, b, rest) && |rest| <= |b|
    ensures Taken(st0, b, st.sent) == |b| - |rest| + Piece(st, rest)
    ensures st.sent <= Pour(st0, b).sent
  {
    assert |Accepted(st) + rest| == |Accepted(st0) + b|;
    PourAdds(st, rest);
  }

  lemma PouringStep(st0: State, st: State, b: Bytes, rest: Bytes)
    requires Settled(st0) && Pouring(st0, st, b, rest) && rest != []
    ensures Pouring(st0, Turn(st, rest), b, rest[Piece(st, rest)..]) && Piece(st, rest) > 0
    ensures FlatAll(st.sent) <= Accepted(st0) + b
  {
    var k := Piece(st, rest);
    TurnConserves(st, rest);
    assert Accepted(st) + rest == (Accepted(st) + rest[..k]) + rest[k..];
    assert Accepted(st) + rest == FlatAll(st.sent) + (st.buffer + rest);
  }

  lemma TurnPiece(st: State, data: Bytes)
    requires |st.buffer| < SIZE
    ensures Piece(st, data[..Piece(st, data)]) == Piece(st, data)
    ensures Turn(st, data[..Piece(st, data)]) == Turn(st, data)
  {
    var k := Piece(st, data);
    assert data[..k][..k] == data[..k];
  }

  /** Pouring conserves every byte in order and leaves the buffer settled. */
  lemma {:induction false} PourConserves(st: State, data: Bytes)
    requires Settled(st)
    ensures Accepted(Pour(st, data)) == Accepted(st) + data
    ensures Settled(Pour(st, data)) && Pour(st, data).buffered == st.buffered
    decreases |data|
  {
    if data != [] {
      var n := Piece(st, data);
      TurnConserves(st, data);
      PourConserves(Turn(st, data), data[n..]);
      assert Accepted(st) + data == Accepted(st) + data[..n] + data[n..];
    }
  }

  /** While buffering, only full blocks are sent, and what stays back is the remainder. */
  lemma {:induction false} PourBlocks(st: State, data: Bytes)
    requires Settled(st) && st.buffered
    ensures st.sent <= Pour(st, data).sent
    ensures forall i :: |st.sent| <= i < |Pour(st, data).sent| ==>
              |Pour(st, data).sent[i]| == 1 && |Pour(st, data).sent[i][0]| == SIZE
    ensures |Pour(st, data).buffer| == (|st.buffer| + |data|) % SIZE
    decreases |data|
  {
    if data != [] {
      PourBlocks(Turn(st, data), data[Piece(st, data)..]);
    }
  }

  datatype Op =
    | OpWrite(b: Bytes)
    | OpWriteMultiBuffer(ps: seq<Bytes>)
    | OpFlush
    | OpSetBuffered(f: bool)

  function Step(st: State, isIoWriter: bool, op: Op): State
    requires |st.buffer| < SIZE
  {
    match op
    case OpWrite(b) => Write(st, isIoWriter, b)
    case OpWriteMultiBuffer(ps) => WriteMultiBuffer(st, ps)
    case OpFlush => Flush(st)
    case OpSetBuffered(f) => SetBuffered(st, f)
  }

  function Input(op: Op): Bytes {
    match op
    case OpWrite(b) => b
    case OpWriteMultiBuffer(ps) => Flat(ps)
    case _ => []
  }

  lemma StepConserves(st: State, isIoWriter: bool, op: Op)
    requires Settled(st)
    ensures Settled(Step(st, isIoWriter, op))
    ensures Accepted(Step(st, isIoWriter, op)) == Accepted(st) + Input(op)
  {
    match op
    case OpWrite(b) =>
      PourConserves(st, b);
      FlatOne(b);
      FlatAllSnoc(st.sent, [b]);
    case OpWriteMultiBuffer(ps) =>
      PourConserves(st, Flat(ps));
      FlatAllSnoc(st.sent, ps);
    case OpFlush => FlushKeeps(st);
    case OpSetBuffered(f) => FlushKeeps(st.(buffered := false));
  }

  ghost function Run(st: State, isIoWriter: bool, ops: seq<Op>): State
    requires Settled(st)
    decreases |ops|
  {
    if ops == [] then st
    else
      StepConserves(st, isIoWriter, ops[0]);
      Run(Step(st, isIoWriter, ops[0]), isIoWriter, ops[1..])
  }

  function Inputs(ops: seq<Op>): Bytes {
    if ops == [] then [] else Input(ops[0]) + Inputs(ops[1..])
  }

  /** Over any interleaving of the four calls, sent followed by buffered is exactly what was accepted. */
  lemma {:induction false} RunConserves(st: State, isIoWriter: bool, ops: seq<Op>)
    requires Settled(st)
    ensures Settled(Run(st, isIoWriter, ops))
    ensures Accepted(Run(st, isIoWriter, ops)) == Accepted(st) + Inputs(ops)
    decreases |ops|
  {
    if ops != [] {
      StepConserves(st, isIoWriter, ops[0]);
      RunConserves(Step(st, isIoWriter, ops[0]), isIoWriter, ops[1..]);
    }
  }

  predicate Contentful(ws: seq<seq<Bytes>>) {
    forall i :: 0 <= i < |ws| ==> Flat(ws[i]) != []
  }

  lemma {:induction false} PourContentful(st: State, data: Bytes)
    requires Settled(st) && Contentful(st.sent)
    ensures Contentful(Pour(st, data).sent)
    decreases |data|
  {
    if data != [] {
      TurnConserves(st, data);
      FlatOne(st.buffer + data[..Piece(st, data)]);
      PourContentful(Turn(st, data), data[Piece(st, data)..]);
    }
  }

  /** And the sink never gets a write without content. */
  lemma {:induction false} RunContentful(st: State, isIoWriter: bool, ops: seq<Op>)
    requires Settled(st) && Contentful(st.sent)
    ensures Contentful(Run(st, isIoWriter, ops).sent)
    decreases |ops|
  {
    hide Pour;
    if ops != [] {
      StepConserves(st, isIoWriter, ops[0]);
      FlatOne(st.buffer);
      match ops[0] {
        case OpWrite(b) =>
          PourContentful(st, b);
          FlatOne(b);
        case OpWriteMultiBuffer(ps) => PourContentful(st, Flat(ps));
        case OpFlush =>
        case OpSetBuffered(f) =>
      }
      RunContentful(Step(st, isIoWriter, ops[0]), isIoWriter, ops[1..]);
    }
  }

  /** The lists with content. */
  function Contents(ws: seq<seq<Bytes>>): seq<seq<Bytes>> {
    if ws == [] then [] else (if Flat(ws[0]) != [] then [ws[0]] else []) + Contents(ws[1..])
  }

  function ListWrites(ws: seq<seq<Bytes>>): seq<Op> {
    if ws == [] then [] else [OpWriteMultiBuffer(ws[0])] + ListWrites(ws[1..])
  }

  lemma RunCons(st: State, isIoWriter: bool, op: Op, ops: seq<Op>)
    requires Settled(st)
    ensures Settled(Step(st, isIoWriter, op))
    ensures Run(st, isIoWriter, [op] + ops) == Run(Step(st, isIoWriter, op), isIoWriter, ops)
  {
    StepConserves(st, isIoWriter, op);
    assert ([op] + ops)[1..] == ops;
  }

  lemma OneMore(sent: seq<seq<Bytes>>, ps: seq<Bytes>, more: seq<seq<Bytes>>)
    ensures (if Flat(ps) != [] then sent + [ps] else sent) + more ==
              sent + ((if Flat(ps) != [] then [ps] else []) + more)
  {
  }

  /** In unbuffered mode each list with content is one write on the sink, with its buffers as they were. */
  lemma {:induction false} UnbufferedPasses(st: State, isIoWriter: bool, ws: seq<seq<Bytes>>)
    requires Settled(st) && !st.buffered
    ensures Run(st, isIoWriter, ListWrites(ws)) == st.(sent := st.sent + Contents(ws))
    decreases |ws|
  {
    hide Run, Pour, Flat, Settled;
    if ws == [] {
      RunNone(st, isIoWriter);
    } else {
      RunCons(st, isIoWriter, OpWriteMultiBuffer(ws[0]), ListWrites(ws[1..]));
      UnbufferedPasses(WriteMultiBuffer(st, ws[0]), isIoWriter, ws[1..]);
      OneMore(st.sent, ws[0], Contents(ws[1..]));
    }
  }

  lemma RunNone(st: State, isIoWriter: bool)
    requires Settled(st)
    ensures Run(st, isIoWriter, []) == st && st.sent + [] == st.sent
  {
  }
}
