/** What is at the other end of a buf.Writer, on values: it takes each write at once, or refuses it. */
module Links {
  import opened Bytes

  /** Call number i is refused when refuses(i), and every call after Close. */
  datatype Link = Link(writes: seq<seq<Bytes>>, calls: nat, closed: bool, refuses: nat -> bool) {
    predicate Refuses() {
      closed || refuses(calls)
    }

    /** Every byte taken so far. */
    function Sent(): Bytes {
      FlatAll(writes)
    }
  }

  function Send(l: Link, ps: seq<Bytes>): (Link, Error) {
    if l.Refuses() then (l.(calls := l.calls + 1), Failure("write refused"))
    else (l.(calls := l.calls + 1, writes := l.writes + [ps]), NoError)
  }

  function Close(l: Link): Link {
    l.(closed := true)
  }

  ghost predicate AcceptsAll(l: Link) {
    !l.closed && forall i :: i >= l.calls ==> !l.refuses(i)
  }
}
