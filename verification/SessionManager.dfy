/** common/mux/session.go: the sessions of one connection. */
module SessionManagers {
  import opened Bytes
  import opened Writers
  import Sessions

  /** The end of a session's input that can be told to stop; what comes out of it is elsewhere. */
  class Input {
    var closed: bool
    var interrupted: bool

    constructor ()
      ensures !closed && !interrupted
    {
      closed, interrupted := false, false;
    }

    method Close()
      modifies `closed
      ensures closed
    {
      closed := true;
    }

    method Interrupt()
      modifies `interrupted
      ensures interrupted
    {
      interrupted := true;
    }
  }

  /** A session. `index` says which of the worker's outputs it has. */
  class Session {
    const id: uint16
    const packets: bool
    const input: Input
    const output: Sink
    const parent: SessionManager
    ghost const index: nat

    constructor (id: uint16, packets: bool, input: Input, output: Sink, parent: SessionManager, ghost index: nat)
      ensures this.id == id && this.packets == packets && this.input == input && this.output == output
      ensures this.parent == parent && this.index == index
    {
      this.id, this.packets, this.input, this.output := id, packets, input, output;
      this.parent, this.index := parent, index;
    }

    /** Close: output and input are closed, and the session leaves its table, whatever is there by now
        under its id. */
    method Close()
      modifies output`closed, input`closed, parent
      ensures output.closed && input.closed && parent.Table() == Sessions.Remove(old(parent.Table()), id)
    {
      output.Close();
      input.Close();
      parent.Remove(id);
    }
  }

  class SessionManager {
    var sessions: map<uint16, Session>
    var count: uint16
    var closed: bool

    ghost function Table(): Sessions.Table<Session>
      reads this
    {
      Sessions.Table(sessions, count, closed)
    }

    constructor ()
      ensures Table() == Sessions.Empty()
    {
      sessions, count, closed := map[], 0, false;
    }

    method Size() returns (n: nat)
      ensures n == |Table().live|
    {
      n := |sessions|;
    }

    /** Allocate makes the session; a client's Dispatch gives it its input and output. */
    method Allocate(packets: bool, input: Input, output: Sink, ghost index: nat) returns (s: Session?)
      modifies this
      ensures s == null <==> old(closed)
      ensures s == null ==> unchanged(this)
      ensures s != null ==>
                && fresh(s) && s.input == input && s.output == output && s.packets == packets && s.index == index
                && s.parent == this
                && var made: Session := s; (Table(), Some(made.id)) == Sessions.Allocate(old(Table()), _ => made)
    {
      if closed {
        return null;
      }
      count := (count + 1) % Sessions.ID_WRAP;
      s := new Session(count, packets, input, output, this, index);
      sessions := sessions[count := s];
    }

    method Add(s: Session)
      modifies this
      ensures Table() == Sessions.Add(old(Table()), s.id, s)
    {
      if closed {
        return;
      }
      count := (count + 1) % Sessions.ID_WRAP;
      sessions := sessions[s.id := s];
    }

    /** Remove; an empty map is replaced by a new one, which is the same to the model. */
    method Remove(id: uint16)
      modifies this
      ensures Table() == Sessions.Remove(old(Table()), id)
    {
      if closed {
        return;
      }
      sessions := sessions - {id};
      if |sessions| == 0 {
        assert sessions.Keys == {};
        sessions := map[];
      }
    }

    method Get(id: uint16) returns (s: Option<Session>)
      ensures s == Sessions.Get(Table(), id)
    {
      if closed || id !in sessions {
        return None;
      }
      s := Some(sessions[id]);
    }

    method CloseIfNoSession() returns (ok: bool)
      modifies this
      ensures (Table(), ok) == Sessions.CloseIfNoSession(old(Table()))
    {
      if closed {
        return true;
      }
      if |sessions| != 0 {
        return false;
      }
      closed := true;
      ok := true;
    }

    /** The outputs and inputs of the live sessions. */
    ghost function Outputs(): set<Sink>
      reads this
    {
      set k | k in sessions :: sessions[k].output
    }

    ghost function Inputs(): set<Input>
      reads this
    {
      set k | k in sessions :: sessions[k].input
    }

    /** Close: every session's input and output is closed, and nothing else of them changes. */
    method Close()
      modifies this, Outputs()`closed, Inputs()`closed
      ensures Table() == Sessions.Close(old(Table()))
      ensures forall o :: o in old(Outputs()) ==>
                o.Model() == old(o.Model()).(closed := old(o.closed) || !old(closed))
      ensures !old(closed) ==> forall i :: i in old(Inputs()) ==> i.closed
      ensures old(closed) ==> forall i :: i in old(Inputs()) ==> i.closed == old(i.closed)
    {
      if closed {
        return;
      }
      closed := true;
      CloseSessions();
      sessions := map[];
    }

    method CloseSessions()
      modifies Outputs()`closed, Inputs()`closed
      ensures forall o :: o in Outputs() ==> o.closed
      ensures forall i :: i in Inputs() ==> i.closed
    {
      var keys := sessions.Keys;
      while keys != {}
        invariant keys <= sessions.Keys
        invariant forall k :: k in sessions && k !in keys ==> sessions[k].output.closed && sessions[k].input.closed
        decreases |keys|
      {
        var k :| k in keys;
        CloseEnds(sessions[k]);
        keys := keys - {k};
      }
      assert forall o :: o in Outputs() ==> o.closed;
      assert forall i :: i in Inputs() ==> i.closed;
    }

    /** Both ends of a session. */
    method CloseEnds(s: Session)
      modifies s.output`closed, s.input`closed
      ensures s.output.closed && s.input.closed
    {
      s.input.Close();
      s.output.Close();
    }
  }
}
