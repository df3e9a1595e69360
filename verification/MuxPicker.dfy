/** common/mux/client.go on values: picking a worker. `full` is the set of the workers that are full. */
module WorkerPicks {

  /** findAvailable: the first worker that is not full, or -1. */
  function FindAvailable<W>(ws: seq<W>, full: set<W>): (i: int)
    ensures -1 <= i < |ws|
  {
    if ws == [] then -1
    else if ws[0] !in full then 0
    else
      var i := FindAvailable(ws[1..], full);
      if i < 0 then -1 else i + 1
  }

  lemma {:induction false} FindAvailableFirst<W>(ws: seq<W>, full: set<W>)
    ensures var i := FindAvailable(ws, full);
            if i < 0 then forall x :: x in ws ==> x in full
            else ws[i] !in full && forall j :: 0 <= j < i ==> ws[j] in full
  {
    if ws != [] {
      FindAvailableFirst(ws[1..], full);
    }
  }

  /** pickInternal, with a worker available: it is swapped with the last one, and its old slot, which now
      holds the last one, is what is returned. */
  function Swapped<W>(ws: seq<W>, full: set<W>): seq<W> {
    var i := FindAvailable(ws, full);
    if i < 0 || i == |ws| - 1 then ws else ws[i := ws[|ws| - 1]][|ws| - 1 := ws[i]]
  }

  function Picked<W>(ws: seq<W>, full: set<W>): W
    requires FindAvailable(ws, full) >= 0
  {
    Swapped(ws, full)[FindAvailable(ws, full)]
  }

  lemma SwapPermutes<W>(ws: seq<W>, full: set<W>)
    ensures multiset(Swapped(ws, full)) == multiset(ws)
    ensures forall x :: x in Swapped(ws, full) <==> x in ws
  {
    assert forall x :: x in Swapped(ws, full) <==> x in multiset(Swapped(ws, full));
    assert forall x :: x in ws <==> x in multiset(ws);
  }

  /** Whether there is a free one, and where the one that is picked is then. */
  lemma PickedAmong<W>(ws: seq<W>, full: set<W>)
    ensures FindAvailable(ws, full) >= 0 <==> exists x :: x in ws && x !in full
    ensures FindAvailable(ws, full) >= 0 ==> Picked(ws, full) in ws
    ensures forall x :: x in Swapped(ws, full) <==> x in ws
  {
    FindAvailableFirst(ws, full);
    SwapPermutes(ws, full);
    if FindAvailable(ws, full) >= 0 {
      assert ws[FindAvailable(ws, full)] in ws && Picked(ws, full) in Swapped(ws, full);
    }
  }

  /** What the first pick returns is full exactly when the last worker is. */
  lemma FirstPickFullIff<W>(ws: seq<W>, full: set<W>)
    requires FindAvailable(ws, full) >= 0
    ensures Picked(ws, full) in full <==> ws[|ws| - 1] in full
  {
    FindAvailableFirst(ws, full);
  }

  /** If some worker is not full, the second of two picks in a row returns one that is not, whatever the
      first returned. */
  lemma SecondPickIsFree<W>(ws: seq<W>, full: set<W>)
    requires exists x :: x in ws && x !in full
    ensures FindAvailable(ws, full) >= 0 && FindAvailable(Swapped(ws, full), full) >= 0
    ensures Picked(Swapped(ws, full), full) !in full
  {
    FindAvailableFirst(ws, full);
    SwapPermutes(ws, full);
    FindAvailableFirst(Swapped(ws, full), full);
    FirstPickFullIff(Swapped(ws, full), full);
  }

  /** cleanup: the workers that are not closed, in order. */
  function Active<W>(ws: seq<W>, closed: set<W>): seq<W> {
    if ws == [] then [] else (if ws[0] in closed then [] else [ws[0]]) + Active(ws[1..], closed)
  }

  lemma {:induction false} ActiveSnoc<W>(ws: seq<W>, closed: set<W>, w: W)
    ensures Active(ws + [w], closed) == Active(ws, closed) + if w in closed then [] else [w]
  {
    if ws == [] {
      assert ws + [w] == [w] && [w][1..] == [];
    } else {
      assert (ws + [w])[1..] == ws[1..] + [w];
      ActiveSnoc(ws[1..], closed, w);
    }
  }

  lemma {:induction false} ActiveKeeps<W>(ws: seq<W>, closed: set<W>)
    ensures forall x :: x in Active(ws, closed) <==> x in ws && x !in closed
  {
    if ws != [] {
      ActiveKeeps(ws[1..], closed);
    }
  }
}

/** common/mux/client.go: the client's workers, the picker and the manager. */
module MuxClients {
  import opened Bytes
  import opened Dispatches
  import opened SessionManagers
  import opened Writers
  import opened WorkerPicks
  import Sessions

  class ClientWorker {
    const strategy: Strategy
    const manager: SessionManager
    var done: bool

    /** NewClientWorker; the goroutines it starts are not part of this class. */
    constructor (strategy: Strategy)
      ensures this.strategy == strategy && fresh(manager) && !done && manager.Table() == Sessions.Empty()
    {
      this.strategy := strategy;
      manager := new SessionManager();
      done := false;
    }

    predicate IsClosing()
      reads manager
    {
      strategy.maxConnection > 0 && manager.count >= strategy.maxConnection
    }

    predicate IsFull()
      reads this, manager
    {
      IsClosing() || done || (strategy.maxConcurrency > 0 && |manager.sessions| >= strategy.maxConcurrency)
    }

    /** The predicate is the one the limits are proved for. */
    lemma FullIsDispatchesFull()
      ensures IsFull() <==> Dispatches.IsFull(strategy, manager.Table(), done)
    {
    }

    /** Dispatch: a session is allocated unless the worker is full, or its table is closed. */
    method Dispatch(packets: bool, input: Input, output: Sink, ghost index: nat) returns (ok: bool)
      modifies manager
      ensures ok <==> !old(IsFull()) && !old(manager.closed)
      ensures !ok ==> unchanged(manager)
      ensures ok ==>
                var id := (old(manager.count) + 1) % Sessions.ID_WRAP;
                && id in manager.sessions && fresh(manager.sessions[id])
                && manager.sessions[id].input == input && manager.sessions[id].output == output
                && manager.Table() == Sessions.Table(old(manager.sessions)[id := manager.sessions[id]], id, false)
    {
      if IsFull() || done {
        return false;
      }
      var s := manager.Allocate(packets, input, output, index);
      ok := s != null;
    }
  }

  class IncrementalWorkerPicker {
    /** The factory: creation number i succeeds when creates(i), with workers of this strategy. */
    const creates: nat -> bool
    const strategy: Strategy
    var created: nat
    var workers: seq<ClientWorker>

    ghost function Managers(): set<SessionManager>
      reads this
    {
      set w | w in workers :: w.manager
    }

    ghost function Full(): set<ClientWorker>
      reads this, workers, Managers()
    {
      set w | w in workers && w.IsFull()
    }

    ghost function Closed(): set<ClientWorker>
      reads this, workers
    {
      set w | w in workers && w.done
    }

    constructor (creates: nat -> bool, strategy: Strategy)
      ensures workers == [] && created == 0 && this.creates == creates && this.strategy == strategy
    {
      this.creates, this.strategy, created, workers := creates, strategy, 0, [];
    }

    method FindAvailable() returns (idx: int)
      ensures idx == WorkerPicks.FindAvailable(workers, old(Full()))
    {
      FindAvailableFirst(workers, Full());
      for i := 0 to |workers|
        invariant forall j :: 0 <= j < i ==> workers[j] in old(Full())
      {
        if !workers[i].IsFull() {
          assert workers[i] !in old(Full());
          return i;
        }
        assert workers[i] in workers;
      }
      idx := -1;
    }

    method Cleanup()
      modifies `workers
      ensures workers == Active(old(workers), old(Closed()))
    {
      var active: seq<ClientWorker> := [];
      for i := 0 to |workers|
        invariant workers == old(workers) && active == Active(workers[..i], old(Closed()))
      {
        assert workers[..i + 1] == workers[..i] + [workers[i]];
        ActiveSnoc(workers[..i], old(Closed()), workers[i]);
        assert workers[i] in workers;
        if !workers[i].done {
          active := active + [workers[i]];
        }
      }
      assert workers[..|workers|] == workers;
      workers := active;
    }

    /** pickInternal and PickAvailable. With a worker available the list is only permuted; otherwise the
        closed ones go, and a new one comes, unless the factory fails. */
    method PickAvailable() returns (worker: Option<ClientWorker>)
      modifies `workers, `created
      ensures var full := old(Full());
              if WorkerPicks.FindAvailable(old(workers), full) >= 0 then
                && workers == Swapped(old(workers), full) && worker == Some(Picked(old(workers), full))
                && created == old(created)
              else
                && created == old(created) + 1 && (worker.Some? <==> creates(old(created)))
                && var active := Active(old(workers), old(Closed()));
                   if worker.None? then workers == active
                   else workers == active + [worker.value] && fresh(worker.value) && fresh(worker.value.manager)
                        && worker.value.strategy == strategy && !worker.value.done
                        && worker.value.manager.Table() == Sessions.Empty()
    {
      ghost var full, closed := Full(), Closed();
      var idx := FindAvailable();
      assert Closed() == closed;
      if idx >= 0 {
        var n := |workers|;
        if n > 1 && idx != n - 1 {
          workers := workers[n - 1 := workers[idx]][idx := workers[n - 1]];
          assert workers == Swapped(old(workers), full);
        }
        return Some(workers[idx]);
      }
      Cleanup();
      created := created + 1;
      if !creates(created - 1) {
        return None;
      }
      var w := new ClientWorker(strategy);
      workers := workers + [w];
      worker := Some(w);
    }
  }

  class ClientManager {
    const picker: IncrementalWorkerPicker

    constructor (picker: IncrementalWorkerPicker)
      ensures this.picker == picker
    {
      this.picker := picker;
    }

    /** The workers have tables of their own, and none has closed its table without being done. */
    ghost predicate Quiet()
      reads picker, picker.workers, picker.Managers()
    {
      && (forall v, w :: v in picker.workers && w in picker.workers && v != w ==> v.manager != w.manager)
      && forall w :: w in picker.workers ==> (w.manager.closed ==> w.done)
    }

    ghost predicate SomeFree()
      reads picker, picker.workers, picker.Managers()
    {
      exists w :: w in picker.workers && w !in picker.Full()
    }

    lemma SomeFreeValue()
      ensures SomeFree() <==> exists w :: w in picker.workers && w !in picker.Full()
    {
    }

    /** Pick a worker: with a free one there, the list is permuted and nothing else changes. */
    method Pick() returns (worker: Option<ClientWorker>)
      requires Quiet()
      modifies picker`workers, picker`created
      ensures old(SomeFree()) ==>
                && WorkerPicks.FindAvailable(old(picker.workers), old(picker.Full())) >= 0
                && picker.workers == Swapped(old(picker.workers), old(picker.Full()))
                && worker == Some(Picked(old(picker.workers), old(picker.Full())))
                && picker.created == old(picker.created)
                && Quiet() && SomeFree() && picker.Full() == old(picker.Full())
                && picker.Managers() == old(picker.Managers())
                && worker.value in old(picker.workers)
      ensures !old(SomeFree()) ==>
                && (worker.Some? <==> picker.creates(old(picker.created))) && picker.created == old(picker.created) + 1
                && (worker.Some? ==>
                      && fresh(worker.value) && fresh(worker.value.manager)
                      && !worker.value.IsFull() && !worker.value.manager.closed)
      ensures worker.Some? ==> worker.value in picker.workers
    {
      ghost var before, full := picker.workers, picker.Full();
      PickedAmong(before, full);
      SomeFreeValue();
      hide WorkerPicks.FindAvailable, Swapped, Picked, Active;
      worker := picker.PickAvailable();
      if WorkerPicks.FindAvailable(before, full) >= 0 {
        assert forall w :: w in picker.workers <==> w in before;
        assert picker.Full() == full && picker.Managers() == old(picker.Managers());
      }
    }

    /** One turn of the loop: pick a worker and try it. */
    method Attempt(packets: bool, input: Input, output: Sink, ghost index: nat)
      returns (worker: Option<ClientWorker>, ok: bool)
      requires Quiet()
      modifies picker`workers, picker`created, picker.Managers()
      ensures ok ==> worker.Some?
      ensures old(SomeFree()) ==>
                && WorkerPicks.FindAvailable(old(picker.workers), old(picker.Full())) >= 0
                && picker.workers == Swapped(old(picker.workers), old(picker.Full()))
                && worker == Some(Picked(old(picker.workers), old(picker.Full())))
                && (ok <==> worker.value !in old(picker.Full())) && picker.created == old(picker.created)
      ensures !old(SomeFree()) ==>
                && (ok <==> worker.Some?) && (ok <==> picker.creates(old(picker.created)))
                && picker.created == old(picker.created) + 1
                && (ok ==> fresh(worker.value) && fresh(worker.value.manager))
      ensures ok ==> worker.value in picker.workers && Took(worker.value, output)
      ensures old(SomeFree()) && !ok ==> Quiet() && SomeFree() && picker.Full() == old(picker.Full())
      ensures old(SomeFree()) ==> picker.Managers() == old(picker.Managers())
      ensures forall w :: w in old(picker.workers) && !(ok && worker == Some(w)) ==>
                w.manager.Table() == old(w.manager.Table())
    {
      hide WorkerPicks.FindAvailable, Swapped, Picked;
      worker := Pick();
      ok := false;
      if worker.Some? {
        label Picked:
        ok := worker.value.Dispatch(packets, input, output, index);
        assert ok ==> Took(worker.value, output);
        assert !ok ==> picker.Full() == old@Picked(picker.Full());
      }
    }

    /** The worker has a session with this output, under the id it allocated last. */
    ghost predicate Took(w: ClientWorker, output: Sink)
      reads w, w.manager
    {
      var t := w.manager.Table();
      !t.closed && t.count in t.live && t.live[t.count].output == output
    }

    /** Dispatch: with nobody interfering, two of the 16 attempts are enough. It fails only when every
        worker is full and the factory fails. */
    method Dispatch(packets: bool, input: Input, output: Sink, ghost index: nat)
      returns (err: Error, attempts: nat, ghost who: Option<ClientWorker>)
      requires Quiet()
      modifies picker`workers, picker`created, picker.Managers()
      ensures err == NoError <==> old(SomeFree()) || picker.creates(old(picker.created))
      ensures 1 <= attempts <= 2 && picker.created == old(picker.created) + if old(SomeFree()) then 0 else 1
      ensures err == NoError <==> who.Some?
      ensures who.Some? ==> who.value in picker.workers && Took(who.value, output)
      ensures who.Some? ==> if old(SomeFree()) then who.value !in old(picker.Full()) else fresh(who.value)
      ensures forall w :: w in old(picker.workers) && Some(w) != who ==> w.manager.Table() == old(w.manager.Table())
      ensures old(SomeFree()) ==> multiset(picker.workers) == multiset(old(picker.workers))
    {
      hide Swapped, Picked, WorkerPicks.FindAvailable, IncrementalWorkerPicker.Full, Quiet, SomeFree, Took;
      ghost var ws, full := picker.workers, picker.Full();
      SomeFreeValue();
      SwapPermutes(ws, full);
      SwapPermutes(Swapped(ws, full), full);
      attempts, who := 0, None;
      for i := 0 to 16
        invariant attempts == i <= 1 && Quiet() && picker.Full() == full && picker.created == old(picker.created)
        invariant SomeFree() <==> old(SomeFree())
        invariant forall w :: w in ws ==> w.manager.Table() == old(w.manager.Table())
        invariant picker.workers == if i == 0 then ws else Swapped(ws, full)
        invariant (i == 1 ==> SomeFree()) && picker.Managers() == old(picker.Managers())
      {
        if SomeFree() {
          SecondPickIsFree(ws, full);
        }
        label Turn:
        var worker, ok := Attempt(packets, input, output, index);
        attempts := attempts + 1;
        if worker.None? {
          return Failure("factory"), attempts, None;
        }
        if ok {
          return NoError, attempts, worker;
        }
      }
      err := Failure("unable to find an available mux client");
    }
  }
}
