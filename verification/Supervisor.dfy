/** The main thread of src/main.cpp: it polls the workers' futures, and on a signal or
  a dead worker stops and joins them.

  While mKeepRunning is set no worker returns normally: modules Processes and
  SeedLinkClients prove that of the worker functions, and the SEEDLink client's own
  flag is cleared by stop alone.
 */
module Supervisors {

  datatype Worker = Running | Returned | Threw

  /** What the workers can do meanwhile. */
  predicate Progressed(before: seq<Worker>, after: seq<Worker>, keepRunning: bool) {
    && |after| == |before|
    && forall i :: 0 <= i < |before| ==>
         after[i] == before[i] || (before[i].Running? && (after[i].Threw? || !keepRunning))
  }

  /** Why the main thread stops: a signal, or a dead worker.  workers and unread are
      the states of the workers and futures at that moment. */
  datatype Cause =
    | Signal(workers: seq<Worker>, unread: seq<bool>)
    | DeadWorker(workers: seq<Worker>, unread: seq<bool>, which: int)

  class Supervisor {
    var workers: seq<Worker>
    /** future.valid(): false once the future has been read. */
    var valid: seq<bool>
    var mKeepRunning: bool
    var mStopRequested: bool
    var mShutdownRequested: bool
    var mInterrupted: bool
    /** What checkFuturesOkay has answered so far. */
    ghost var answers: seq<bool>
    /** How long it takes until the operating system sends a signal: any finite time. */
    var turnsUntilSignal: nat

    ghost predicate Valid()
      reads this
    {
      && |workers| == |valid|
      && (forall i :: 0 <= i < |workers| && !valid[i] ==> !workers[i].Running?)
      && (mKeepRunning ==> NoneReturned())
    }

    ghost predicate NoneReturned()
      reads this`workers
    {
      forall i :: 0 <= i < |workers| ==> !workers[i].Returned?
    }

    /** No future has been read. */
    ghost predicate AllUnread()
      reads this`valid
    {
      forall i :: 0 <= i < |valid| ==> valid[i]
    }

    ghost predicate SomeoneDied()
      reads this`workers
    {
      exists i :: 0 <= i < |workers| && workers[i].Threw?
    }

    /** start: all workers run. */
    constructor (n: nat, turnsUntilSignal: nat)
      ensures Valid() && AllUnread() && mKeepRunning && !mStopRequested && !mShutdownRequested
      ensures |workers| == n && !SomeoneDied() && answers == []
    {
      answers := [];
      workers := seq(n, _ => Running);
      valid := seq(n, _ => true);
      mKeepRunning, mStopRequested, mShutdownRequested, mInterrupted := true, false, false, false;
      this.turnsUntilSignal := turnsUntilSignal;
    }

    /** The workers and the operating system, for a while. */
    method Interfere()
      requires Valid()
      modifies this`workers, this`mInterrupted, this`turnsUntilSignal
      ensures Valid() && Progressed(old(workers), workers, mKeepRunning)
      ensures old(mInterrupted) ==> mInterrupted
      ensures turnsUntilSignal <= old(turnsUntilSignal) && (!mInterrupted ==> turnsUntilSignal < old(turnsUntilSignal))
    {
      var after: seq<Worker> := *;
      if Progressed(workers, after, mKeepRunning) {
        workers := after;
      }
      if turnsUntilSignal > 0 {
        turnsUntilSignal := turnsUntilSignal - 1;
      } else {
        mInterrupted := true;
      }
    }

    /** future.get() of a worker that has ended: rethrows its exception.  A future can
        be read only once. */
    method Get(i: nat) returns (threw: bool)
      requires Valid() && i < |valid| && valid[i] && !workers[i].Running?
      modifies this`valid
      ensures Valid() && valid == old(valid)[i := false] && threw == workers[i].Threw?
    {
      valid := valid[i := false];
      threw := workers[i].Threw?;
    }

    /** checkFuturesOkay, while the application is running and no future has been
        read.  It answers false exactly when it found a worker dead, whose future it
        has then read; every worker that was dead at the call is found. */
    method CheckFuturesOkay() returns (isOkay: bool)
      requires Valid() && mKeepRunning && AllUnread()
      modifies this`workers, this`valid, this`mInterrupted, this`turnsUntilSignal, this`answers
      ensures Valid() && Progressed(old(workers), workers, mKeepRunning)
      ensures answers == old(answers) + [isOkay]
      ensures isOkay <==> AllUnread()
      ensures forall i :: 0 <= i < |valid| && !valid[i] ==> workers[i].Threw?
      ensures forall i :: 0 <= i < |valid| && old(workers)[i].Threw? ==> !valid[i]
      ensures old(mInterrupted) ==> mInterrupted
      ensures turnsUntilSignal <= old(turnsUntilSignal)
    {
      isOkay := true;
      ghost var dead := 0;
      for i := 0 to |valid|
        invariant Valid() && Progressed(old(workers), workers, mKeepRunning) && |valid| == |old(valid)|
        invariant forall j :: i <= j < |valid| ==> valid[j]
        invariant if isOkay then AllUnread() else 0 <= dead < i && !valid[dead]
        invariant answers == old(answers)
        invariant forall j :: 0 <= j < i ==> !valid[j] ==> workers[j].Threw?
        invariant forall j :: 0 <= j < i && old(workers)[j].Threw? ==> !valid[j]
        invariant old(mInterrupted) ==> mInterrupted
        invariant turnsUntilSignal <= old(turnsUntilSignal)
      {
        Interfere();
        if !workers[i].Running? {
          var threw := Get(i);
          if threw {
            isOkay := false;
            dead := i;
          }
        }
      }
      answers := answers + [isOkay];
    }

    /** Process::stop: clears the flag, then reads every future not read yet, waiting
        for its worker to end.  The first exception it meets leaves the function;
        otherwise every worker has ended and been joined. */
    method Stop() returns (threw: bool)
      requires Valid()
      modifies this`mKeepRunning, this`workers, this`valid, this`mInterrupted, this`turnsUntilSignal
      ensures Valid() && !mKeepRunning && |valid| == |old(valid)|
      ensures Progressed(old(workers), workers, false)
      ensures old(mInterrupted) ==> mInterrupted
      ensures !threw ==> forall i :: 0 <= i < |valid| ==> !valid[i] && !workers[i].Running?
      ensures !threw ==> forall i :: 0 <= i < |valid| && old(valid)[i] ==> workers[i].Returned?
      ensures threw ==> exists i :: Rethrown(old(valid), i)
    {
      mKeepRunning := false;
      threw := false;
      for i := 0 to |valid|
        invariant Valid() && !mKeepRunning && |valid| == |old(valid)|
        invariant Progressed(old(workers), workers, false)
        invariant old(mInterrupted) ==> mInterrupted
        invariant forall j :: i <= j < |valid| ==> valid[j] == old(valid)[j]
        invariant forall j :: 0 <= j < i ==> !valid[j]
        invariant forall j :: 0 <= j < i && old(valid)[j] ==> workers[j].Returned?
      {
        if valid[i] {
          WaitFor(i);
          threw := Get(i);
          if threw {
            assert Rethrown(old(valid), i);
            return;
          }
        }
      }
    }

    /** Future i was the first to rethrow: those before it are read, those after it
        are left as they were. */
    ghost predicate Rethrown(before: seq<bool>, i: int)
      reads this`workers, this`valid
    {
      && |before| == |valid| == |workers| && 0 <= i < |valid| && before[i] && workers[i].Threw?
      && (forall j :: 0 <= j <= i ==> !valid[j])
      && (forall j :: 0 <= j < i && before[j] ==> workers[j].Returned?)
      && (forall j :: i < j < |valid| ==> valid[j] == before[j])
    }

    /** The wait inside future.get(): with the flag cleared the worker ends. */
    method WaitFor(i: nat)
      requires Valid() && !mKeepRunning && i < |workers|
      modifies this`workers, this`mInterrupted, this`turnsUntilSignal
      ensures Valid() && Progressed(old(workers), workers, false) && !workers[i].Running?
      ensures forall j :: 0 <= j < |workers| && !old(workers)[j].Running? ==> workers[j] == old(workers)[j]
      ensures old(mInterrupted) ==> mInterrupted
    {
      Interfere();
      if workers[i].Running? {
        var clean: bool := *;
        workers := workers[i := if clean then Returned else Threw];
      }
    }

    /** handleMainThread.  It leaves its loop on a signal, with no future read, or on the
        first check that finds a dead worker, whose future that check has read; cause
        says which, as of that moment.  Then it stops the workers.  No future is read
        twice, and if no worker died all are joined without an exception. */
    method HandleMainThread() returns (threw: bool, ghost cause: Cause)
      requires Valid() && mKeepRunning && AllUnread() && !mStopRequested && answers == []
      modifies this
      ensures Valid() && mStopRequested && mShutdownRequested && !mKeepRunning
      ensures |workers| == |old(workers)| == |cause.workers| == |cause.unread|
      ensures Progressed(old(workers), cause.workers, true) && Progressed(cause.workers, workers, false)
      ensures forall i :: 0 <= i < |answers| ==> answers[i] == !(cause.DeadWorker? && i == |answers| - 1)
      ensures cause.Signal? ==> mInterrupted && forall i :: 0 <= i < |cause.unread| ==> cause.unread[i]
      ensures cause.DeadWorker? ==>
                && answers != [] && 0 <= cause.which < |cause.workers|
                && cause.workers[cause.which].Threw? && !cause.unread[cause.which]
      ensures !threw ==> forall i :: 0 <= i < |valid| ==> !valid[i] && !workers[i].Running?
      ensures !threw ==> forall i :: 0 <= i < |valid| && cause.unread[i] ==> workers[i].Returned?
      ensures threw ==> exists i :: Rethrown(cause.unread, i)
    {
      cause := Signal(workers, valid);
      while !mStopRequested
        invariant Valid() && mKeepRunning && Progressed(old(workers), workers, true)
        invariant forall i :: 0 <= i < |answers| ==> answers[i] == !(mStopRequested && cause.DeadWorker? && i == |answers| - 1)
        invariant if mStopRequested then mShutdownRequested && Explains(cause) else AllUnread()
        decreases !mStopRequested, !mInterrupted, turnsUntilSignal
      {
        if mInterrupted {
          mStopRequested := true;
          mShutdownRequested := true;
          cause := Signal(workers, valid);
          break;
        }
        var isOkay := CheckFuturesOkay();
        if !isOkay {
          mStopRequested := true;
          mShutdownRequested := true;
          ghost var which :| 0 <= which < |valid| && !valid[which];
          cause := DeadWorker(workers, valid, which);
          break;
        }
        Interfere();
      }
      threw := Stop();
    }

    /** The reason to stop holds now. */
    ghost predicate Explains(cause: Cause)
      reads this`workers, this`valid, this`mInterrupted, this`answers
    {
      && cause.workers == workers && cause.unread == valid && |valid| == |workers|
      && match cause
         case Signal(_, _) => mInterrupted && AllUnread()
         case DeadWorker(_, _, i) => answers != [] && 0 <= i < |workers| && workers[i].Threw? && !valid[i]
    }
  }
}
