/** The session object (LSPBindings instances): the server connection, the optional OS process,
    the negotiated capabilities and the opened-files set; and the cleanup that LSPReference runs
    once a session has been garbage-collected. */
module Sessions {
  import opened Wrappers
  import opened Files
  import opened Capabilities

  /** One established connection to a language server. The connection itself is not modelled;
      `hasProcess` says whether an OS process backs it (it does not for attach-by-socket). */
  class Session {
    const hasProcess: bool
    const initResult: LspInitializeResult
    var openedFiles: set<FileObj>

    /** new LSPBindings(server, initResult, process) */
    constructor (result: Option<InitializeResult>, hasProcess: bool)
      ensures this.hasProcess == hasProcess
      ensures initResult == NewLspInitializeResult(result)
      ensures openedFiles == {}
    {
      this.hasProcess := hasProcess;
      this.initResult := NewLspInitializeResult(result);
      this.openedFiles := {};
    }
  }

  /** The registry's liveness test. A session without a process is never considered dead; the
      sessions whose process is alive at the moment of the call are given as `alive`. */
  predicate IsProcessAlive(s: Session, alive: set<Session>) {
    !s.hasProcess || s in alive
  }

  /** One 100 ms wait on the future of the `shutdown` request. */
  datatype ShutdownPoll = ShutdownDone | ShutdownFailed | ShutdownPending

  /** process.waitFor(30 s): the process exited, it is still running, or the wait was interrupted. */
  datatype ExitWait = Exited | StillRunning | WaitInterrupted

  /** What the cleanup sends to the server or does to its process. */
  datatype CleanupEvent = ShutdownRequest | ExitNotification | DestroyProcess

  /** The number of slices a wait capped at `cap` slices uses, starting at slice k, when slice j
      observes poll(j): it stops after the first slice that is not pending, or at the cap. */
  function SlicesUsed(poll: nat -> ShutdownPoll, k: nat, cap: nat): nat
    decreases cap - k
  {
    if k >= cap then k
    else if poll(k) != ShutdownPending then k + 1
    else SlicesUsed(poll, k + 1, cap)
  }

  /** The wait never uses more than `cap` slices, uses exactly `cap` when every slice is pending,
      and stops earlier only right after a settled slice. */
  lemma {:induction false} SlicesUsedBounds(poll: nat -> ShutdownPoll, k: nat, cap: nat)
    requires k <= cap
    ensures k <= SlicesUsed(poll, k, cap) <= cap
    ensures (forall j :: k <= j < cap ==> poll(j) == ShutdownPending) ==> SlicesUsed(poll, k, cap) == cap
    ensures SlicesUsed(poll, k, cap) < cap ==> SlicesUsed(poll, k, cap) > k && poll(SlicesUsed(poll, k, cap) - 1) != ShutdownPending
    decreases cap - k
  {
    if k < cap && poll(k) == ShutdownPending {
      SlicesUsedBounds(poll, k + 1, cap);
    }
  }

  /** Java's `i--` on an int: below Integer.MIN_VALUE it wraps to Integer.MAX_VALUE. */
  function Int32Decrement(i: int): int {
    if i == -0x8000_0000 then 0x7fff_ffff else i - 1
  }

  /** The cap that `for (int i = 0; i < 300; i--)` puts on the wait: i runs 0, -1, ...,
      Integer.MIN_VALUE and only the wrap to Integer.MAX_VALUE ends it. */
  const AsWrittenCap: nat := 0x8000_0001

  /** The wait loop of LSPReference.run as written, counting down. */
  method AwaitShutdownAsWritten(poll: nat -> ShutdownPoll) returns (slices: nat)
    ensures slices == SlicesUsed(poll, 0, AsWrittenCap)
  {
    var i: int := 0;
    slices := 0;
    while i < 300
      invariant -0x8000_0000 <= i <= 0 || i == 0x7fff_ffff
      invariant i <= 0 ==> slices == -i
      invariant i == 0x7fff_ffff ==> slices == AsWrittenCap
      invariant SlicesUsed(poll, 0, AsWrittenCap) == SlicesUsed(poll, slices, AsWrittenCap)
      decreases if i <= 0 then i + 0x8000_0001 else 0
    {
      var observed := poll(slices);
      slices := slices + 1;
      if observed != ShutdownPending {
        return;
      }
      i := Int32Decrement(i);
    }
  }

  /** The wait as evidently intended, `i++`: at most 300 slices of 100 ms, i.e. 30 s. */
  method AwaitShutdown(poll: nat -> ShutdownPoll) returns (slices: nat)
    ensures slices == SlicesUsed(poll, 0, 300)
    ensures slices <= 300
  {
    var i := 0;
    slices := 0;
    while i < 300
      invariant 0 <= i <= 300 && slices == i
      invariant SlicesUsed(poll, 0, 300) == SlicesUsed(poll, slices, 300)
    {
      var observed := poll(slices);
      slices := slices + 1;
      if observed != ShutdownPending {
        return;
      }
      i := i + 1;
    }
  }

  /** A server that never answers `shutdown`: the wait as written polls 2^31 + 1 times (over six
      years of 100 ms slices) where the intended loop gives up after 300 (30 s). */
  lemma NeverAnsweringServer(poll: nat -> ShutdownPoll)
    requires forall j :: poll(j) == ShutdownPending
    ensures SlicesUsed(poll, 0, AsWrittenCap) == 0x8000_0001
    ensures SlicesUsed(poll, 0, 300) == 300
  {
    SlicesUsedBounds(poll, 0, AsWrittenCap);
    SlicesUsedBounds(poll, 0, 300);
  }

  /** LSPReference.run as written. `process` is the session's process (None for null;
      Some(alive) otherwise). A null process is dereferenced and faults. A live process gets
      shutdown, the wait for its answer as the loop is written, exit, and is destroyed unless
      it exits within 30 s. */
  method ReferenceCleanup(process: Option<bool>, poll: nat -> ShutdownPoll, exitWait: ExitWait)
    returns (events: Result<seq<CleanupEvent>>, slices: nat)
    ensures process.None? ==> events == Failure(NullDereference) && slices == 0
    ensures process == Some(false) ==> events == Success([]) && slices == 0
    ensures process == Some(true) ==>
              && events == Success(if exitWait == Exited then [ShutdownRequest, ExitNotification]
                                  else [ShutdownRequest, ExitNotification, DestroyProcess])
              && slices == SlicesUsed(poll, 0, AsWrittenCap)
  {
    if process.None? {
      return Failure(NullDereference), 0;
    }
    if !process.value {
      return Success([]), 0;
    }
    slices := AwaitShutdownAsWritten(poll);
    if exitWait == Exited {
      events := Success([ShutdownRequest, ExitNotification]);
    } else {
      events := Success([ShutdownRequest, ExitNotification, DestroyProcess]);
    }
  }

  /** LSPReference.run with the intended 30 s cap on the shutdown wait: the same events, and
      at most 300 slices of waiting. */
  method ReferenceCleanupCorrected(process: Option<bool>, poll: nat -> ShutdownPoll, exitWait: ExitWait)
    returns (events: Result<seq<CleanupEvent>>, slices: nat)
    ensures process.None? ==> events == Failure(NullDereference) && slices == 0
    ensures process == Some(false) ==> events == Success([]) && slices == 0
    ensures process == Some(true) ==>
              && events == Success(if exitWait == Exited then [ShutdownRequest, ExitNotification]
                                  else [ShutdownRequest, ExitNotification, DestroyProcess])
              && slices == SlicesUsed(poll, 0, 300)
    ensures slices <= 300
  {
    if process.None? {
      return Failure(NullDereference), 0;
    }
    if !process.value {
      return Success([]), 0;
    }
    slices := AwaitShutdown(poll);
    if exitWait == Exited {
      events := Success([ShutdownRequest, ExitNotification]);
    } else {
      events := Success([ShutdownRequest, ExitNotification, DestroyProcess]);
    }
  }
}
