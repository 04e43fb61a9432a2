/** The initialize handshake (LSPBindingFactory.initServer, duplicated in LSPBindings): send
    `initialize`, then wait for the answer in 100 ms slices, checking between slices whether the
    server's process died. The future and the process are the environment: each slice is one
    PollEvent. */
module Handshake {
  import opened Wrappers
  import opened Capabilities

  /** What one 100 ms wait on the initialize future observes. */
  datatype PollEvent =
    | Answered(result: Option<InitializeResult>)  // the future completed, possibly with null
    | TimedOut(processAlive: bool)                // no answer yet; whether the process is alive now
    | Failed                                      // the future failed, or the wait was interrupted

  /** How initServer ends. */
  datatype HandshakeOutcome =
    | Initialized(result: Option<InitializeResult>, initializedSent: bool)  // it returned a result
    | Aborted       // it threw ExecutionException or InterruptedException to its caller
    | StillWaiting  // the events ran out while it would still be polling

  /** The result synthesised when the server died without answering: empty capabilities. */
  const DeadServerResult := InitializeResult(Some(EmptyCapabilities), None)

  /** A slice after which the loop polls again: a timeout while there is no process to watch,
      or while the process is alive. */
  predicate KeepsPolling(hasProcess: bool, e: PollEvent) {
    e.TimedOut? && (!hasProcess || e.processAlive)
  }

  /** The outcome of the loop for a process (given or not) and the events it observes. */
  function Handshake(hasProcess: bool, polls: seq<PollEvent>): HandshakeOutcome
    decreases |polls|
  {
    if polls == [] then StillWaiting
    else match polls[0]
      case Answered(result) => Initialized(result, result.Some?)
      case Failed => Aborted
      case TimedOut(alive) =>
        if hasProcess && !alive then Initialized(Some(DeadServerResult), false)
        else Handshake(hasProcess, polls[1..])
  }

  /** initServer's poll loop. `used` is the number of 100 ms slices it waited. */
  method InitServer(hasProcess: bool, polls: seq<PollEvent>) returns (outcome: HandshakeOutcome, used: nat)
    ensures outcome == Handshake(hasProcess, polls)
    ensures used <= |polls|
    ensures forall j :: 0 <= j < used - 1 ==> KeepsPolling(hasProcess, polls[j])
    ensures outcome.StillWaiting? <==> used == |polls| && forall j :: 0 <= j < |polls| ==> KeepsPolling(hasProcess, polls[j])
  {
    var i := 0;
    while i < |polls|
      invariant 0 <= i <= |polls|
      invariant Handshake(hasProcess, polls) == Handshake(hasProcess, polls[i..])
      invariant forall j :: 0 <= j < i ==> KeepsPolling(hasProcess, polls[j])
    {
      match polls[i]
      case Answered(result) =>
        // the `initialized` notification goes out only for a non-null result
        return Initialized(result, result.Some?), i + 1;
      case Failed =>
        return Aborted, i + 1;
      case TimedOut(alive) =>
        if hasProcess && !alive {
          return Initialized(Some(DeadServerResult), false), i + 1;
        }
      assert polls[i..][1..] == polls[i + 1..];
      i := i + 1;
    }
    return StillWaiting, i;
  }

  /** `initialized` is sent exactly when a non-null answer arrives before anything ends the loop. */
  lemma {:induction false} InitializedSentIffAnswered(hasProcess: bool, polls: seq<PollEvent>)
    ensures Handshake(hasProcess, polls).Initialized? && Handshake(hasProcess, polls).initializedSent <==>
              exists i :: 0 <= i < |polls| && polls[i].Answered? && polls[i].result.Some? &&
                          forall j :: 0 <= j < i ==> KeepsPolling(hasProcess, polls[j])
    decreases |polls|
  {
    if polls != [] {
      InitializedSentIffAnswered(hasProcess, polls[1..]);
      if KeepsPolling(hasProcess, polls[0]) {
        var h := Handshake(hasProcess, polls);
        if exists i :: 0 <= i < |polls[1..]| && polls[1..][i].Answered? && polls[1..][i].result.Some? &&
                       forall j :: 0 <= j < i ==> KeepsPolling(hasProcess, polls[1..][j]) {
          var i :| 0 <= i < |polls[1..]| && polls[1..][i].Answered? && polls[1..][i].result.Some? &&
                   forall j :: 0 <= j < i ==> KeepsPolling(hasProcess, polls[1..][j]);
          assert polls[i + 1] == polls[1..][i];
          assert forall j :: 0 <= j < i + 1 ==> KeepsPolling(hasProcess, polls[j]) by {
            forall j | 0 <= j < i + 1 ensures KeepsPolling(hasProcess, polls[j]) {
              if j > 0 { assert polls[j] == polls[1..][j - 1]; }
            }
          }
        }
        if exists i :: 0 <= i < |polls| && polls[i].Answered? && polls[i].result.Some? &&
                       forall j :: 0 <= j < i ==> KeepsPolling(hasProcess, polls[j]) {
          var i :| 0 <= i < |polls| && polls[i].Answered? && polls[i].result.Some? &&
                   forall j :: 0 <= j < i ==> KeepsPolling(hasProcess, polls[j]);
          assert i > 0;
          assert polls[1..][i - 1] == polls[i];
          assert forall j :: 0 <= j < i - 1 ==> KeepsPolling(hasProcess, polls[1..][j]) by {
            forall j | 0 <= j < i - 1 ensures KeepsPolling(hasProcess, polls[1..][j]) {
              assert polls[1..][j] == polls[j + 1];
            }
          }
        }
      } else {
        if exists i :: 0 <= i < |polls| && polls[i].Answered? && polls[i].result.Some? &&
                       forall j :: 0 <= j < i ==> KeepsPolling(hasProcess, polls[j]) {
          var i :| 0 <= i < |polls| && polls[i].Answered? && polls[i].result.Some? &&
                   forall j :: 0 <= j < i ==> KeepsPolling(hasProcess, polls[j]);
          assert i == 0;
        }
      }
    }
  }

  /** A server whose process is seen dead on a timeout, before any answer, yields a result whose
      capabilities support nothing, decided at that very slice; later events do not matter. */
  lemma {:induction false} DeadProcessYieldsEmptyCapabilities(polls: seq<PollEvent>, k: nat)
    requires k < |polls| && polls[k] == TimedOut(false)
    requires forall j :: 0 <= j < k ==> KeepsPolling(true, polls[j])
    ensures Handshake(true, polls) == Initialized(Some(DeadServerResult), false)
    ensures Handshake(true, polls) == Handshake(true, polls[..k + 1])
    ensures SupportNothing(NewLspInitializeResult(Handshake(true, polls).result).capabilities)
    decreases k
  {
    if k > 0 {
      assert polls[1..][k - 1] == polls[k];
      assert polls[..k + 1][1..] == polls[1..][..k];
      DeadProcessYieldsEmptyCapabilities(polls[1..], k - 1);
    }
    EmptyCapabilitiesSupportNothing();
  }

  /** Without a process there is no escape on timeout: the loop ends only by an answer or a
      failure, so it never synthesises the empty result. */
  lemma {:induction false} NoProcessOnlyEndsByAnswer(polls: seq<PollEvent>)
    ensures Handshake(false, polls).Initialized? ==> Handshake(false, polls).initializedSent == Handshake(false, polls).result.Some?
    ensures Handshake(false, polls).Initialized? ==> exists i :: 0 <= i < |polls| && polls[i] == Answered(Handshake(false, polls).result)
    decreases |polls|
  {
    if polls != [] && polls[0].TimedOut? {
      NoProcessOnlyEndsByAnswer(polls[1..]);
      if Handshake(false, polls).Initialized? {
        var i :| 0 <= i < |polls[1..]| && polls[1..][i] == Answered(Handshake(false, polls).result);
        assert polls[i + 1] == polls[1..][i];
      }
    }
  }
}
