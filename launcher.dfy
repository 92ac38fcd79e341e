/**
 * The process launcher of the shell (launch_cmd in shell.cpp), with the
 * operating system abstracted: fork is one of three outcomes, execvp is
 * only ever seen to fail (when it succeeds the program image is replaced
 * and launch_cmd never returns), and waitpid hands out the statuses of a
 * given sequence, one per call.
 */
module Launcher {
  import opened Wrappers

  /** What fork() returned: pid < 0, pid == 0 (the child) or pid > 0 (the parent). */
  datatype ForkOutcome = ForkFailed | InChild | InParent

  /** A status reported by waitpid(pid, &status, WUNTRACED). */
  datatype WaitStatus = Exited(code: int) | Signaled(signal: int) | Stopped(signal: int)

  /** WIFEXITED(status) || WIFSIGNALED(status): the child is gone. */
  predicate Terminal(st: WaitStatus)
  {
    st.Exited? || st.Signaled?
  }

  /**
   * The value launch_cmd returns, or StillWaiting when the parent is
   * still blocked in waitpid after every status of the sequence.
   */
  datatype Outcome = Code(value: int) | StillWaiting

  /** Index of the first terminal status, if any. */
  function FirstTerminal(waits: seq<WaitStatus>): (r: Option<nat>)
    ensures r.None? ==> forall k :: 0 <= k < |waits| ==> !Terminal(waits[k])
    ensures r.Some? ==>
      && r.value < |waits|
      && Terminal(waits[r.value])
      && forall k :: 0 <= k < r.value ==> !Terminal(waits[k])
  {
    if waits == [] then None
    else if Terminal(waits[0]) then Some(0)
    else match FirstTerminal(waits[1..])
      case None => None
      case Some(k) => Some(k + 1)
  }

  /**
   * What launch_cmd returns: 0 when fork fails, 0 in the child (execvp
   * came back), and 1 in the parent once the child has exited or been
   * killed by a signal; a parent whose child never reaches such a status
   * stays blocked.
   */
  function Launch(fork: ForkOutcome, waits: seq<WaitStatus>): (r: Outcome)
    ensures !fork.InParent? ==> r == Code(0)
    ensures fork.InParent? ==>
      (r == Code(1) <==> exists k :: 0 <= k < |waits| && Terminal(waits[k]))
    ensures fork.InParent? && r != Code(1) ==> r == StillWaiting
  {
    match fork
    case ForkFailed => Code(0)
    case InChild => Code(0)
    case InParent => if FirstTerminal(waits).Some? then Code(1) else StillWaiting
  }

  /**
   * launch_cmd. In the parent the do-while loop calls waitpid until the
   * status is exited or signalled; calls counts the waitpid calls made,
   * so the loop stops exactly at the first terminal status.
   */
  method LaunchCmd(fork: ForkOutcome, waits: seq<WaitStatus>) returns (r: Outcome, calls: nat)
    ensures r == Launch(fork, waits)
    ensures !fork.InParent? ==> calls == 0
    ensures fork.InParent? && r.Code? ==>
      && 0 < calls <= |waits|
      && Terminal(waits[calls - 1])
      && forall k :: 0 <= k < calls - 1 ==> !Terminal(waits[k])
    ensures r == StillWaiting ==> calls == |waits|
  {
    calls := 0;
    if fork.InChild? {
      // execvp returned -1: the child reports the error and returns 0
      return Code(0), calls;
    } else if fork.ForkFailed? {
      return Code(0), calls;
    }
    var status: WaitStatus;
    var done := false;
    while !done
      invariant calls <= |waits|
      invariant forall k :: 0 <= k < calls - 1 ==> !Terminal(waits[k])
      invariant calls > 0 && !done ==> !Terminal(waits[calls - 1])
      invariant done ==> calls > 0 && Terminal(waits[calls - 1])
      decreases |waits| - calls, !done
    {
      if calls == |waits| {
        // waitpid blocks: no further status change is ever reported
        assert forall k :: 0 <= k < |waits| ==> !Terminal(waits[k]);
        return StillWaiting, calls;
      }
      status := waits[calls];   // waitpid(pid, &status, WUNTRACED)
      calls := calls + 1;
      done := Terminal(status);
    }
    return Code(1), calls;
  }

  /** A stopped child changes nothing: the parent keeps waiting for the next status. */
  lemma StoppedKeepsWaiting(sig: int, waits: seq<WaitStatus>)
    ensures Launch(InParent, [Stopped(sig)] + waits) == Launch(InParent, waits)
  {
    assert ([Stopped(sig)] + waits)[1..] == waits;
  }

  /**
   * Once the child has exited or been killed, the parent returns 1
   * whatever the status says and whatever would come after it.
   */
  lemma TerminalEndsWait(st: WaitStatus, later: seq<WaitStatus>)
    requires Terminal(st)
    ensures Launch(InParent, [st] + later) == Code(1)
  {
    assert ([st] + later)[0] == st;
  }

  /**
   * The exit code or signal of the child is not passed on: any two
   * status sequences that both end the wait give the same result.
   */
  lemma StatusNotPropagated(w1: seq<WaitStatus>, w2: seq<WaitStatus>)
    requires FirstTerminal(w1).Some? && FirstTerminal(w2).Some?
    ensures Launch(InParent, w1) == Launch(InParent, w2) == Code(1)
  {
  }
}
