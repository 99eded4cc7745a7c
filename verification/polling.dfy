/** waitForSync as the loop it is (internal/upgrade/orchestrator.go), against a script of what
    its calls, its ticker and its clock give. */
module Polling {
  import Upgrade

  datatype Reply = Reply(err: bool, el: bool, cl: bool)

  /** `entered` and `started` are the clock when the deadline is set and when the ticker is
      made; `status(k)`, `top(k)` and `gone(k)` are the k-th status call, the clock at the top
      of the loop after k ticks, and whether the select there takes the cancelled context. */
  datatype Script = Script(entered: int, started: int, status: nat -> Reply, top: nat -> int, gone: nat -> bool)
  {
    predicate Synced(k: nat) {
      !status(k).err && status(k).el && status(k).cl
    }

    /** The clock does not run backwards and a ticker is never early. */
    ghost predicate Regular() {
      entered <= started && forall k: nat :: started + k * Upgrade.PERIOD <= top(k)
    }
  }

  /** What the caller gets: the error is nil exactly when the last status call reported both
      clients synced, no earlier one did, and the loop went on only before its deadline and in
      a live context. */
  ghost predicate Outcome(s: Script, timeout: int, err: bool, calls: nat) {
    && calls > 0
    && (err <==> !s.Synced(calls - 1))
    && (forall k: nat :: k < calls - 1 ==> !s.Synced(k) && s.top(k) <= s.entered + timeout && !s.gone(k))
    && (err ==> s.top(calls - 1) > s.entered + timeout || s.gone(calls - 1))
  }

  function Bound(timeout: int): nat {
    if timeout < 0 then 1 else timeout / Upgrade.PERIOD + 2
  }

  method WaitForSync(s: Script, timeout: int) returns (err: bool, calls: nat)
    requires s.Regular()
    ensures Outcome(s, timeout, err, calls)
    ensures calls <= Bound(timeout)
  {
    var deadline := s.entered + timeout;
    calls := 1;
    if s.Synced(0) {
      return false, calls;
    }
    while true
      invariant calls > 0 && !s.Synced(calls - 1)
      invariant forall k: nat :: k < calls - 1 ==> !s.Synced(k) && s.top(k) <= deadline && !s.gone(k)
      invariant calls <= Bound(timeout)
      decreases Bound(timeout) - calls
    {
      if s.top(calls - 1) > deadline {
        return true, calls;
      }
      if s.gone(calls - 1) {
        return true, calls;
      }
      calls := calls + 1;
      if s.Synced(calls - 1) {
        return false, calls;
      }
    }
  }

  /** The outcome is a function of the script. */
  lemma OutcomeUnique(s: Script, timeout: int, err: bool, calls: nat, err': bool, calls': nat)
    requires Outcome(s, timeout, err, calls) && Outcome(s, timeout, err', calls')
    ensures err == err' && calls == calls'
  {
  }

  /** Ten minutes and a tick every fifteen seconds make at most 42 calls, and a node that never
      syncs behind a punctual clock takes all of them. */
  lemma FortyTwo()
    ensures Bound(Upgrade.TIMEOUT) == 42 == Upgrade.MAX_POLLS
    ensures var never := Script(0, 0, _ => Reply(false, false, false), k => k * Upgrade.PERIOD, _ => false);
            never.Regular() && Outcome(never, Upgrade.TIMEOUT, true, 42)
  {
  }
}
