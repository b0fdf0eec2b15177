/** Capped exponential backoff. */
module ReconnectPolicy {
  import opened Bits

  const INITIAL_DELAY_MS: nat := 5000
  const MAXIMUM_DELAY_MS: nat := 60000

  class MqttReconnectPolicy {
    var currentDelayMs: nat

    constructor ()
      ensures currentDelayMs == INITIAL_DELAY_MS
    {
      currentDelayMs := INITIAL_DELAY_MS;
    }

    method Advance()
      modifies this
      ensures currentDelayMs == NextDelay(old(currentDelayMs))
    {
      if currentDelayMs < MAXIMUM_DELAY_MS {
        currentDelayMs := currentDelayMs * 2;
        if currentDelayMs > MAXIMUM_DELAY_MS {
          currentDelayMs := MAXIMUM_DELAY_MS;
        }
      }
    }

    method Reset()
      modifies this
      ensures currentDelayMs == INITIAL_DELAY_MS
    {
      currentDelayMs := INITIAL_DELAY_MS;
    }
  }

  function NextDelay(ms: nat): nat {
    if ms < MAXIMUM_DELAY_MS then (if 2 * ms > MAXIMUM_DELAY_MS then MAXIMUM_DELAY_MS else 2 * ms) else ms
  }

  /** The delay after n advances from a reset. */
  ghost function Delay(n: nat): nat {
    if n == 0 then INITIAL_DELAY_MS else NextDelay(Delay(n - 1))
  }

  lemma {:induction false} DelayIsCappedDoubling(n: nat)
    ensures Delay(n) == if INITIAL_DELAY_MS * Pow2(n) < MAXIMUM_DELAY_MS then INITIAL_DELAY_MS * Pow2(n) else MAXIMUM_DELAY_MS
  {
    if n > 0 {
      DelayIsCappedDoubling(n - 1);
    }
  }
}
