/**
 * One timer of the reactor (net::Timer). Time is an integer count of nanoseconds on the
 * system clock (`Timestamp`); a repeat interval is an integer count of microseconds
 * (`Microsecond`), so adding it to a time multiplies it by 1000. The callback itself is
 * not modelled, only whether one was given.
 */
module Timers {

  /** Nanoseconds in one microsecond: `when_ += interval_` converts the interval. */
  const NanosPerMicro: int := 1000

  class Timer {
    /** Stands for the timer's address, which orders timers that expire at the same time. */
    const id: nat
    const hasCallback: bool
    const interval: int
    const repeat: bool
    var when: int
    var canceled: bool

    /** A timer repeats exactly when its interval is positive; it starts uncancelled. */
    constructor (id: nat, hasCallback: bool, when: int, interval: int)
      ensures this.id == id && this.hasCallback == hasCallback
      ensures this.when == when && this.interval == interval
      ensures repeat <==> interval > 0
      ensures !canceled
    {
      this.id := id;
      this.hasCallback := hasCallback;
      this.when := when;
      this.interval := interval;
      this.repeat := interval > 0;
      this.canceled := false;
    }

    /** `expired(now)`: the timer's time has come. */
    predicate Expired(now: int)
      reads this
    {
      now >= when
    }

    /** `run`: the callback is invoked when there is one, and nothing else happens. */
    method Run() returns (invoked: bool)
      ensures invoked <==> hasCallback
    {
      invoked := hasCallback;
    }

    /**
     * `restart`: a repeating timer moves on by one interval from the time it was due,
     * not from the time it ran.
     */
    method Restart()
      requires repeat
      modifies this
      ensures when == old(when) + interval * NanosPerMicro
      ensures canceled == old(canceled)
    {
      when := when + interval * NanosPerMicro;
    }

    /** `cancel`: a timer is cancelled once. */
    method Cancel()
      requires !canceled
      modifies this
      ensures canceled && when == old(when)
    {
      canceled := true;
    }
  }
}
