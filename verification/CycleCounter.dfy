/**
 * Waiting on the cycle counter: real time is a number that never wraps, of which the
 * counter shows the low 32 bits, and every step takes a bounded but unknown time.
 */
module CycleCounter {
  import opened BitFields
  import opened Bytes

  /** `u32::MAX / 3` */
  const TOO_FAR := 0x5555_5555

  /** What the counter shows at a time. */
  function Counter(time: nat): word {
    time % TURN
  }

  lemma AddOfCounter(time: nat, cycles: word)
    ensures WrappingAdd(Counter(time), cycles) == Counter(time + cycles)
  {
    if Counter(time) + cycles < TURN {
      DivUnique(time + cycles, TURN, time / TURN, Counter(time) + cycles);
    } else {
      DivUnique(time + cycles, TURN, time / TURN + 1, Counter(time) + cycles - TURN);
    }
  }

  /** Two times less than a turn apart differ by what their counters do. */
  lemma SubOfCounters(later: nat, earlier: nat)
    requires earlier <= later < earlier + TURN
    ensures WrappingSub(Counter(later), Counter(earlier)) == later - earlier
  {
    var gap := later - earlier;
    AddOfCounter(earlier, gap);
  }

  /** Late by less than two thirds of a turn, the difference is too far to be waited for. */
  lemma LateIsTooFar(due: nat, time: nat)
    requires due < time < due + TURN - TOO_FAR
    ensures WrappingSub(Counter(due), Counter(time)) >= TOO_FAR
  {
    SubOfCounters(time, due);
  }

  /**
   * `delay_until` asserts exactly that it is not late, as long as it is neither late nor
   * early by as much as its wrapped difference cannot tell apart.
   */
  lemma AssertionIsPunctuality(due: nat, time: nat)
    requires due < time + TOO_FAR && time < due + TURN - TOO_FAR
    ensures WrappingSub(Counter(due), Counter(time)) < TOO_FAR <==> time <= due
  {
    if time <= due {
      SubOfCounters(due, time);
    } else {
      LateIsTooFar(due, time);
    }
  }

  /** The first time from `at` on that the counter shows `cycleNumber`. */
  function FirstTime(at: nat, cycleNumber: word): nat {
    at + WrappingSub(cycleNumber, Counter(at))
  }

  lemma FirstTimeIsFirst(at: nat, cycleNumber: word)
    ensures Counter(FirstTime(at, cycleNumber)) == cycleNumber
    ensures forall t: nat :: at <= t < FirstTime(at, cycleNumber) ==> Counter(t) != cycleNumber
  {
    AddOfCounter(at, WrappingSub(cycleNumber, Counter(at)));
    forall t: nat | at <= t < FirstTime(at, cycleNumber)
      ensures Counter(t) != cycleNumber
    {
      SubOfCounters(t, at);
    }
  }

  /** For a due time within the range that the assertion can tell, that is the due time. */
  lemma DueIsFirstTime(due: nat, at: nat)
    requires due < at + TOO_FAR && at < due + TURN - TOO_FAR
    ensures WrappingSub(Counter(due), Counter(at)) < TOO_FAR <==> at <= due
    ensures at <= due ==> FirstTime(at, Counter(due)) == due
  {
    AssertionIsPunctuality(due, at);
    if at <= due {
      SubOfCounters(due, at);
    }
  }

  /** Whatever the samples' times, at most so far apart, the first one that is not early ends the wait. */
  ghost predicate EndsAtFirst(cycles: word, sample: nat) {
    forall began: nat, last: nat, next: nat {:trigger Counter(next), Counter(began), Early(began, cycles, last)} ::
      Early(began, cycles, last) && last < next <= last + sample && began + cycles <= next ==>
        WrappingSub(Counter(next), Counter(began)) >= cycles
  }

  /** Where the wait starts, or a sample that finds it not over. */
  predicate Early(began: nat, cycles: word, time: nat) {
    began <= time && (time == began || time < began + cycles)
  }

  /** That is so exactly if no two samples can lie around the whole rest of the counter's turn. */
  lemma WhenDelaysEnd(cycles: word, sample: nat)
    ensures EndsAtFirst(cycles, sample) <==> cycles == 0 || cycles + sample <= TURN
  {
    if cycles == 0 || cycles + sample <= TURN {
      forall began: nat, last: nat, next: nat {:trigger Counter(next), Counter(began), Early(began, cycles, last)} |
        Early(began, cycles, last) && last < next <= last + sample && began + cycles <= next
        ensures WrappingSub(Counter(next), Counter(began)) >= cycles
      {
        if cycles > 0 {
          SubOfCounters(next, began);
        }
      }
    } else {
      var last := cycles - 1;
      assert Early(0, cycles, last);
      assert Counter(TURN) == Counter(0) == 0;
    }
  }

  class Clock {
    var now: nat

    constructor (now: nat)
      ensures this.now == now
    {
      this.now := now;
    }

    /** Time goes by. */
    method Pass(least: nat, most: nat)
      requires least <= most
      modifies this
      ensures old(now) + least <= now <= old(now) + most
    {
      var cycles: nat := *;
      now := now + if least <= cycles <= most then cycles else most;
    }

    /** Reads the counter within so many cycles. */
    method Read(within: nat) returns (count: word)
      requires within > 0
      modifies this
      ensures old(now) < now <= old(now) + within && count == Counter(now)
    {
      Pass(1, within);
      count := Counter(now);
    }

    /** Spins, sampling at least every `sample` cycles, until so many have gone by. */
    method Delay(cycles: word, first: nat, sample: nat)
      requires first > 0 && sample > 0 && EndsAtFirst(cycles, sample)
      modifies this
      ensures old(now) + cycles <= now <= old(now) + cycles + first + sample
    {
      var start := Read(first);
      ghost var began := now;
      var passed := false;
      while !passed
        invariant began <= now && (if passed then began + cycles <= now <= began + cycles + sample
                                   else now < began + cycles || now == began)
        decreases !passed, began + cycles - now
      {
        ghost var last := now;
        assert Early(began, cycles, last);
        var count := Read(sample);
        if now < began + cycles {
          SubOfCounters(now, began);
        }
        passed := WrappingSub(count, start) >= cycles;
      }
    }

    /**
     * Waits until the counter shows `cycleNumber`, which the assertion allows exactly if
     * that is less than a third of a turn away when the counter is read.  For a due time
     * that lies less than a third of a turn ahead or two thirds behind, the assertion fires
     * exactly if it has passed; otherwise the wait ends no earlier than that, and no later
     * than the latencies allow.
     */
    method DelayUntil(cycleNumber: word, read: nat, first: nat, sample: nat) returns (ok: bool, ghost at: nat)
      requires read > 0 && first > 0 && 0 < sample <= TURN - TOO_FAR
      modifies this
      ensures old(now) < at <= old(now) + read
      ensures ok <==> FirstTime(at, cycleNumber) < at + 0x5555_5555
      ensures ok ==> FirstTime(at, cycleNumber) <= now <= FirstTime(at, cycleNumber) + first + sample
      ensures forall due: nat {:trigger Counter(due)} ::
                Counter(due) == cycleNumber && due < at + TOO_FAR && at < due + TURN - TOO_FAR ==>
                  (ok <==> at <= due) && (ok ==> due <= now <= due + first + sample)
    {
      var a := Read(read);
      at := now;
      var cycles := WrappingSub(cycleNumber, a);
      ok := cycles < TOO_FAR;
      if ok {
        WhenDelaysEnd(cycles, sample);
        Delay(cycles, first, sample);
      }
      forall due: nat {:trigger Counter(due)} |
        Counter(due) == cycleNumber && due < at + TOO_FAR && at < due + TURN - TOO_FAR
        ensures (ok <==> at <= due) && (ok ==> due <= now <= due + first + sample)
      {
        DueIsFirstTime(due, at);
      }
    }
  }
}
