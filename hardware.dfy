/**
 * The firmware's view of the hardware: the PWM channel that drives the LED
 * on GPIO 2 (`led_pwm`) and the millisecond sleep (`time.sleep_ms`). The
 * board records every call made to it, in order, as a trace of events.
 */
module Hardware {
  import opened Wrappers

  /** Full brightness on the 10-bit PWM scale. */
  const MaxDuty: int := 1023

  /** One call made to the board: `led_pwm.duty(value)` or `time.sleep_ms(ms)`. */
  datatype Event = Duty(value: int) | Sleep(ms: int)

  /** The PWM channel and the clock, as the sequence of calls made to them. */
  class Board {
    var trace: seq<Event>

    constructor ()
      ensures trace == []
    {
      trace := [];
    }

    /** `led_pwm.duty(value)`. */
    method SetDuty(value: int)
      modifies this
      ensures trace == old(trace) + [Duty(value)]
    {
      trace := trace + [Duty(value)];
    }

    /** `time.sleep_ms(ms)`: the output holds its level for `ms` milliseconds. */
    method SleepMs(ms: int)
      modifies this
      ensures trace == old(trace) + [Sleep(ms)]
    {
      trace := trace + [Sleep(ms)];
    }
  }

  // -----------------------------------------------------------------------
  // Reading a trace.
  // -----------------------------------------------------------------------

  /** The duty values written, in order. */
  function Duties(trace: seq<Event>): seq<int>
  {
    if trace == [] then []
    else Duties(trace[..|trace| - 1]) + (if trace[|trace| - 1].Duty? then [trace[|trace| - 1].value] else [])
  }

  /** The sleep durations, in order. */
  function Holds(trace: seq<Event>): seq<int>
  {
    if trace == [] then []
    else Holds(trace[..|trace| - 1]) + (if trace[|trace| - 1].Sleep? then [trace[|trace| - 1].ms] else [])
  }

  /** The duty the LED is left at: the last one written, if any. */
  function LastDuty(trace: seq<Event>): Option<int>
  {
    var ds := Duties(trace);
    if ds == [] then None else Some(ds[|ds| - 1])
  }

  /** `block` repeated `n` times. */
  function Repeat<T>(block: seq<T>, n: nat): seq<T>
  {
    if n == 0 then [] else Repeat(block, n - 1) + block
  }

  lemma {:induction false} DutiesAppend(a: seq<Event>, b: seq<Event>)
    ensures Duties(a + b) == Duties(a) + Duties(b)
    decreases |b|
  {
    if b == [] {
      assert a + b == a;
    } else {
      var b' := b[..|b| - 1];
      assert (a + b)[..|a + b| - 1] == a + b';
      DutiesAppend(a, b');
    }
  }

  lemma {:induction false} HoldsAppend(a: seq<Event>, b: seq<Event>)
    ensures Holds(a + b) == Holds(a) + Holds(b)
    decreases |b|
  {
    if b == [] {
      assert a + b == a;
    } else {
      var b' := b[..|b| - 1];
      assert (a + b)[..|a + b| - 1] == a + b';
      HoldsAppend(a, b');
    }
  }

  /** The duties of a repeated block are the block's duties, repeated. */
  lemma {:induction false} DutiesRepeat(block: seq<Event>, n: nat)
    ensures Duties(Repeat(block, n)) == Repeat(Duties(block), n)
  {
    if n > 0 {
      DutiesRepeat(block, n - 1);
      DutiesAppend(Repeat(block, n - 1), block);
    }
  }

  /** The holds of a repeated block are the block's holds, repeated. */
  lemma {:induction false} HoldsRepeat(block: seq<Event>, n: nat)
    ensures Holds(Repeat(block, n)) == Repeat(Holds(block), n)
  {
    if n > 0 {
      HoldsRepeat(block, n - 1);
      HoldsAppend(Repeat(block, n - 1), block);
    }
  }

  /** Every element of a repeated block is an element of the block. */
  lemma {:induction false} InRepeat<T>(block: seq<T>, n: nat, x: T)
    requires x in Repeat(block, n)
    ensures x in block
  {
    if n > 0 && x !in Repeat(block, n - 1) {
      assert x in Repeat(block, n - 1) + block;
    } else if n > 0 {
      InRepeat(block, n - 1, x);
    }
  }

  /** A block with nothing in it repeats to nothing. */
  lemma {:induction false} RepeatEmpty<T>(block: seq<T>, n: nat)
    requires block == []
    ensures Repeat(block, n) == []
  {
    if n > 0 {
      RepeatEmpty(block, n - 1);
    }
  }

  /** One more turn of a loop that appends `block` each turn. */
  lemma RepeatMore<T>(start: seq<T>, mid: seq<T>, fin: seq<T>, block: seq<T>, first: seq<T>, second: seq<T>, n: nat)
    requires mid == start + Repeat(block, n)
    requires fin == mid + first + second && block == first + second
    ensures fin == start + Repeat(block, n + 1)
  {
  }

  /** Writing a duty last decides where the LED is left. */
  lemma LastDutyAfterWrite(trace: seq<Event>, more: seq<Event>, value: int)
    ensures LastDuty(trace + more + [Duty(value)]) == Some(value)
  {
    DutiesAppend(trace + more, [Duty(value)]);
    assert Duties([Duty(value)]) == [value] by {
      assert [Duty(value)][..0] == [];
    }
  }
}
