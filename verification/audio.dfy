/** The delay and sound countdown counters (src/audio.rs). Producing a tone
    is not modelled; only the counters are. */
module Audio {
  import opened Bytes
  import opened Outcomes

  datatype Timers = Timers(delay: Byte, sound: Byte)

  /** Both counters start at zero. */
  function New(): (t: Timers)
    ensures t.delay == 0 && t.sound == 0
  {
    Timers(0, 0)
  }

  /** One countdown step, as the interpreter performs it: `delay` is
      decremented when positive, and decremented once more whenever `sound`
      is positive; `sound` itself is only read. The second decrement of an
      8-bit counter that is already zero is a fault. */
  function Tick(t: Timers): (r: Result<Timers>)
    ensures r.Ok? ==> r.value.sound == t.sound
    ensures t.sound == 0 ==> r.Ok? && r.value.delay == (if t.delay == 0 then 0 else t.delay - 1)
    ensures t.sound > 0 ==> (r.Ok? <==> t.delay >= 2)
    ensures t.sound > 0 && r.Ok? ==> r.value.delay == t.delay - 2
    ensures r.Err? ==> r.fault == TimerUnderflow
  {
    var delay := if t.delay > 0 then t.delay - 1 else t.delay;
    if t.sound > 0 then
      if delay > 0 then Ok(Timers(delay - 1, t.sound)) else Err(TimerUnderflow)
    else
      Ok(Timers(delay, t.sound))
  }

  /** `k` countdown steps in a row, stopping at the first fault. */
  function TickTimes(t: Timers, k: nat): Result<Timers>
    decreases k
  {
    if k == 0 then Ok(t)
    else
      var t' :- Tick(t);
      TickTimes(t', k - 1)
  }

  /** With the sound counter silent, `k` steps count the delay down by `k`
      and then hold it at zero. */
  lemma {:induction false} SilentCountdown(t: Timers, k: nat)
    requires t.sound == 0
    ensures TickTimes(t, k) == Ok(Timers(if t.delay <= k then 0 else t.delay - k, 0))
    decreases k
  {
    if k > 0 {
      SilentCountdown(Tick(t).value, k - 1);
    }
  }

  /** With the sound counter running, each step takes two off the delay
      counter, so `k` steps succeed exactly when the delay is at least
      `2 * k`. */
  lemma {:induction false} SoundingCountdown(t: Timers, k: nat)
    requires t.sound > 0
    ensures TickTimes(t, k).Ok? <==> t.delay >= 2 * k
    ensures TickTimes(t, k).Ok? ==> TickTimes(t, k) == Ok(Timers(t.delay - 2 * k, t.sound))
    ensures TickTimes(t, k).Err? ==> TickTimes(t, k).fault == TimerUnderflow
    decreases k
  {
    if k > 0 && Tick(t).Ok? {
      SoundingCountdown(Tick(t).value, k - 1);
    }
  }
}
