/** The development tensor-leak monitor `logTfMem`
    (src/lib/utils/dev/memory.ts), as a step function run once per timer
    tick on the tensor count the runtime reports. */
module TensorMemory {

  datatype Monitor = Monitor(lastCount: nat, streak: nat)

  /** The monitor right after `logTfMem` starts. */
  function Start(initialCount: nat): Monitor {
    Monitor(initialCount, 0)
  }

  datatype TickResult = TickResult(monitor: Monitor, warned: bool)

  /** Growth streak length from which a tick warns. */
  const WarnStreak: nat := 3

  /** One interval callback, given the current tensor count. */
  function Tick(m: Monitor, current: nat): (r: TickResult)
    ensures r.monitor.lastCount == current
    ensures current > m.lastCount ==> r.monitor.streak == m.streak + 1
    ensures current <= m.lastCount ==> r.monitor.streak == 0
    ensures r.warned <==> current > m.lastCount && r.monitor.streak >= WarnStreak
  {
    if current > m.lastCount then
      var streak := m.streak + 1;
      TickResult(Monitor(current, streak), streak >= WarnStreak)
    else TickResult(Monitor(current, 0), false)
  }

  /** The monitor after a sequence of ticks, in order. */
  function Run(m: Monitor, counts: seq<nat>): Monitor
    decreases |counts|
  {
    if |counts| == 0 then m else Tick(Run(m, counts[..|counts| - 1]), counts[|counts| - 1]).monitor
  }

  /** Tick `i` saw a strictly larger count than the one before it. */
  ghost predicate Grew(initialCount: nat, counts: seq<nat>, i: int)
    requires 0 <= i < |counts|
  {
    counts[i] > (if i == 0 then initialCount else counts[i - 1])
  }

  /** The streak is the number of consecutive growing ticks that end with
      the latest tick: all of the last `streak` ticks grew, and the tick
      just before them did not. The stored count is the latest reading. */
  lemma {:induction false} StreakCountsTrailingGrowth(initialCount: nat, counts: seq<nat>)
    ensures var m := Run(Start(initialCount), counts);
            && m.streak <= |counts|
            && (forall i :: |counts| - m.streak <= i < |counts| ==> Grew(initialCount, counts, i))
            && (m.streak < |counts| ==> !Grew(initialCount, counts, |counts| - m.streak - 1))
            && m.lastCount == (if |counts| == 0 then initialCount else counts[|counts| - 1])
    decreases |counts|
  {
    if |counts| > 0 {
      var init := counts[..|counts| - 1];
      StreakCountsTrailingGrowth(initialCount, init);
      var prev := Run(Start(initialCount), init);
      assert prev.lastCount == (if |counts| == 1 then initialCount else counts[|counts| - 2]);
      forall i | 0 <= i < |init|
        ensures Grew(initialCount, init, i) == Grew(initialCount, counts, i)
      {
      }
    }
  }

  /** A tick warns exactly when it ends a run of at least three growing
      ticks. */
  lemma WarnsAfterThreeGrowingTicks(initialCount: nat, counts: seq<nat>, current: nat)
    ensures Tick(Run(Start(initialCount), counts), current).warned
            <==> Run(Start(initialCount), counts + [current]).streak >= WarnStreak
                 && current > Run(Start(initialCount), counts).lastCount
  {
    assert (counts + [current])[..|counts|] == counts;
  }
}
