/** The counter display (vibe-coding-landing/src/components/SubscriberCounter.tsx):
    the shown number steps toward the fetched count, one interval tick at a
    time, and the component picks a skeleton, an error or the message. */
module SubscriberCounter {
  import opened Types
  import opened Formatters
  import opened UseSubscriberCount

  function Abs(x: int): nat {
    if x < 0 then -x else x
  }

  /** `displayCount || 0` */
  function Current(displayCount: Option<int>): int {
    if displayCount.Some? then displayCount.value else 0
  }

  /** The effect schedules ticks only for a loaded count that differs from
      the value shown. */
  predicate Animating(count: Option<int>, isLoading: bool, displayCount: Option<int>) {
    count.Some? && !isLoading && count.value != Current(displayCount)
  }

  /** `Math.ceil(Math.abs(target - current) / 20)` */
  function Step(current: int, target: int): (step: nat)
    ensures current != target ==> 1 <= step <= Abs(target - current)
    ensures current != target ==> 20 * step >= Abs(target - current) > 20 * (step - 1)
  {
    (Abs(target - current) + 19) / 20
  }

  /** The value one tick sets, from the value shown: a step toward the
      target, or the target itself once the step reaches or passes it. */
  function Tick(current: int, target: int): int {
    var increment := if target > current then 1 else -1;
    var newCount := current + increment * Step(current, target);
    if (increment > 0 && newCount >= target) || (increment < 0 && newCount <= target) then target
    else newCount
  }

  /** A tick moves toward the target and never passes it. */
  lemma TickApproaches(current: int, target: int)
    ensures current < target ==> current < Tick(current, target) <= target
    ensures current > target ==> target <= Tick(current, target) < current
    ensures current == target ==> Tick(current, target) == target
  {
  }

  /** The distance to the target strictly shrinks on every tick. */
  lemma TickShrinksDistance(current: int, target: int)
    requires current != target
    ensures Abs(target - Tick(current, target)) < Abs(target - current)
  {
    TickApproaches(current, target);
  }

  /** The value shown after at most `n` ticks, ticks stopping at the target. */
  function Iterate(current: int, target: int, n: nat): int
    decreases n
  {
    if n == 0 || current == target then current else Iterate(Tick(current, target), target, n - 1)
  }

  /** Stepping ends at exactly the target within `|target - current|` ticks. */
  lemma {:induction false} IterateConverges(current: int, target: int, n: nat)
    requires n >= Abs(target - current)
    ensures Iterate(current, target, n) == target
    decreases n
  {
    if n != 0 && current != target {
      TickShrinksDistance(current, target);
      IterateConverges(Tick(current, target), target, n - 1);
    }
  }

  /** Every value on the way lies between the start and the target. */
  lemma {:induction false} IterateBetween(current: int, target: int, n: nat)
    ensures current <= target ==> current <= Iterate(current, target, n) <= target
    ensures current >= target ==> target <= Iterate(current, target, n) <= current
    decreases n
  {
    if n != 0 && current != target {
      TickApproaches(current, target);
      IterateBetween(Tick(current, target), target, n - 1);
    }
  }

  /** The component's `displayCount` state. */
  class CounterDisplay {
    var displayCount: Option<int>

    constructor()
      ensures displayCount.None?
    {
      displayCount := None;
    }

    /** One firing of the effect's 50 ms interval, for the hook's current
        `count` and `isLoading`; the effect re-runs after every change of
        `displayCount`, so each tick uses a step computed from the value shown. */
    method OnTick(count: Option<int>, isLoading: bool)
      modifies this
      ensures Animating(count, isLoading, old(displayCount)) ==>
        displayCount == Some(Tick(Current(old(displayCount)), count.value))
      ensures !Animating(count, isLoading, old(displayCount)) ==> displayCount == old(displayCount)
    {
      if count.Some? && !isLoading {
        var targetCount := count.value;
        var currentCount := if displayCount.Some? then displayCount.value else 0;
        if targetCount != currentCount {
          displayCount := Some(Tick(currentCount, targetCount));
        }
      }
    }

    /** Ticks until the loaded `count` is shown; returns how many it took. */
    method Animate(count: int) returns (ticks: nat)
      modifies this
      ensures Current(old(displayCount)) == count ==> displayCount == old(displayCount) && ticks == 0
      ensures Current(old(displayCount)) != count ==> displayCount == Some(count)
      ensures ticks <= Abs(count - Current(old(displayCount)))
    {
      ticks := 0;
      while Current(displayCount) != count
        invariant Abs(count - Current(displayCount)) + ticks <= Abs(count - Current(old(displayCount)))
        invariant ticks == 0 ==> displayCount == old(displayCount)
        invariant ticks > 0 ==> displayCount.Some?
        decreases Abs(count - Current(displayCount))
      {
        TickShrinksDistance(Current(displayCount), count);
        OnTick(Some(count), false);
        ticks := ticks + 1;
      }
    }
  }

  /** What the component renders; times are milliseconds. */
  datatype View = Skeleton | ErrorView(lastUpdated: Option<int>) | SuccessView(message: string, lastUpdated: Option<int>)

  /** `displayCount || count || 0`: a zero counts as missing. */
  function Shown(displayCount: Option<int>, count: Option<int>): int {
    if displayCount.Some? && displayCount.value != 0 then displayCount.value
    else if count.Some? && count.value != 0 then count.value
    else 0
  }

  /** The view for the hook's state and the value shown. */
  function CounterView(state: CountState, displayCount: Option<int>): View {
    if state.isLoading && displayCount.None? then Skeleton
    else if state.error.Some? && state.error.value != "" then ErrorView(state.lastUpdated)
    else SuccessView(FormatSubscriberMessage(Shown(displayCount, state.count)), state.lastUpdated)
  }

  /** The skeleton shows exactly while loading with nothing shown yet;
      otherwise an error takes precedence over the message. */
  lemma ViewSelection(state: CountState, displayCount: Option<int>)
    ensures CounterView(state, displayCount).Skeleton? <==> state.isLoading && displayCount.None?
    ensures CounterView(state, displayCount).ErrorView? <==>
      !(state.isLoading && displayCount.None?) && state.error.Some? && state.error.value != ""
    ensures CounterView(state, displayCount).SuccessView? ==>
      CounterView(state, displayCount).message == FormatSubscriberMessage(Shown(displayCount, state.count))
  {
  }

  /** The message prefers the animated value, then the fetched count, then 0. */
  lemma ShownPrefersDisplay(displayCount: Option<int>, count: Option<int>)
    ensures Current(displayCount) != 0 ==> Shown(displayCount, count) == Current(displayCount)
    ensures Current(displayCount) == 0 && count.Some? ==> Shown(displayCount, count) == count.value
    ensures displayCount.None? && count.None? ==> Shown(displayCount, count) == 0
  {
  }

  /** While a refetch is loading, a counter that already shows a value keeps
      showing it instead of the skeleton. */
  lemma RefetchKeepsNumber(state: CountState, shown: int)
    requires state.isLoading && state.error.None? && shown != 0
    ensures CounterView(state, Some(shown)) == SuccessView(FormatSubscriberMessage(shown), state.lastUpdated)
  {
  }
}
