// The SDK runner's clock: from drawing a position to its first settle attempt, and the hook's time to unwind.
module RunnerTiming {
  import opened Numbers

  const SETTLE_TX_SECS: int := 30
  const MIN_SLEEP_MS: int := 1000

  // `holdSecs`, `bufferSecs` and `graceSecs` are rounded from what the command line says, `pollMs` is whole seconds.
  datatype Timing = Timing(holdSecs: int, bufferSecs: int, graceSecs: int, pollMs: int)

  // The options as parsed: none where the text was no number (for `poll`, no whole number).
  datatype Options = Options(pollSecs: Option<nat>, bufferMin: Option<real>, holdMin: Option<real>, graceSec: Option<real>)

  predicate NonNegative(x: Option<real>) {
    x.Some? && x.value >= 0.0
  }

  function Round(x: real): int {
    (x + 0.5).Floor
  }

  // `runnerTiming`: none if any option is refused.
  function Accepted(o: Options): Option<Timing> {
    if o.pollSecs.None? || o.pollSecs.value == 0 || !NonNegative(o.bufferMin) then None
    else
      var bufferSecs := Round(o.bufferMin.value * 60.0);
      if bufferSecs < o.pollSecs.value + SETTLE_TX_SECS || !NonNegative(o.holdMin) || !NonNegative(o.graceSec) then None
      else
        Some(Timing(Round(o.holdMin.value * 60.0), bufferSecs, Round(o.graceSec.value), o.pollSecs.value * 1000))
  }

  // A clock reading in milliseconds, as the runner's seconds.
  function Secs(ms: int): int {
    ms / 1000
  }

  function SettleTime(t: Timing, drawnAt: int, deadline: int): int {
    Min(deadline - t.bufferSecs, drawnAt + t.holdSecs)
  }

  function LoopSleepMs(pollMs: int, settleAt: Option<int>, nowSecs: int): int {
    match settleAt
    case None => pollMs
    case Some(at) => Min(pollMs, Max(MIN_SLEEP_MS, (at - nowSecs) * 1000))
  }

  function HookGraceSecs(graceSecs: int, deadline: int, nowSecs: int): int {
    Max(0, Min(graceSecs, deadline - SETTLE_TX_SECS - nowSecs))
  }

  // ---------- the loop ----------

  // The loop of `start` with a book, from the sleep after `ms` to the tick that finds it due. No tick is skipped: the
  // one before, if any, came too early.
  method LoopUntilDue(pollMs: int, settleAt: int, ms: int) returns (due: int)
    requires pollMs >= 1000
    ensures due >= ms + 1000 && due / 1000 >= settleAt
    ensures due / 1000 <= settleAt || due / 1000 <= ms / 1000 + 1
  {
    due := ms + LoopSleepMs(pollMs, Some(settleAt), Secs(ms));
    while Secs(due) < settleAt
      invariant due >= ms + 1000 && Secs(due) <= Max(settleAt, Secs(ms) + 1)
      decreases settleAt * 1000 - due
    {
      due := due + LoopSleepMs(pollMs, Some(settleAt), Secs(due));
    }
  }

  // `killGroup` up to the SIGKILL: when it stops waiting for the hook's group, which had its SIGTERM at `ms`, and
  // whether the group is gone. A group that stays gets all its grace, which is whole seconds and so whole pauses of a
  // quarter of one, and nothing beyond it. The cut to `SETTLE_TX_SECS` before the deadline reckons from the start of
  // the second the SIGTERM goes out in: a grace that is cut ends past it unless that is on the second.
  method GraceEnds(graceSecs: int, deadline: int, ms: int) returns (end: int, gone: bool)
    requires graceSecs >= 0
    ensures
      var left := deadline - 30 - ms / 1000;
      var grace := if left <= 0 then 0 else if graceSecs < left then graceSecs else left;
      ms <= end <= ms + grace * 1000 && (!gone ==> end == ms + grace * 1000)
    ensures !gone && ms / 1000 <= deadline - 30 ==>
      (end <= (deadline - 30) * 1000 <==> graceSecs < deadline - 30 - ms / 1000 || ms % 1000 == 0)
  {
    GraceFitsExactly(graceSecs, deadline, ms);
    hide Secs, HookGraceSecs;
    end := ms;
    var grace := HookGraceSecs(graceSecs, deadline, Secs(ms));
    var until := ms + grace * 1000;
    ghost var pauses := 4 * grace;
    gone := *;
    while !gone && end < until
      invariant ms <= end && pauses >= 0 && until - end == 250 * pauses
      decreases until - end
    {
      end, pauses := end + 250, pauses - 1;
      gone := *;
    }
  }

  lemma GraceFitsExactly(graceSecs: int, deadline: int, ms: int)
    requires graceSecs >= 0
    ensures
      var left := deadline - 30 - ms / 1000;
      HookGraceSecs(graceSecs, deadline, Secs(ms)) ==
        if left <= 0 then 0 else if graceSecs < left then graceSecs else left
    ensures ms / 1000 <= deadline - 30 ==>
      (ms + HookGraceSecs(graceSecs, deadline, Secs(ms)) * 1000 <= (deadline - 30) * 1000 <==>
        graceSecs < deadline - 30 - ms / 1000 || ms % 1000 == 0)
  {
  }

  // From a draw at `ms` to the settle: the first attempt starts in the second the hold is over or the next, or if that
  // would be in the buffer before the deadline, in the buffer's first second or the next; and the hook's group has had
  // its time less than a second after the last moment that leaves the time to settle.
  method DrawThenSettle(o: Options, t: Timing, ms: int, deadline: int) returns (attempt: int, hookDone: int)
    requires Accepted(o) == Some(t) && deadline - ms / 1000 > t.bufferSecs + 120
    ensures
      var held, buffer := ms / 1000 + t.holdSecs, deadline - t.bufferSecs;
      var due := if held < buffer then held else buffer;
      due <= attempt / 1000 <= due + 1 && attempt > ms
    ensures attempt / 1000 <= deadline - 30
    ensures attempt <= hookDone < (deadline - 30) * 1000 + 1000
  {
    var settleAt := SettleTime(t, Secs(ms), deadline);
    AcceptedExactly(o);
    attempt := LoopUntilDue(t.pollMs, settleAt, ms);
    var gone;
    hookDone, gone := GraceEnds(t.graceSecs, deadline, attempt);
  }

  // Options are accepted exactly if they are numbers that are not negative, the poll is at least a second, and the
  // buffer, to the nearest second, covers a poll and the time to settle. They come to the nearest whole seconds.
  lemma AcceptedExactly(o: Options)
    ensures Accepted(o).Some? <==>
      && o.pollSecs.Some? && o.pollSecs.value >= 1
      && o.bufferMin.Some? && o.bufferMin.value >= 0.0 && o.holdMin.Some? && o.holdMin.value >= 0.0
      && o.graceSec.Some? && o.graceSec.value >= 0.0
      && o.bufferMin.value * 60.0 >= o.pollSecs.value as real + 29.5
    ensures Accepted(o).Some? ==>
      var t := Accepted(o).value;
      && t.pollMs == o.pollSecs.value * 1000 && t.bufferSecs >= o.pollSecs.value + 30
      && Nearest(t.holdSecs, o.holdMin.value * 60.0) && Nearest(t.bufferSecs, o.bufferMin.value * 60.0)
      && Nearest(t.graceSecs, o.graceSec.value)
  {
    if o.pollSecs.Some? && o.bufferMin.Some? {
      RoundsUpTo(o.bufferMin.value * 60.0, o.pollSecs.value + 30);
    }
  }

  predicate Nearest(n: int, x: real) {
    n >= 0 && x - 0.5 < n as real <= x + 0.5
  }

  lemma RoundsUpTo(x: real, n: int)
    ensures Round(x) >= n <==> x >= n as real - 0.5
  {
  }

  // A book that is not due within a poll is slept over for a whole one.
  lemma SleepsAPoll(pollMs: int, settleAt: int, nowSecs: int)
    requires pollMs >= 1000
    ensures LoopSleepMs(pollMs, None, nowSecs) == pollMs
    ensures (settleAt - nowSecs) * 1000 >= pollMs ==> LoopSleepMs(pollMs, Some(settleAt), nowSecs) == pollMs
    ensures 1000 <= (settleAt - nowSecs) * 1000 <= pollMs ==>
      LoopSleepMs(pollMs, Some(settleAt), nowSecs) == (settleAt - nowSecs) * 1000
  {
  }

  // Without the buffer the command line insists on, a poll may come after the deadline: the loop sleeps a whole poll
  // whenever a book is further off, and a failed attempt waits for the next tick.
  lemma RetryFitsExactly(t: Timing, deadline: int, attempt: int)
    requires t.pollMs > 0 && t.pollMs % 1000 == 0 && attempt / 1000 == deadline - t.bufferSecs
    ensures (attempt + t.pollMs) / 1000 <= deadline - 30 <==> t.bufferSecs >= t.pollMs / 1000 + 30
  {
  }
}
