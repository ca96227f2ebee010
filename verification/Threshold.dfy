/** The arithmetic of context-window thresholds, over the integers and reals (internal/compact/threshold.go). */
module Threshold {
  import opened Text

  const MAX_OUTPUT_TOKENS_FOR_SUMMARY := 20_000
  const AUTO_COMPACT_BUFFER_TOKENS := 13_000
  const WARNING_THRESHOLD_BUFFER_TOKENS := 20_000
  const ERROR_THRESHOLD_BUFFER_TOKENS := 20_000
  const MANUAL_COMPACT_BUFFER_TOKENS := 3_000

  datatype WindowConfig = WindowConfig(
    contextWindow: int, maxOutputTokens: int, autoCompactEnabled: bool, autoCompactOverride: Option<real>,
    blockingLimit: int)

  datatype WarningState = WarningState(
    percentLeft: int, aboveWarning: bool, aboveError: bool, aboveAutoCompact: bool, atBlockingLimit: bool)

  function Max(a: int, b: int): int {
    if a > b then a else b
  }

  function ContextWindow(c: WindowConfig): int {
    if c.contextWindow <= 0 then 200_000 else c.contextWindow
  }

  function EffectiveContextWindow(c: WindowConfig): int {
    var outputTokens :=
      if c.maxOutputTokens <= 0 || c.maxOutputTokens > MAX_OUTPUT_TOKENS_FOR_SUMMARY then MAX_OUTPUT_TOKENS_FOR_SUMMARY
      else c.maxOutputTokens;
    Max(0, ContextWindow(c) - outputTokens)
  }

  function AutoCompactThreshold(c: WindowConfig): int {
    var effective := EffectiveContextWindow(c);
    var threshold := effective - AUTO_COMPACT_BUFFER_TOKENS;
    var byPercent :=
      if c.autoCompactOverride.Some? && 0.0 < c.autoCompactOverride.value <= 100.0
      then (effective as real * (c.autoCompactOverride.value / 100.0)).Floor
      else threshold;
    Max(0, if byPercent < threshold then byPercent else threshold)
  }

  /** math.Round: halves away from zero. */
  function Round(x: real): int {
    if x >= 0.0 then (x + 0.5).Floor else -((0.5 - x).Floor)
  }

  /** The threshold the percentage and the warnings are measured against. */
  function Reference(c: WindowConfig): int {
    if c.autoCompactEnabled then AutoCompactThreshold(c) else EffectiveContextWindow(c)
  }

  function PercentLeft(usage: int, threshold: int): int
    requires threshold > 0
  {
    Max(0, Round((threshold - usage) as real / threshold as real * 100.0))
  }

  function BlockingLimit(c: WindowConfig): int {
    if c.blockingLimit <= 0 then EffectiveContextWindow(c) - MANUAL_COMPACT_BUFFER_TOKENS else c.blockingLimit
  }

  function CalculateWarningState(usage: int, c: WindowConfig): WarningState {
    var threshold := Reference(c);
    if threshold <= 0 then WarningState(0, true, true, c.autoCompactEnabled, true)
    else WarningState(PercentLeft(usage, threshold),
                      usage >= threshold - WARNING_THRESHOLD_BUFFER_TOKENS,
                      usage >= threshold - ERROR_THRESHOLD_BUFFER_TOKENS,
                      c.autoCompactEnabled && usage >= AutoCompactThreshold(c), usage >= BlockingLimit(c))
  }

  predicate ShouldAutoCompact(usage: int, c: WindowConfig, disabled: bool) {
    !disabled && c.autoCompactEnabled && usage >= AutoCompactThreshold(c)
  }

  lemma ThresholdsAreOrdered(c: WindowConfig)
    ensures 0 <= AutoCompactThreshold(c) <= EffectiveContextWindow(c) <= ContextWindow(c)
  {
  }

  /** The warnings come in order: reaching the blocking limit implies being above the auto-compact
      threshold, for every usage, exactly unless a blocking limit below that threshold is configured; and
      being above it implies both warnings. */
  lemma WarningsAreOrdered(c: WindowConfig)
    requires c.autoCompactEnabled
    ensures (forall usage :: CalculateWarningState(usage, c).atBlockingLimit ==>
             CalculateWarningState(usage, c).aboveAutoCompact)
       <==> AutoCompactThreshold(c) <= 0 || c.blockingLimit <= 0 || AutoCompactThreshold(c) <= c.blockingLimit
    ensures forall usage :: CalculateWarningState(usage, c).aboveAutoCompact ==>
              CalculateWarningState(usage, c).aboveError && CalculateWarningState(usage, c).aboveWarning
  {
    ThresholdsAreOrdered(c);
    if 0 < c.blockingLimit < AutoCompactThreshold(c) {
      var s := CalculateWarningState(c.blockingLimit, c);
      assert s.atBlockingLimit && !s.aboveAutoCompact;
    }
    hide PercentLeft;
  }

  lemma RoundIsMonotone(x: real, y: real)
    requires x <= y
    ensures Round(x) <= Round(y)
  {
  }

  lemma Scales(small: int, large: int, threshold: int)
    requires threshold > 0 && small <= large
    ensures small as real / threshold as real * 100.0 <= large as real / threshold as real * 100.0
  {
    assert small as real / threshold as real <= large as real / threshold as real;
  }

  lemma DividesItself(x: real)
    requires x > 0.0
    ensures x / x == 1.0
  {
  }

  /** The percentage left is a percentage, and falls as usage grows. */
  lemma PercentLeftFalls(c: WindowConfig, usage: nat, more: nat)
    requires usage <= more
    ensures 0 <= CalculateWarningState(more, c).percentLeft <= CalculateWarningState(usage, c).percentLeft <= 100
  {
    var threshold := Reference(c);
    if threshold > 0 {
      Scales(threshold - more, threshold - usage, threshold);
      Scales(threshold - usage, threshold, threshold);
      DividesItself(threshold as real);
      RoundIsMonotone((threshold - more) as real / threshold as real * 100.0,
                      (threshold - usage) as real / threshold as real * 100.0);
      RoundIsMonotone((threshold - usage) as real / threshold as real * 100.0, 100.0);
    }
  }

  /** Unless compaction is disabled by the environment, the two ways to ask agree, save that an exhausted
      window with negative usage warns without compacting. */
  lemma ShouldAutoCompactIsWarning(usage: int, c: WindowConfig)
    ensures ShouldAutoCompact(usage, c, false) == CalculateWarningState(usage, c).aboveAutoCompact
       <==> !(c.autoCompactEnabled && AutoCompactThreshold(c) == 0 && usage < 0)
  {
    ThresholdsAreOrdered(c);
    hide PercentLeft, EffectiveContextWindow;
  }

  /** The percentage is what is left of the reference, in hundredths rounded half up, for every usage within it;
      beyond it nothing is left. */
  lemma PercentLeftIsRounded(usage: int, c: WindowConfig)
    requires Reference(c) > 0
    ensures var t, p := Reference(c), CalculateWarningState(usage, c).percentLeft;
      if usage <= t then
        (p as real - 0.5) * t as real <= 100.0 * (t - usage) as real < (p as real + 0.5) * t as real
      else p == 0
  {
    assert CalculateWarningState(usage, c).percentLeft == PercentLeft(usage, Reference(c));
    hide CalculateWarningState, Reference;
    PercentIsRounded(usage, Reference(c));
    hide PercentLeft;
  }

  lemma PercentIsRounded(usage: int, t: int)
    requires t > 0
    ensures var p := PercentLeft(usage, t);
      if usage <= t then
        (p as real - 0.5) * t as real <= 100.0 * (t - usage) as real < (p as real + 0.5) * t as real
      else p == 0
  {
    var x := (t - usage) as real / t as real * 100.0;
    if usage <= t {
      Scales(0, t - usage, t);
      assert x >= 0.0 && PercentLeft(usage, t) == (x + 0.5).Floor;
      hide PercentLeft, Round;
      RoundedTimes(t - usage, t, (x + 0.5).Floor);
    } else {
      Scales(t - usage, 0, t);
      RoundIsMonotone(x, 0.0);
    }
  }

  lemma RoundedTimes(left: int, t: int, p: int)
    requires t > 0 && p == (left as real / t as real * 100.0 + 0.5).Floor
    ensures (p as real - 0.5) * t as real <= 100.0 * left as real < (p as real + 0.5) * t as real
  {
    var x, q := left as real / t as real * 100.0, p as real;
    assert q - 0.5 <= x < q + 0.5;
    Between(left as real, t as real, x, q - 0.5, q + 0.5);
  }

  lemma Between(left: real, t: real, x: real, low: real, high: real)
    requires t > 0.0 && x == left / t * 100.0 && low <= x < high
    ensures low * t <= 100.0 * left < high * t
  {
    ScaledBack(left, t);
    TimesReal(low, x, t);
    TimesReal(x, high, t);
  }

  lemma ScaledBack(left: real, t: real)
    requires t > 0.0
    ensures left / t * 100.0 * t == 100.0 * left
  {
    var y := left / t;
    assert y * t == left;
    assert (y * 100.0) * t == 100.0 * (y * t);
  }

  lemma TimesReal(a: real, b: real, t: real)
    requires a <= b && t > 0.0
    ensures a * t <= b * t && (a < b ==> a * t < b * t)
  {
  }

  /** An override that counts. */
  predicate Overridden(c: WindowConfig) {
    c.autoCompactOverride.Some? && 0.0 < c.autoCompactOverride.value <= 100.0
  }

  /** `n` tokens are within both bounds of the auto-compact threshold: 13,000 below the effective window, and the
      percentage of it that an override asks for. */
  predicate WithinBounds(n: int, c: WindowConfig) {
    && n <= EffectiveContextWindow(c) - 13_000
    && (Overridden(c) ==> n as real <= EffectiveContextWindow(c) as real * (c.autoCompactOverride.value / 100.0))
  }

  /** The effective window is the window, 200,000 unless configured, without what is reserved for the output, at most
      and by default 20,000; the auto-compact threshold is the largest number within both bounds. Neither is
      negative. */
  lemma ThresholdsAre(c: WindowConfig, n: nat)
    ensures var window := if c.contextWindow > 0 then c.contextWindow else 200_000;
      var reserved := if 0 < c.maxOutputTokens < 20_000 then c.maxOutputTokens else 20_000;
      if reserved <= window then EffectiveContextWindow(c) + reserved == window else EffectiveContextWindow(c) == 0
    ensures n <= AutoCompactThreshold(c) <==> n == 0 || WithinBounds(n, c)
  {
    if Overridden(c) {
      var bound := EffectiveContextWindow(c) as real * (c.autoCompactOverride.value / 100.0);
      assert n <= bound.Floor <==> n as real <= bound;
    }
  }

  /** When each warning is given. */
  lemma WarningsAre(usage: int, c: WindowConfig)
    ensures var s, auto := CalculateWarningState(usage, c), AutoCompactThreshold(c);
      var reference := if c.autoCompactEnabled then auto else EffectiveContextWindow(c);
      && (s.aboveWarning <==> reference == 0 || usage + 20_000 >= reference)
      && (s.aboveError <==> reference == 0 || usage + 20_000 >= reference)
      && (s.aboveAutoCompact <==> c.autoCompactEnabled && (auto == 0 || usage >= auto))
      && (s.atBlockingLimit <==>
          reference == 0 || if c.blockingLimit > 0 then usage >= c.blockingLimit
                            else usage + 3_000 >= EffectiveContextWindow(c))
      && (ShouldAutoCompact(usage, c, false) <==> c.autoCompactEnabled && usage >= auto)
      && !ShouldAutoCompact(usage, c, true)
  {
    ThresholdsAreOrdered(c);
    hide PercentLeft, EffectiveContextWindow;
  }
}
