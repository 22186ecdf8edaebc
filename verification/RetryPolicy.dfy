/** Backoff arithmetic over exact reals, and the classification of failure codes. */
module RetryPolicy {
  import opened Basics
  import opened JobModel

  datatype Policy = Policy(
    maxAttempts: int, initialSeconds: int, multiplier: real, capSeconds: int, jitter: bool)
  {
    /** The checks of `__post_init__`. */
    predicate Valid() {
      maxAttempts >= 0 && initialSeconds >= 1 && multiplier >= 1.0 && capSeconds >= 1
    }

    predicate RetryAllowedAfter(attempt: int) {
      attempt < maxAttempts
    }

    function BaseDelay(attempt: int): real
      requires attempt >= 1
    {
      MinReal(capSeconds as real, Grown(initialSeconds as real, multiplier, attempt - 1))
    }

    function LowerDelay(attempt: int): real
      requires attempt >= 1
    {
      if jitter then MaxReal(0.0, BaseDelay(attempt) * 0.5) else BaseDelay(attempt)
    }

    function UpperDelay(attempt: int): real
      requires attempt >= 1
    {
      if jitter then MaxReal(LowerDelay(attempt), MinReal(capSeconds as real, BaseDelay(attempt) * 1.5))
      else BaseDelay(attempt)
    }

    /** `sample` is whatever the jitter sampler returned; it is not trusted to stay in its range. */
    function NextDelay(attempt: int, sample: real): real
      requires attempt >= 1
    {
      var lower := LowerDelay(attempt);
      var upper := UpperDelay(attempt);
      if lower == upper then lower else MinReal(upper, MaxReal(lower, sample))
    }
  }

  /** An amount multiplied that many times. */
  function Grown(initial: real, factor: real, times: nat): real {
    initial * Power(factor, times)
  }

  function Power(base: real, exponent: nat): real {
    if exponent == 0 then 1.0 else base * Power(base, exponent - 1)
  }

  lemma {:induction false} PowerIsMonotone(base: real, low: nat, high: nat)
    requires base >= 1.0 && low <= high
    ensures 1.0 <= Power(base, low) <= Power(base, high)
  {
    if low < high {
      PowerIsMonotone(base, low, high - 1);
      assert base * Power(base, high - 1) >= Power(base, high - 1);
    } else if low > 0 {
      PowerIsMonotone(base, low - 1, low - 1);
      assert base * Power(base, low - 1) >= Power(base, low - 1);
    }
  }

  /** The base delay starts at least at one second, never shrinks, and never passes the cap. */
  lemma BaseDelayIsMonotone(p: Policy, low: int, high: int)
    requires p.Valid() && 1 <= low <= high
    ensures 1.0 <= p.BaseDelay(low) <= p.BaseDelay(high) <= p.capSeconds as real
  {
    PowerIsMonotone(p.multiplier, low - 1, high - 1);
    var l, h := Power(p.multiplier, low - 1), Power(p.multiplier, high - 1);
    assert p.initialSeconds as real * l <= p.initialSeconds as real * h;
    assert p.initialSeconds as real * l >= l;
  }

  lemma GrowsOnceMore(initial: real, factor: real, times: nat)
    ensures Grown(initial, factor, 0) == initial
    ensures Grown(initial, factor, times + 1) == Grown(initial, factor, times) * factor
  {
    Regroup(initial, factor, Power(factor, times));
  }

  lemma Regroup(a: real, b: real, c: real)
    ensures a * (b * c) == (a * c) * b
  {
  }

  lemma BaseDelayStarts(p: Policy)
    ensures p.BaseDelay(1) == MinReal(p.capSeconds as real, p.initialSeconds as real)
  {
    GrowsOnceMore(p.initialSeconds as real, p.multiplier, 0);
  }

  /** The base delay is multiplied from attempt to attempt, up to the cap. */
  lemma BaseDelayGrows(p: Policy, attempt: int)
    requires p.Valid() && attempt >= 1
    ensures p.BaseDelay(attempt + 1) == MinReal(p.capSeconds as real, p.BaseDelay(attempt) * p.multiplier)
  {
    GrowsOnceMore(p.initialSeconds as real, p.multiplier, attempt - 1);
    GrowthMeetsTheCap(Grown(p.initialSeconds as real, p.multiplier, attempt - 1), p.multiplier, p.capSeconds as real);
  }

  lemma GrowthMeetsTheCap(x: real, factor: real, cap: real)
    requires factor >= 1.0 && cap >= 0.0
    ensures MinReal(cap, MinReal(cap, x) * factor) == MinReal(cap, x * factor)
  {
    if x > cap {
      assert x * factor >= cap * factor >= cap;
    }
  }

  /** Every policy that the settings of a deployment can give passes these checks. */
  lemma SettingsAreValid(p: Policy)
    requires 0 <= p.maxAttempts <= 10 && 1 <= p.initialSeconds <= 3600
    requires 1.0 <= p.multiplier <= 10.0 && 1 <= p.capSeconds <= 86400
    ensures p.Valid()
  {
  }

  /** With jitter the sample counts, between half the base delay and one and a half of it or the cap. */
  lemma DelayIsDecided(p: Policy, attempt: int, sample: real)
    requires p.Valid() && attempt >= 1
    ensures var base, cap := p.BaseDelay(attempt), p.capSeconds as real;
            var most := if base * 1.5 <= cap then base * 1.5 else cap;
            p.NextDelay(attempt, sample)
            == if !p.jitter then base
               else if sample < base / 2.0 then base / 2.0
               else if sample > most then most
               else sample
  {
    BaseDelayIsMonotone(p, attempt, attempt);
  }

  /**
   Whatever the sampler returns, the delay used lies in [base/2, cap], and is the base without jitter. A sample from
   the range the sampler was asked for is used as it is.
   */
  lemma DelayIsBounded(p: Policy, attempt: int, sample: real)
    requires p.Valid() && attempt >= 1
    ensures p.BaseDelay(attempt) / 2.0 <= p.NextDelay(attempt, sample) <= p.capSeconds as real
    ensures p.NextDelay(attempt, sample) <= p.BaseDelay(attempt) * 1.5
    ensures 0.0 < p.NextDelay(attempt, sample)
    ensures !p.jitter ==> p.NextDelay(attempt, sample) == p.BaseDelay(attempt)
    ensures p.LowerDelay(attempt) <= sample <= p.UpperDelay(attempt) ==> p.NextDelay(attempt, sample) == sample
  {
    BaseDelayIsMonotone(p, attempt, attempt);
  }

  datatype Classification = Classification(
    stage: Stage, code: ErrorCode, retryable: bool, terminal: Option<JobState>)

  /** The catalog entries marked retryable; every other entry of a stage equals that stage's default. */
  predicate CatalogRetryable(stage: Stage, code: ErrorCode) {
    match stage
    case EventStage =>
      code == BrokerUnavailable || code == BrokerPublishFailure
    case ProcessingStage =>
      || code == ProcessorTimeout || code == ProcessorTransientError || code == ProcessingTransientFailure
      || code == ProcessingInputUnavailable || code == ProcessingOutputUnavailable
      || code == ProcessingUnexpectedError
    case DeliveryStage =>
      || code == DestinationTemporarilyUnavailable || code == DestinationUnavailable
      || code == DeliveryTransientFailure || code == DestinationNotFound || code == DestinationNotWritable
      || code == FinalizeFailed || code == SourceTransferFailed
    case ValidationStage => false
    case RoutingStage => false
  }

  function Classify(stage: Stage, code: ErrorCode): Classification {
    if CatalogRetryable(stage, code) then Classification(stage, code, true, None)
    else Classification(stage, code, false, Some(if stage == ValidationStage then Quarantined else Failed))
  }
}
