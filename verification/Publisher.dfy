// crates/dandori-app-services/src/worker/publish.rs: the HTTP publisher's circuit breaker,
// for calls made one after another. Its clock counts whole seconds.
module Publisher {

  // Seconds since the epoch, and durations in seconds.
  type Seconds = int

  const U32_SPACE: nat := 0x1_0000_0000
  const I64_MAX: int := 0x7FFF_FFFF_FFFF_FFFF
  const I64_MIN: int := -0x8000_0000_0000_0000

  datatype ErrorKind = TransientError | Permanent | Unsupported | Serialization

  predicate IsTransient(kind: ErrorKind) { kind.TransientError? }

  // The kind as {:?} prints it; the source's name of the first kind is Transient.
  function KindText(kind: ErrorKind): string {
    match kind
    case TransientError => "Transient"
    case Permanent => "Permanent"
    case Unsupported => "Unsupported"
    case Serialization => "Serialization"
  }

  datatype PublishResult = Ok | Err(kind: ErrorKind)

  // What the network makes of a request.
  datatype HttpOutcome = NetworkError | Response(status: nat)

  predicate IsTransientFailure(o: HttpOutcome) { o.NetworkError? || 500 <= o.status < 600 }

  function SaturatingAdd(a: int, b: int): int {
    if a + b > I64_MAX then I64_MAX else if a + b < I64_MIN then I64_MIN else a + b
  }

  // ----- the history of a publisher

  datatype Call = Remote(start: Seconds, outcome: HttpOutcome) | Skipped(start: Seconds)

  // The transient failures since the last answered request; skipped calls do not count.
  ghost function TrailingFailures(h: seq<Call>): nat {
    if h == [] then 0 else
      var last, before := h[|h| - 1], h[..|h| - 1];
      if last.Skipped? then TrailingFailures(before)
      else if IsTransientFailure(last.outcome) then TrailingFailures(before) + 1
      else 0
  }

  ghost function LastRemoteStart(h: seq<Call>): Seconds {
    if h == [] then 0 else
      var last, before := h[|h| - 1], h[..|h| - 1];
      if last.Skipped? then LastRemoteStart(before) else last.start
  }

  // When the k-th of the trailing failures began.
  ghost function StartOfFailure(h: seq<Call>, k: nat): Seconds
    requires 1 <= k <= TrailingFailures(h)
  {
    var last, before := h[|h| - 1], h[..|h| - 1];
    if last.Remote? && k == TrailingFailures(h) then last.start else StartOfFailure(before, k)
  }

  // Of n trailing failures, the last at which the 32-bit counter read the threshold or more.
  function LastOpening(n: nat, threshold: nat): (m: nat)
    requires threshold < U32_SPACE
    ensures m <= n
  {
    if threshold == 0 then 0
    else if n % U32_SPACE >= threshold then n
    else if n >= U32_SPACE then n - n % U32_SPACE - 1
    else 0
  }

  // Open for the cooldown after that failure began.
  ghost function OpenUntil(h: seq<Call>, threshold: nat, cooldown: Seconds): Seconds
    requires threshold < U32_SPACE
  {
    var m := LastOpening(TrailingFailures(h), threshold);
    if m == 0 then 0 else SaturatingAdd(StartOfFailure(h, m), cooldown)
  }

  // Each call went out exactly when the breaker was closed at its start.
  ghost predicate Produced(h: seq<Call>, threshold: nat, cooldown: Seconds)
    requires threshold < U32_SPACE
  {
    forall i {:trigger OpenUntil(h[..i], threshold, cooldown)} ::
      0 <= i < |h| ==> (h[i].Skipped? <==> OpenUntil(h[..i], threshold, cooldown) > h[i].start)
  }

  lemma {:induction false} HistoryStep(h: seq<Call>, c: Call)
    ensures TrailingFailures(h + [c]) ==
      (if c.Skipped? then TrailingFailures(h) else if IsTransientFailure(c.outcome) then TrailingFailures(h) + 1 else 0)
    ensures LastRemoteStart(h + [c]) == (if c.Skipped? then LastRemoteStart(h) else c.start)
  {
    assert (h + [c])[..|h + [c]| - 1] == h;
  }

  lemma {:induction false} StartStep(h: seq<Call>, c: Call, k: nat)
    requires c.Skipped? || IsTransientFailure(c.outcome)
    requires 1 <= k <= TrailingFailures(h + [c])
    ensures c.Remote? && k == TrailingFailures(h + [c]) ==> StartOfFailure(h + [c], k) == c.start
    ensures !(c.Remote? && k == TrailingFailures(h + [c])) ==>
      k <= TrailingFailures(h) && StartOfFailure(h + [c], k) == StartOfFailure(h, k)
  {
    HistoryStep(h, c);
    assert (h + [c])[..|h + [c]| - 1] == h;
  }

  lemma OpeningStep(n: nat, threshold: nat)
    requires 0 < threshold < U32_SPACE
    ensures LastOpening(n + 1, threshold)
         == if (n + 1) % U32_SPACE >= threshold then n + 1 else LastOpening(n, threshold)
  {
  }

  // A failure renews the open period exactly when it takes the counter to the threshold or more.
  lemma {:induction false} OpenUntilStep(h: seq<Call>, c: Call, threshold: nat, cooldown: Seconds)
    requires 0 < threshold < U32_SPACE && c.Remote? && IsTransientFailure(c.outcome)
    ensures OpenUntil(h + [c], threshold, cooldown)
         == if (TrailingFailures(h) + 1) % U32_SPACE >= threshold then SaturatingAdd(c.start, cooldown)
            else OpenUntil(h, threshold, cooldown)
  {
    var n := TrailingFailures(h);
    HistoryStep(h, c);
    OpeningStep(n, threshold);
    var m := LastOpening(n + 1, threshold);
    if m > 0 {
      StartStep(h, c, m);
    }
  }

  lemma {:induction false} SkipKeepsOpenUntil(h: seq<Call>, c: Call, threshold: nat, cooldown: Seconds)
    requires threshold < U32_SPACE && c.Skipped?
    ensures OpenUntil(h + [c], threshold, cooldown) == OpenUntil(h, threshold, cooldown)
  {
    HistoryStep(h, c);
    var m := LastOpening(TrailingFailures(h), threshold);
    if m > 0 {
      StartStep(h, c, m);
    }
  }

  lemma {:induction false} ProducedStep(h: seq<Call>, c: Call, threshold: nat, cooldown: Seconds)
    requires threshold < U32_SPACE && Produced(h, threshold, cooldown)
    requires c.Skipped? <==> OpenUntil(h, threshold, cooldown) > c.start
    ensures Produced(h + [c], threshold, cooldown)
  {
    forall i | 0 <= i < |h + [c]|
      ensures (h + [c])[i].Skipped? <==> OpenUntil((h + [c])[..i], threshold, cooldown) > (h + [c])[i].start
    {
      assert (h + [c])[..i] == h[..i];
      assert i == |h| ==> h[..i] == h;
    }
  }

  // The two counters are a fold of the history, whatever its length: the failure counter is a
  // u32 and wraps, and the open-until time is that of the last failure that set it.
  ghost predicate Counters(h: seq<Call>, threshold: nat, cooldown: Seconds, failures: nat, openUntil: Seconds)
    requires threshold < U32_SPACE
  {
    && failures == (if threshold == 0 then 0 else TrailingFailures(h) % U32_SPACE)
    && openUntil == OpenUntil(h, threshold, cooldown)
  }

  function BumpFailures(failures: nat): nat { (failures + 1) % U32_SPACE }

  lemma BumpIsModular(n: nat)
    ensures BumpFailures(n % U32_SPACE) == (n + 1) % U32_SPACE
  {
  }

  lemma AfterSkip(h: seq<Call>, c: Call, threshold: nat, cooldown: Seconds, failures: nat, openUntil: Seconds)
    requires threshold < U32_SPACE && Counters(h, threshold, cooldown, failures, openUntil) && c.Skipped?
    ensures Counters(h + [c], threshold, cooldown, failures, openUntil)
  {
    HistoryStep(h, c);
    SkipKeepsOpenUntil(h, c, threshold, cooldown);
  }

  lemma AfterAnswer(h: seq<Call>, c: Call, threshold: nat, cooldown: Seconds)
    requires threshold < U32_SPACE && c.Remote? && !IsTransientFailure(c.outcome)
    ensures Counters(h + [c], threshold, cooldown, 0, 0)
  {
    HistoryStep(h, c);
  }

  lemma AfterFailure(h: seq<Call>, c: Call, threshold: nat, cooldown: Seconds, failures: nat, openUntil: Seconds)
    requires threshold < U32_SPACE && Counters(h, threshold, cooldown, failures, openUntil)
    requires c.Remote? && IsTransientFailure(c.outcome)
    ensures threshold == 0 ==> Counters(h + [c], threshold, cooldown, failures, openUntil)
    ensures threshold > 0 ==> Counters(h + [c], threshold, cooldown, BumpFailures(failures),
      if BumpFailures(failures) >= threshold then SaturatingAdd(c.start, cooldown) else openUntil)
  {
    HistoryStep(h, c);
    BumpIsModular(TrailingFailures(h));
    if threshold > 0 {
      OpenUntilStep(h, c, threshold, cooldown);
    }
  }

  // ----- what the breaker is meant to do, and exactly when it does

  // Closed below the threshold, otherwise open for the cooldown after the last failed call began.
  ghost function IntendedOpenUntil(h: seq<Call>, threshold: nat, cooldown: Seconds): Seconds {
    if threshold > 0 && TrailingFailures(h) >= threshold then SaturatingAdd(LastRemoteStart(h), cooldown) else 0
  }

  lemma {:induction false} LastFailureIsLastRemote(h: seq<Call>)
    requires TrailingFailures(h) >= 1
    ensures StartOfFailure(h, TrailingFailures(h)) == LastRemoteStart(h)
    decreases |h|
  {
    if h[|h| - 1].Skipped? {
      LastFailureIsLastRemote(h[..|h| - 1]);
    }
  }

  // After a wrap the counter reads below the threshold again.
  predicate Forgets(n: nat, threshold: nat) { n >= U32_SPACE && n % U32_SPACE < threshold }

  // The breaker is as intended unless the counter has wrapped to a reading below the threshold,
  // and the last call and the last one before the wrap give different times.
  lemma IntendedExactly(h: seq<Call>, threshold: nat, cooldown: Seconds)
    requires threshold < U32_SPACE
    ensures var n := TrailingFailures(h);
      OpenUntil(h, threshold, cooldown) == IntendedOpenUntil(h, threshold, cooldown) <==>
        (Forgets(n, threshold) ==>
          SaturatingAdd(StartOfFailure(h, n - n % U32_SPACE - 1), cooldown)
          == SaturatingAdd(LastRemoteStart(h), cooldown))
  {
    if TrailingFailures(h) >= 1 {
      LastFailureIsLastRemote(h);
    }
  }

  // No failure that leaves the counter below the threshold after a wrap renews the open period.
  lemma {:induction false} WrapForgetsFailures(h: seq<Call>, c: Call, threshold: nat, cooldown: Seconds)
    requires threshold < U32_SPACE && c.Remote? && IsTransientFailure(c.outcome)
    requires Forgets(TrailingFailures(h + [c]), threshold)
    ensures OpenUntil(h + [c], threshold, cooldown) == OpenUntil(h, threshold, cooldown)
    ensures IntendedOpenUntil(h + [c], threshold, cooldown) == SaturatingAdd(c.start, cooldown)
  {
    HistoryStep(h, c);
    OpenUntilStep(h, c, threshold, cooldown);
  }

  // What a call makes of the two counters: a skipped one leaves them, an answer clears them, and
  // a network error or a status of the 500s counts.
  ghost predicate BreakerMoved(failures: nat, until: Seconds, failures': nat, until': Seconds,
                               threshold: nat, cooldown: Seconds, now: Seconds, outcome: HttpOutcome) {
    if until > now then failures' == failures && until' == until
    else if outcome.Response? && !(500 <= outcome.status <= 599) then failures' == 0 && until' == 0
    else FailureCounted(failures, until, failures', until', threshold, cooldown, now)
  }

  // The count is of 32 bits; at the threshold it opens the breaker for the cooldown, to the last
  // second of 64 bits at most. Threshold 0 never counts.
  ghost predicate FailureCounted(failures: nat, until: Seconds, failures': nat, until': Seconds,
                                 threshold: nat, cooldown: Seconds, now: Seconds) {
    if threshold == 0 then failures' == failures && until' == until
    else
      && failures' == (if failures == 0xFFFF_FFFF then 0 else failures + 1)
      && (if failures' < threshold then until' == until
          else if now + cooldown > 0x7FFF_FFFF_FFFF_FFFF then until' == 0x7FFF_FFFF_FFFF_FFFF
          else if now + cooldown < -0x8000_0000_0000_0000 then until' == -0x8000_0000_0000_0000
          else until' == now + cooldown)
  }

  class HttpOutboxPublisher {
    const failureThreshold: nat
    const cooldownSeconds: Seconds
    var consecutiveFailures: nat
    var circuitOpenUntil: Seconds
    ghost var history: seq<Call>

    ghost predicate Valid()
      reads this
    {
      && failureThreshold < U32_SPACE
      && Counters(history, failureThreshold, cooldownSeconds, consecutiveFailures, circuitOpenUntil)
      && Produced(history, failureThreshold, cooldownSeconds)
    }

    constructor (failureThreshold: nat, cooldownSeconds: Seconds)
      requires failureThreshold < U32_SPACE
      ensures Valid() && history == []
    {
      this.failureThreshold := failureThreshold;
      this.cooldownSeconds := cooldownSeconds;
      consecutiveFailures, circuitOpenUntil := 0, 0;
      history := [];
    }

    predicate BreakerOpen(now: Seconds)
      reads this
    {
      circuitOpenUntil > now
    }

    method RecordSuccess()
      modifies this`consecutiveFailures, this`circuitOpenUntil
      ensures consecutiveFailures == 0 && circuitOpenUntil == 0
    {
      consecutiveFailures := 0;
      circuitOpenUntil := 0;
    }

    method RecordTransientFailure(now: Seconds)
      requires consecutiveFailures < U32_SPACE
      modifies this`consecutiveFailures, this`circuitOpenUntil
      ensures FailureCounted(old(consecutiveFailures), old(circuitOpenUntil), consecutiveFailures, circuitOpenUntil,
                             failureThreshold, cooldownSeconds, now)
      ensures failureThreshold == 0 ==>
        consecutiveFailures == old(consecutiveFailures) && circuitOpenUntil == old(circuitOpenUntil)
      ensures failureThreshold > 0 ==> consecutiveFailures == BumpFailures(old(consecutiveFailures))
      ensures failureThreshold > 0 && consecutiveFailures >= failureThreshold ==>
        circuitOpenUntil == SaturatingAdd(now, cooldownSeconds)
      ensures failureThreshold > 0 && consecutiveFailures < failureThreshold ==>
        circuitOpenUntil == old(circuitOpenUntil)
    {
      if failureThreshold == 0 {
        return;
      }
      consecutiveFailures := BumpFailures(consecutiveFailures);
      if consecutiveFailures >= failureThreshold {
        circuitOpenUntil := SaturatingAdd(now, cooldownSeconds);
      }
    }

    // One publish call. The request, if one is sent, meets the given outcome.
    method PublishIssueCreated(now: Seconds, outcome: HttpOutcome) returns (r: PublishResult)
      requires Valid()
      modifies this
      ensures Valid()
      // A request goes out exactly when the open period is over.
      ensures history == old(history) + [if old(circuitOpenUntil) > now then Skipped(now) else Remote(now, outcome)]
      ensures r == Ok <==> old(circuitOpenUntil) <= now && outcome.Response? && 200 <= outcome.status <= 299
      ensures r == Err(TransientError) <==>
        old(circuitOpenUntil) > now || outcome.NetworkError? || 500 <= outcome.status <= 599
      ensures BreakerMoved(old(consecutiveFailures), old(circuitOpenUntil), consecutiveFailures, circuitOpenUntil,
                           failureThreshold, cooldownSeconds, now, outcome)
      ensures r == Ok || r == Err(TransientError) || r == Err(Permanent)
    {
      ghost var call := if BreakerOpen(now) then Skipped(now) else Remote(now, outcome);
      ghost var before := history;
      ProducedStep(history, call, failureThreshold, cooldownSeconds);
      if BreakerOpen(now) {
        AfterSkip(history, call, failureThreshold, cooldownSeconds, consecutiveFailures, circuitOpenUntil);
        r := Err(TransientError);
      } else if outcome.NetworkError? {
        AfterFailure(history, call, failureThreshold, cooldownSeconds, consecutiveFailures, circuitOpenUntil);
        RecordTransientFailure(now);
        r := Err(TransientError);
      } else if 200 <= outcome.status < 300 {
        AfterAnswer(history, call, failureThreshold, cooldownSeconds);
        RecordSuccess();
        r := Ok;
      } else if 500 <= outcome.status < 600 {
        AfterFailure(history, call, failureThreshold, cooldownSeconds, consecutiveFailures, circuitOpenUntil);
        RecordTransientFailure(now);
        r := Err(TransientError);
      } else {
        AfterAnswer(history, call, failureThreshold, cooldownSeconds);
        RecordSuccess();
        r := Err(Permanent);
      }
      history := before + [call];
    }
  }

  // ----- the rate bound

  // The requests among the calls from the i-th up to the j-th.
  ghost function RemoteCalls(h: seq<Call>, i: nat, j: nat): nat
    requires i <= j <= |h|
    decreases j
  {
    if i == j then 0 else RemoteCalls(h, i, j - 1) + (if h[j - 1].Remote? then 1 else 0)
  }

  // A stretch of the history inside [from, from + length], with every request failing.
  ghost predicate FailingStretch(h: seq<Call>, i: nat, j: nat, from: Seconds, length: Seconds) {
    && i <= j <= |h|
    && forall k :: i <= k < j ==>
         && from <= h[k].start <= from + length
         && (h[k].Remote? ==> IsTransientFailure(h[k].outcome))
  }

  // Of the k failures after the n-th, those that take the counter to the threshold or more.
  ghost function Openings(n: nat, k: nat, threshold: nat): (r: nat)
    ensures r <= k
  {
    if k == 0 then 0 else Openings(n, k - 1, threshold) + (if (n + k) % U32_SPACE >= threshold then 1 else 0)
  }

  // The times the counter wraps from the n-th failure to the (n + k)-th.
  function Wraps(n: nat, k: nat): nat {
    WrapsGrow(n, k);
    (n + k) / U32_SPACE - n / U32_SPACE
  }

  lemma WrapsGrow(n: nat, k: nat)
    ensures n / U32_SPACE <= (n + k) / U32_SPACE
  {
  }

  ghost function Multiple(n: nat, d: int): int { if n == 0 then 0 else Multiple(n - 1, d) + d }

  lemma {:induction false} MultipleIsProduct(n: nat, d: int)
    ensures Multiple(n, d) == n * d
    decreases n
  {
    if n > 0 {
      MultipleIsProduct(n - 1, d);
      assert n * d == (n - 1) * d + d;
    }
  }

  // Below the threshold the counter reads at most threshold - 1 times before the first wrap,
  // and threshold times after each.
  lemma {:induction false} FewBelowThreshold(n: nat, k: nat, threshold: nat)
    requires 1 <= threshold < U32_SPACE
    ensures var reading := (n + k) % U32_SPACE;
      k - Openings(n, k, threshold)
        <= Multiple(Wraps(n, k), threshold) + (if reading < threshold then reading else threshold - 1)
    decreases k
  {
    if k > 0 {
      FewBelowThreshold(n, k - 1, threshold);
      if (n + k) % U32_SPACE == 0 {
        assert Wraps(n, k) == Wraps(n, k - 1) + 1;
      } else {
        assert Wraps(n, k) == Wraps(n, k - 1);
      }
    }
  }

  // After the openings of the stretch so far, the last of them began no earlier than their
  // pace allows.
  ghost predicate Paced(
    h: seq<Call>, n: nat, k: nat, threshold: nat, cooldown: Seconds, from: Seconds, length: Seconds)
    requires threshold < U32_SPACE
  {
    && TrailingFailures(h) == n + k
    && (Openings(n, k, threshold) > 0 ==>
          var m := LastOpening(n + k, threshold);
          && m > n
          && from + Multiple(Openings(n, k, threshold) - 1, cooldown) <= StartOfFailure(h, m) <= from + length)
  }

  lemma {:induction false} PacedSkip(
    h: seq<Call>, c: Call, n: nat, k: nat, threshold: nat, cooldown: Seconds, from: Seconds, length: Seconds)
    requires threshold < U32_SPACE && c.Skipped?
    requires Paced(h, n, k, threshold, cooldown, from, length)
    ensures Paced(h + [c], n, k, threshold, cooldown, from, length)
  {
    HistoryStep(h, c);
    if Openings(n, k, threshold) > 0 {
      StartStep(h, c, LastOpening(n + k, threshold));
    }
  }

  lemma {:induction false} PacedFailure(
    h: seq<Call>, c: Call, n: nat, k: nat, threshold: nat, cooldown: Seconds, from: Seconds, length: Seconds)
    requires 1 <= threshold < U32_SPACE && cooldown >= 1
    requires c.Remote? && IsTransientFailure(c.outcome) && from <= c.start <= from + length
    requires OpenUntil(h, threshold, cooldown) <= c.start
    requires I64_MIN <= from && from + length + cooldown <= I64_MAX
    requires Paced(h, n, k, threshold, cooldown, from, length)
    ensures Paced(h + [c], n, k + 1, threshold, cooldown, from, length)
  {
    var times, m := Openings(n, k, threshold), LastOpening(n + k, threshold);
    HistoryStep(h, c);
    OpeningStep(n + k, threshold);
    if (n + k + 1) % U32_SPACE >= threshold {
      StartStep(h, c, n + k + 1);
      if times > 0 {
        assert StartOfFailure(h, m) + cooldown <= c.start;
      }
    } else if times > 0 {
      StartStep(h, c, m);
    }
  }

  lemma {:induction false} PacedCall(
    h: seq<Call>, j: nat, n: nat, k: nat, threshold: nat, cooldown: Seconds, from: Seconds, length: Seconds)
    requires 1 <= threshold < U32_SPACE && cooldown >= 1 && Produced(h, threshold, cooldown)
    requires 1 <= j <= |h| && from <= h[j - 1].start <= from + length
    requires h[j - 1].Remote? ==> IsTransientFailure(h[j - 1].outcome)
    requires I64_MIN <= from && from + length + cooldown <= I64_MAX
    requires Paced(h[..j - 1], n, k, threshold, cooldown, from, length)
    ensures Paced(h[..j], n, k + (if h[j - 1].Remote? then 1 else 0), threshold, cooldown, from, length)
  {
    var before, c := h[..j - 1], h[j - 1];
    assert h[..j] == before + [c];
    if c.Skipped? {
      PacedSkip(before, c, n, k, threshold, cooldown, from, length);
    } else {
      PacedFailure(before, c, n, k, threshold, cooldown, from, length);
    }
  }

  lemma {:induction false} StretchPaces(
    h: seq<Call>, i: nat, j: nat, threshold: nat, cooldown: Seconds, from: Seconds, length: Seconds)
    requires 1 <= threshold < U32_SPACE && cooldown >= 1 && Produced(h, threshold, cooldown)
    requires FailingStretch(h, i, j, from, length)
    requires I64_MIN <= from && from + length + cooldown <= I64_MAX
    ensures Paced(h[..j], TrailingFailures(h[..i]), RemoteCalls(h, i, j), threshold, cooldown, from, length)
    decreases j
  {
    if i < j {
      StretchPaces(h, i, j - 1, threshold, cooldown, from, length);
      PacedCall(h, j, TrailingFailures(h[..i]), RemoteCalls(h, i, j - 1), threshold, cooldown, from, length);
    }
  }

  lemma AtMostQuotient(n: int, d: int, m: int)
    requires d >= 1 && n * d <= m
    ensures n <= m / d
  {
    MultiplesAreOrdered(m / d + 1, n, d);
  }

  lemma MultiplesAreOrdered(a: int, b: int, d: int)
    requires d >= 1
    ensures a <= b ==> a * d <= b * d
  {
    assert b * d - a * d == (b - a) * d;
  }

  // A request that goes out comes a cooldown after the last opening of the stretch.
  lemma {:induction false} PaceBound(
    h: seq<Call>, n: nat, k: nat, threshold: nat, cooldown: Seconds, from: Seconds, length: Seconds, now: Seconds)
    requires 1 <= threshold < U32_SPACE && cooldown >= 1 && from <= now <= from + length
    requires I64_MIN <= from && from + length + cooldown <= I64_MAX
    requires Paced(h, n, k, threshold, cooldown, from, length) && OpenUntil(h, threshold, cooldown) <= now
    ensures Multiple(Openings(n, k, threshold), cooldown) <= length
  {
    if Openings(n, k, threshold) > 0 {
      assert StartOfFailure(h, LastOpening(n + k, threshold)) + cooldown <= now;
    }
  }

  lemma BelowOrOpening(n: nat, k: nat, threshold: nat)
    requires 1 <= threshold < U32_SPACE
    ensures k + 1 <= threshold + Multiple(Wraps(n, k), threshold) + Openings(n, k, threshold)
  {
    FewBelowThreshold(n, k, threshold);
  }

  lemma RequestWentOut(h: seq<Call>, i: nat, j: nat, threshold: nat, cooldown: Seconds, from: Seconds, length: Seconds)
    requires threshold < U32_SPACE && Produced(h, threshold, cooldown)
    requires FailingStretch(h, i, j, from, length) && i < j && h[j - 1].Remote?
    ensures FailingStretch(h, i, j - 1, from, length)
    ensures from <= h[j - 1].start <= from + length && OpenUntil(h[..j - 1], threshold, cooldown) <= h[j - 1].start
  {
  }

  // The stretch holds k requests before one more, which goes out.
  lemma {:induction false} LastRequest(
    h: seq<Call>, i: nat, j: nat, n: nat, k: nat, threshold: nat, cooldown: Seconds, from: Seconds, length: Seconds)
    requires 1 <= threshold < U32_SPACE && cooldown >= 1 && Produced(h, threshold, cooldown)
    requires FailingStretch(h, i, j, from, length) && i < j && h[j - 1].Remote?
    requires I64_MIN <= from && from + length + cooldown <= I64_MAX
    requires n == TrailingFailures(h[..i]) && k == RemoteCalls(h, i, j - 1)
    ensures Multiple(Openings(n, k, threshold), cooldown) <= length
  {
    var before, now := h[..j - 1], h[j - 1].start;
    RequestWentOut(h, i, j, threshold, cooldown, from, length);
    StretchPaces(h, i, j - 1, threshold, cooldown, from, length);
    PaceBound(before, n, k, threshold, cooldown, from, length, now);
  }

  lemma {:induction false} RequestsInWindow(
    h: seq<Call>, i: nat, j: nat, n: nat, k: nat, threshold: nat, cooldown: Seconds, from: Seconds, length: Seconds)
    requires 1 <= threshold < U32_SPACE && cooldown >= 1 && Produced(h, threshold, cooldown)
    requires FailingStretch(h, i, j, from, length) && n == TrailingFailures(h[..i])
    requires I64_MIN <= from && from + length + cooldown <= I64_MAX && RemoteCalls(h, i, j) == k + 1
    ensures Multiple(Openings(n, k, threshold), cooldown) <= length
    decreases j
  {
    if h[j - 1].Skipped? {
      RequestsInWindow(h, i, j - 1, n, k, threshold, cooldown, from, length);
    } else {
      LastRequest(h, i, j, n, k, threshold, cooldown, from, length);
    }
  }

  // While the downstream keeps failing, a window of the given length sees at most
  // threshold + length / cooldown requests, in whatever state the breaker enters it, and the
  // threshold once more for each time the counter wraps before the last of them.
  lemma {:induction false} RemoteCallsAreBounded(
    h: seq<Call>, i: nat, j: nat, threshold: nat, cooldown: Seconds, from: Seconds, length: Seconds)
    requires 1 <= threshold < U32_SPACE && cooldown >= 1 && length >= 0 && Produced(h, threshold, cooldown)
    requires FailingStretch(h, i, j, from, length)
    requires I64_MIN <= from && from + length + cooldown <= I64_MAX
    ensures var k := RemoteCalls(h, i, j);
      k > 0 ==> k <= threshold + Wraps(TrailingFailures(h[..i]), k - 1) * threshold + length / cooldown
  {
    var n, k := TrailingFailures(h[..i]), RemoteCalls(h, i, j);
    if k > 0 {
      var openings := Openings(n, k - 1, threshold);
      RequestsInWindow(h, i, j, n, k - 1, threshold, cooldown, from, length);
      BelowOrOpening(n, k - 1, threshold);
      MultipleIsProduct(openings, cooldown);
      AtMostQuotient(openings, cooldown, length);
      MultipleIsProduct(Wraps(n, k - 1), threshold);
    }
  }

  // ----- exactly when the wrap does not matter

  // A window of a run that ends with at most this many failures in a row.
  ghost predicate Window(
    h: seq<Call>, i: nat, j: nat, from: Seconds, length: Seconds, failures: nat, threshold: nat, cooldown: Seconds)
    requires threshold < U32_SPACE
  {
    && Produced(h, threshold, cooldown) && FailingStretch(h, i, j, from, length) && length >= 0
    && I64_MIN <= from && from + length + cooldown <= I64_MAX
    && TrailingFailures(h[..i]) + RemoteCalls(h, i, j) <= failures
  }

  // The plain bound, for every run and every window.
  ghost predicate PlainBound(failures: nat, threshold: nat, cooldown: Seconds)
    requires threshold < U32_SPACE && cooldown >= 1
  {
    forall h, i, j, from, length :: Window(h, i, j, from, length, failures, threshold, cooldown) ==>
      RemoteCalls(h, i, j) <= threshold + length / cooldown
  }

  // The run that breaks it: the threshold at once, one request each cooldown up to the wrap,
  // and there two at once.
  function TickOf(k: nat, threshold: nat): nat {
    var number := if k < U32_SPACE then k + 1 else U32_SPACE;
    if number <= threshold then 0 else number - threshold
  }

  ghost function WrappingRun(n: nat, threshold: nat, cooldown: Seconds): (h: seq<Call>)
    ensures |h| == n
  {
    if n == 0 then []
    else WrappingRun(n - 1, threshold, cooldown) + [Remote(TickOf(n - 1, threshold) * cooldown, NetworkError)]
  }

  lemma {:induction false} WrappingPrefix(n: nat, k: nat, threshold: nat, cooldown: Seconds)
    requires k <= n
    ensures WrappingRun(n, threshold, cooldown)[..k] == WrappingRun(k, threshold, cooldown)
    ensures k < n ==> WrappingRun(n, threshold, cooldown)[k] == Remote(TickOf(k, threshold) * cooldown, NetworkError)
    decreases n
  {
    if k < n {
      WrappingPrefix(n - 1, k, threshold, cooldown);
    }
  }

  lemma {:induction false} WrappingFailures(n: nat, m: nat, threshold: nat, cooldown: Seconds)
    requires m <= n
    ensures TrailingFailures(WrappingRun(n, threshold, cooldown)) == n
    ensures m >= 1 ==> StartOfFailure(WrappingRun(n, threshold, cooldown), m) == TickOf(m - 1, threshold) * cooldown
    decreases n
  {
    if n > 0 {
      var tick := TickOf(n - 1, threshold) * cooldown;
      WrappingFailures(n - 1, if m < n then m else 0, threshold, cooldown);
      FailureAdded(WrappingRun(n - 1, threshold, cooldown), Remote(tick, NetworkError), m);
    }
  }

  lemma {:induction false} FailureAdded(h: seq<Call>, c: Call, m: nat)
    requires c.Remote? && IsTransientFailure(c.outcome) && m <= TrailingFailures(h) + 1
    ensures TrailingFailures(h + [c]) == TrailingFailures(h) + 1
    ensures m == TrailingFailures(h) + 1 ==> StartOfFailure(h + [c], m) == c.start
    ensures 1 <= m <= TrailingFailures(h) ==> StartOfFailure(h + [c], m) == StartOfFailure(h, m)
  {
    HistoryStep(h, c);
    if m >= 1 {
      StartStep(h, c, m);
    }
  }

  lemma {:induction false} AllRemote(h: seq<Call>, j: nat)
    requires j <= |h| && forall k :: 0 <= k < |h| ==> h[k].Remote?
    ensures RemoteCalls(h, 0, j) == j
    decreases j
  {
    if j > 0 {
      AllRemote(h, j - 1);
    }
  }

  lemma TickFollows(n: nat, threshold: nat, cooldown: Seconds)
    requires 1 <= threshold < U32_SPACE && n <= U32_SPACE && cooldown >= 1
    ensures var m := LastOpening(n, threshold);
      m > 0 ==> TickOf(m - 1, threshold) * cooldown + cooldown == TickOf(n, threshold) * cooldown
  {
    var m := LastOpening(n, threshold);
    if m > 0 {
      assert TickOf(n, threshold) == TickOf(m - 1, threshold) + 1;
    }
  }

  lemma TicksFit(k: nat, threshold: nat, cooldown: Seconds)
    requires 1 <= threshold < U32_SPACE && cooldown >= 1 && U32_SPACE * cooldown <= I64_MAX
    ensures 0 <= TickOf(k, threshold) * cooldown <= (U32_SPACE - threshold) * cooldown
    ensures (U32_SPACE - threshold) * cooldown + cooldown <= U32_SPACE * cooldown
  {
    MultiplesAreOrdered(TickOf(k, threshold), U32_SPACE - threshold, cooldown);
    MultiplesAreOrdered(0, TickOf(k, threshold), cooldown);
    MultiplesAreOrdered(1, threshold, cooldown);
  }

  lemma {:induction false} WrappingRunIsProduced(threshold: nat, cooldown: Seconds)
    requires 1 <= threshold < U32_SPACE && cooldown >= 1 && U32_SPACE * cooldown <= I64_MAX
    ensures Produced(WrappingRun(U32_SPACE + 1, threshold, cooldown), threshold, cooldown)
  {
    var h := WrappingRun(U32_SPACE + 1, threshold, cooldown);
    forall n | 0 <= n < |h| ensures h[n].Remote? && OpenUntil(h[..n], threshold, cooldown) <= h[n].start {
      WrappingPrefix(U32_SPACE + 1, n, threshold, cooldown);
      WrappingFailures(n, LastOpening(n, threshold), threshold, cooldown);
      TickFollows(n, threshold, cooldown);
      TicksFit(n, threshold, cooldown);
    }
  }

  lemma {:induction false} WrapBreaksTheBound(threshold: nat, cooldown: Seconds)
    requires 1 <= threshold < U32_SPACE && cooldown >= 1 && U32_SPACE * cooldown <= I64_MAX
    ensures var h, length := WrappingRun(U32_SPACE + 1, threshold, cooldown), (U32_SPACE - threshold) * cooldown;
      && Window(h, 0, |h|, 0, length, U32_SPACE + 1, threshold, cooldown)
      && RemoteCalls(h, 0, |h|) == threshold + length / cooldown + 1
  {
    var h, length := WrappingRun(U32_SPACE + 1, threshold, cooldown), (U32_SPACE - threshold) * cooldown;
    WrappingRunIsProduced(threshold, cooldown);
    assert h[..0] == [];
    QuotientOfMultiple(U32_SPACE - threshold, cooldown);
    TicksFit(0, threshold, cooldown);
    forall k | 0 <= k < |h| ensures 0 <= h[k].start <= length && h[k] == Remote(h[k].start, NetworkError) {
      WrappingPrefix(U32_SPACE + 1, k, threshold, cooldown);
      TicksFit(k, threshold, cooldown);
    }
    AllRemote(h, |h|);
  }

  lemma QuotientOfMultiple(n: nat, d: int)
    requires d >= 1
    ensures n * d / d == n
  {
    var q := n * d / d;
    AtMostQuotient(n, d, n * d);
    MultiplesAreOrdered(n + 1, q, d);
    assert (n + 1) * d == n * d + d && q * d <= n * d;
  }

  // The plain bound holds of every run exactly up to the 2^32-th failure in a row.
  lemma {:induction false} PlainBoundExactly(failures: nat, threshold: nat, cooldown: Seconds)
    requires 1 <= threshold < U32_SPACE && cooldown >= 1 && U32_SPACE * cooldown <= I64_MAX
    ensures PlainBound(failures, threshold, cooldown) <==> failures <= U32_SPACE
  {
    if failures <= U32_SPACE {
      forall h, i, j, from, length | Window(h, i, j, from, length, failures, threshold, cooldown)
        ensures RemoteCalls(h, i, j) <= threshold + length / cooldown
      {
        RemoteCallsAreBounded(h, i, j, threshold, cooldown, from, length);
        var n, k := TrailingFailures(h[..i]), RemoteCalls(h, i, j);
        if k > 0 {
          assert Wraps(n, k - 1) == 0;
        } else {
          AtMostQuotient(0, cooldown, length);
        }
      }
    } else {
      var h, length := WrappingRun(U32_SPACE + 1, threshold, cooldown), (U32_SPACE - threshold) * cooldown;
      WrapBreaksTheBound(threshold, cooldown);
      assert Window(h, 0, |h|, 0, length, failures, threshold, cooldown);
    }
  }

  // ----- retry backoff; the jitter is a random sample below its bound

  // In milliseconds.
  function RetryBackoffWithJitter(baseSeconds: Seconds, jitterMs: nat, sample: nat): (backoff: int)
    requires jitterMs > 0 ==> sample < jitterMs
    ensures 0 <= backoff
    ensures baseSeconds * 1000 <= backoff
    ensures var base := if baseSeconds > 0 then baseSeconds * 1000 else 0;
      if jitterMs == 0 then backoff == base
      else
        && base <= backoff < base + jitterMs
        && backoff - base == (if sample >= 0x8000_0000_0000_0000 then 0 else sample)
  {
    var base := (if baseSeconds > 0 then baseSeconds else 0) * 1000;
    if jitterMs == 0 then base
    else base + (if sample <= I64_MAX then sample else 0)
  }
}
