/** src/services/circuit-breaker.ts: the three-state breaker in front of the
    telephony provider, as a function of the events it was told about. */
module CircuitBreakerModel {
  datatype CbState = CLOSED | OPEN | HALF_OPEN

  /** Thresholds from the environment. */
  datatype Config = Config(failureThreshold: int, errorRateThreshold: real, windowMs: int, recoveryCount: int) {
    predicate Valid() {
      failureThreshold > 0 && 0.0 <= errorRateThreshold <= 1.0 && windowMs > 0 && recoveryCount > 0
    }
  }

  datatype Note =
    | NoError
    | Reported(message: string)
    | ProbeFailed
    | RecoveryInsufficient
    | ConsecutiveFailures(count: int)
    | ErrorRate(failures: int, total: int)

  /** The hash `cb:{provider}`; an absent field reads as its zero. */
  datatype Breaker = Breaker(
    state: CbState,
    openedAt: int,
    halfOpenSuccesses: int,
    halfOpenFailures: int,
    windowStart: int,
    windowCount: int,
    windowFailures: int,
    consecutiveFailures: int,
    healthSuccesses: int,
    lastError: Note)

  const FRESH := Breaker(CLOSED, 0, 0, 0, 0, 0, 0, 0, 0, NoError)

  /** A call of one of the public record methods, or an operator's override. */
  datatype Event =
    | Success(now: int)
    | Failure(now: int, message: string)
    | Request(now: int)
    | HealthSuccess
    | HealthFailure
    | Force(state: CbState)

  // ------------------------------------------------------------ transitions

  function ToOpen(b: Breaker, now: int, reason: Note): Breaker {
    b.(state := OPEN, openedAt := now, healthSuccesses := 0, halfOpenSuccesses := 0, halfOpenFailures := 0,
      lastError := reason)
  }

  function ToHalfOpen(b: Breaker): Breaker {
    b.(state := HALF_OPEN, halfOpenSuccesses := 0, halfOpenFailures := 0, consecutiveFailures := 0, windowStart := 0,
       windowCount := 0, windowFailures := 0)
  }

  function ToClosed(b: Breaker): Breaker {
    FRESH.(lastError := b.lastError)
  }

  predicate WindowOver(c: Config, b: Breaker, now: int) {
    b.windowStart == 0 || now - b.windowStart > c.windowMs
  }

  /** The sample joins the current error window or starts the next one. */
  function Sampled(c: Config, b: Breaker, now: int, failed: bool): Breaker {
    var one := if failed then 1 else 0;
    if WindowOver(c, b, now) then b.(windowStart := now, windowCount := 1, windowFailures := one)
    else b.(windowCount := b.windowCount + 1, windowFailures := b.windowFailures + one)
  }

  predicate RateExceeded(c: Config, failures: int, total: int) {
    total >= 10 && failures as real / total as real > c.errorRateThreshold
  }

  predicate Recovered(successes: int, total: int) {
    total != 0 && successes as real / total as real > 0.95
  }

  function Step(c: Config, b: Breaker, e: Event): Breaker {
    match e
    case Success(now) =>
      if b.state == CLOSED then b.(consecutiveFailures := 0)
      else if b.state == OPEN then b
      else
        var probed := b.(halfOpenSuccesses := b.halfOpenSuccesses + 1);
        var total := probed.halfOpenSuccesses + probed.halfOpenFailures;
        if total < c.recoveryCount then probed
        else if Recovered(probed.halfOpenSuccesses, total) then ToClosed(probed)
        else ToOpen(probed, now, RecoveryInsufficient)
    case Failure(now, message) =>
      if b.state == HALF_OPEN then ToOpen(b, now, if message == "" then ProbeFailed else Reported(message))
      else if b.state == OPEN then b.(lastError := Reported(message))
      else
        var failed := b.(consecutiveFailures := b.consecutiveFailures + 1, lastError := Reported(message));
        var counted := Sampled(c, failed, now, true);
        if counted.consecutiveFailures >= c.failureThreshold
        then ToOpen(counted, now, ConsecutiveFailures(counted.consecutiveFailures))
        else if RateExceeded(c, counted.windowFailures, counted.windowCount)
        then ToOpen(counted, now, ErrorRate(counted.windowFailures, counted.windowCount))
        else counted
    case Request(now) => if b.state == CLOSED then Sampled(c, b, now, false) else b
    case HealthSuccess =>
      if b.state != OPEN then b.(healthSuccesses := 0)
      else
        var counted := b.(healthSuccesses := b.healthSuccesses + 1);
        if counted.healthSuccesses >= c.recoveryCount then ToHalfOpen(counted) else counted
    case HealthFailure => b.(healthSuccesses := 0)
    case Force(state) => b.(state := state)
  }

  // ------------------------------------------------ histories and references

  function Replay(c: Config, h: seq<Event>): Breaker {
    if h == [] then FRESH else Step(c, Replay(c, h[..|h| - 1]), h[|h| - 1])
  }

  /** The events since the breaker entered the state it is in. */
  function Epoch(c: Config, h: seq<Event>): seq<Event> {
    if h == [] then []
    else if Replay(c, h).state != Replay(c, h[..|h| - 1]).state then []
    else Epoch(c, h[..|h| - 1]) + [h[|h| - 1]]
  }

  predicate IsSample(e: Event) {
    e.Failure? || e.Request?
  }

  function CountFailures(h: seq<Event>): nat {
    if h == [] then 0 else CountFailures(h[..|h| - 1]) + if h[|h| - 1].Failure? then 1 else 0
  }

  function CountSuccesses(h: seq<Event>): nat {
    if h == [] then 0 else CountSuccesses(h[..|h| - 1]) + if h[|h| - 1].Success? then 1 else 0
  }

  function CountHealthSuccesses(h: seq<Event>): nat {
    if h == [] then 0 else CountHealthSuccesses(h[..|h| - 1]) + if h[|h| - 1].HealthSuccess? then 1 else 0
  }

  /** The part of the history after its last success. */
  function SinceSuccess(h: seq<Event>): seq<Event> {
    if h == [] || h[|h| - 1].Success? then [] else SinceSuccess(h[..|h| - 1]) + [h[|h| - 1]]
  }

  /** The part of the history after its last failed health check. */
  function SinceHealthFailure(h: seq<Event>): seq<Event> {
    if h == [] || h[|h| - 1].HealthFailure? then [] else SinceHealthFailure(h[..|h| - 1]) + [h[|h| - 1]]
  }

  /** The samples of the current error window: those from its anchor on, which
      is the first sample more than `windowMs` after the anchor before it. */
  function Window(c: Config, h: seq<Event>): (w: seq<Event>)
    ensures forall i :: 0 <= i < |w| ==> IsSample(w[i])
  {
    if h == [] then []
    else
      var w, e := Window(c, h[..|h| - 1]), h[|h| - 1];
      if !IsSample(e) then w
      else if w == [] || e.now - w[0].now > c.windowMs then [e]
      else w + [e]
  }

  /** A clock that has started, and no operator override. */
  predicate Natural(h: seq<Event>) {
    forall i :: 0 <= i < |h| ==> !h[i].Force? && (IsSample(h[i]) ==> h[i].now > 0)
  }

  /** The window counters of a closed breaker. */
  predicate WindowCounts(c: Config, b: Breaker, h: seq<Event>) {
    && b.windowCount == |Window(c, h)|
    && b.windowFailures == CountFailures(Window(c, h))
    && (if Window(c, h) == [] then b.windowStart == 0 else b.windowStart == Window(c, h)[0].now > 0)
  }

  /** The counters of each state count exactly these events of its epoch. */
  predicate CountersCount(c: Config, b: Breaker, h: seq<Event>) {
    match b.state
    case CLOSED =>
      && b.consecutiveFailures == CountFailures(SinceSuccess(h))
      && WindowCounts(c, b, h)
    case OPEN => b.healthSuccesses == CountHealthSuccesses(SinceHealthFailure(h)) < c.recoveryCount
    case HALF_OPEN => b.halfOpenSuccesses == CountSuccesses(h) < c.recoveryCount && CountFailures(h) == 0
  }

  /** Of at least ten samples, more than the tolerated part are failures. */
  predicate TooManyFail(c: Config, samples: seq<Event>) {
    |samples| >= 10 && CountFailures(samples) as real > c.errorRateThreshold * |samples| as real
  }

  /** The documented reasons to trip, on the events since closing. */
  predicate Trips(c: Config, h: seq<Event>) {
    && h != [] && h[|h| - 1].Failure?
    && (CountFailures(SinceSuccess(h)) >= c.failureThreshold
        || TooManyFail(c, Window(c, h)))
  }

  // --------------------------------------------------------------- theorems

  /** In every history, forced or not, no failure is ever on the half-open
      count between two operations. */
  lemma {:induction false} HalfOpenFailuresAreNeverCounted(c: Config, h: seq<Event>)
    ensures Replay(c, h).halfOpenFailures == 0 && Replay(c, h).halfOpenSuccesses >= 0
  {
    if h != [] {
      HalfOpenFailuresAreNeverCounted(c, h[..|h| - 1]);
    }
  }

  lemma Ratio(x: real)
    requires x != 0.0
    ensures x / x == 1.0
  {
  }

  lemma AllSucceeded(n: int)
    requires n > 0
    ensures Recovered(n, n)
  {
    Ratio(n as real);
  }

  /** A success never re-opens a half-open breaker: the branch for an
      insufficient recovery rate is dead. */
  lemma RecoveryNeverFallsShort(c: Config, h: seq<Event>, now: int)
    requires c.Valid() && Replay(c, h).state == HALF_OPEN
    ensures Step(c, Replay(c, h), Success(now)).state != OPEN
  {
    HalfOpenFailuresAreNeverCounted(c, h);
    AllSucceeded(Replay(c, h).halfOpenSuccesses + 1);
  }

  lemma SnocParts(c: Config, h: seq<Event>, e: Event)
    ensures (h + [e])[..|h|] == h && (h + [e])[|h|] == e
  {
  }

  /** The state after one more event, told from the epoch's events alone. */
  function Next(c: Config, state: CbState, h: seq<Event>): CbState
    requires h != []
  {
    var e := h[|h| - 1];
    match state
    case CLOSED => if Trips(c, h) then OPEN else CLOSED
    case OPEN =>
      if e.HealthSuccess? && CountHealthSuccesses(SinceHealthFailure(h)) >= c.recoveryCount then HALF_OPEN else OPEN
    case HALF_OPEN =>
      if e.Failure? then OPEN
      else if e.Success? && CountSuccesses(h) >= c.recoveryCount then CLOSED
      else HALF_OPEN
  }

  predicate StepOk(c: Config, b: Breaker, h: seq<Event>, e: Event) {
    var after := Step(c, b, e);
    && after.state == Next(c, b.state, h + [e])
    && CountersCount(c, after, if after.state == b.state then h + [e] else [])
  }

  lemma OneMoreCounted(h: seq<Event>, e: Event)
    ensures CountFailures(h + [e]) == CountFailures(h) + if e.Failure? then 1 else 0
    ensures CountFailures([e]) == if e.Failure? then 1 else 0
  {
    assert (h + [e])[..|h|] == h;
    assert [e][..0] == [];
  }

  lemma RunGrows(h: seq<Event>, e: Event)
    ensures CountFailures(SinceSuccess(h + [e])) ==
            if e.Success? then 0 else CountFailures(SinceSuccess(h)) + if e.Failure? then 1 else 0
  {
    assert (h + [e])[..|h|] == h;
    OneMoreCounted(SinceSuccess(h), e);
  }

  lemma WindowGrows(c: Config, h: seq<Event>, e: Event)
    requires IsSample(e)
    ensures var w := Window(c, h);
            Window(c, h + [e]) == if w == [] || e.now - w[0].now > c.windowMs then [e] else w + [e]
  {
    SnocParts(c, h, e);
  }

  lemma SampleGrowsWindow(c: Config, b: Breaker, h: seq<Event>, e: Event)
    requires WindowCounts(c, b, h) && IsSample(e) && e.now > 0
    ensures WindowCounts(c, Sampled(c, b, e.now, e.Failure?), h + [e])
  {
    WindowGrows(c, h, e);
    OneMoreCounted(Window(c, h), e);
  }

  lemma IdleWindow(c: Config, h: seq<Event>, e: Event)
    requires !IsSample(e)
    ensures Window(c, h + [e]) == Window(c, h)
  {
    SnocParts(c, h, e);
  }

  lemma ClosedFailure(c: Config, b: Breaker, now: int, message: string)
    requires b.state == CLOSED
    ensures var sampled, after := Sampled(c, b, now, true), Step(c, b, Failure(now, message));
            if b.consecutiveFailures + 1 >= c.failureThreshold
               || RateExceeded(c, sampled.windowFailures, sampled.windowCount)
            then
              && after.state == OPEN && after.healthSuccesses == 0 && after.openedAt == now
              && after.lastError ==
                   if b.consecutiveFailures + 1 >= c.failureThreshold
                   then ConsecutiveFailures(b.consecutiveFailures + 1)
                   else ErrorRate(sampled.windowFailures, sampled.windowCount)
            else after == sampled.(consecutiveFailures := b.consecutiveFailures + 1, lastError := Reported(message))
  {
  }

  lemma RateOfTotal(part: real, total: real, rate: real)
    requires total > 0.0
    ensures part / total > rate <==> part > rate * total
  {
    var quotient := part / total;
    assert part == quotient * total;
    if quotient > rate {
      assert (quotient - rate) * total > 0.0;
    } else {
      assert (rate - quotient) * total >= 0.0;
    }
  }

  /** The rate the code computes is too high exactly when too many fail. */
  lemma ExceedsExactly(c: Config, samples: seq<Event>)
    ensures RateExceeded(c, CountFailures(samples), |samples|) <==> TooManyFail(c, samples)
  {
    if |samples| >= 10 {
      RateOfTotal(CountFailures(samples) as real, |samples| as real, c.errorRateThreshold);
    }
  }

  lemma ClosedSample(c: Config, b: Breaker, h: seq<Event>, e: Event)
    requires c.Valid() && b.state == CLOSED && IsSample(e)
    requires CountFailures(SinceSuccess(h + [e])) == b.consecutiveFailures + if e.Failure? then 1 else 0
    requires WindowCounts(c, Sampled(c, b, e.now, e.Failure?), h + [e])
    ensures StepOk(c, b, h, e)
  {
    var g := h + [e];
    assert g != [] && g[|g| - 1] == e;
    if e.Failure? {
      ClosedFailure(c, b, e.now, e.message);
      ExceedsExactly(c, Window(c, g));
      assert Trips(c, g) <==> Step(c, b, e).state == OPEN;
    } else {
      assert !Trips(c, g);
      assert Step(c, b, e) == Sampled(c, b, e.now, false);
    }
  }

  lemma ClosedStepRefines(c: Config, b: Breaker, h: seq<Event>, e: Event)
    requires c.Valid() && CountersCount(c, b, h) && b.state == CLOSED
    requires !e.Force? && (IsSample(e) ==> e.now > 0)
    ensures StepOk(c, b, h, e)
  {
    RunGrows(h, e);
    assert WindowCounts(c, b, h);
    if IsSample(e) {
      SampleGrowsWindow(c, b, h, e);
      ClosedSample(c, b, h, e);
    } else {
      IdleWindow(c, h, e);
    }
  }

  lemma HealthRunGrows(h: seq<Event>, e: Event)
    requires !e.HealthFailure?
    ensures CountHealthSuccesses(SinceHealthFailure(h + [e]))
         == CountHealthSuccesses(SinceHealthFailure(h)) + if e.HealthSuccess? then 1 else 0
    ensures (h + [e])[|h|] == e
  {
    var since := SinceHealthFailure(h);
    assert (h + [e])[..|h|] == h;
    assert (since + [e])[..|since|] == since;
  }

  lemma OpenStepRefines(c: Config, b: Breaker, h: seq<Event>, e: Event)
    requires c.Valid() && CountersCount(c, b, h) && b.state == OPEN
    requires !e.Force? && (IsSample(e) ==> e.now > 0)
    ensures StepOk(c, b, h, e)
  {
    if e.HealthFailure? {
      SnocParts(c, h, e);
    } else {
      HealthRunGrows(h, e);
    }
  }

  lemma HalfOpenStepRefines(c: Config, b: Breaker, h: seq<Event>, e: Event)
    requires c.Valid() && CountersCount(c, b, h) && b.state == HALF_OPEN && b.halfOpenFailures == 0
    requires !e.Force? && (IsSample(e) ==> e.now > 0)
    ensures StepOk(c, b, h, e)
  {
    SnocParts(c, h, e);
    AllSucceeded(b.halfOpenSuccesses + 1);
  }

  lemma StepRefines(c: Config, b: Breaker, h: seq<Event>, e: Event)
    requires c.Valid() && CountersCount(c, b, h) && b.halfOpenFailures == 0
    requires !e.Force? && (IsSample(e) ==> e.now > 0)
    ensures StepOk(c, b, h, e)
  {
    match b.state
    case CLOSED => ClosedStepRefines(c, b, h, e);
    case OPEN => OpenStepRefines(c, b, h, e);
    case HALF_OPEN => HalfOpenStepRefines(c, b, h, e);
  }

  lemma {:induction false} CountersRefineHistory(c: Config, h: seq<Event>)
    requires c.Valid() && Natural(h)
    ensures CountersCount(c, Replay(c, h), Epoch(c, h))
  {
    if h != [] {
      var g, e := h[..|h| - 1], h[|h| - 1];
      CountersRefineHistory(c, g);
      HalfOpenFailuresAreNeverCounted(c, g);
      StepRefines(c, Replay(c, g), Epoch(c, g), e);
    }
  }

  lemma PrefixIsNatural(h: seq<Event>, e: Event)
    requires Natural(h + [e])
    ensures Natural(h)
  {
    forall i | 0 <= i < |h| ensures !h[i].Force? && (IsSample(h[i]) ==> h[i].now > 0) {
      assert (h + [e])[i] == h[i];
    }
  }

  /** For every history without an override, the breaker leaves its state exactly
      at the first event that its epoch's own counts call for. */
  lemma ChangesExactlyWhenDue(c: Config, h: seq<Event>, e: Event)
    requires c.Valid() && Natural(h + [e])
    ensures Replay(c, h + [e]).state == Next(c, Replay(c, h).state, Epoch(c, h) + [e])
  {
    SnocParts(c, h, e);
    PrefixIsNatural(h, e);
    CountersRefineHistory(c, h);
    HalfOpenFailuresAreNeverCounted(c, h);
    StepRefines(c, Replay(c, h), Epoch(c, h), e);
  }

  /** Without overrides, a closed breaker opens exactly at a failure that either
      makes the run of failures since the last success reach its threshold, or
      brings the failures in the current error window, of at least ten samples,
      above the tolerated part of them. */
  lemma OpensExactly(c: Config, h: seq<Event>, e: Event)
    requires c.Valid() && Natural(h + [e]) && Replay(c, h).state == CLOSED
    ensures var g := Epoch(c, h) + [e];
            Replay(c, h + [e]).state != CLOSED <==>
              e.Failure? && (CountFailures(SinceSuccess(g)) >= c.failureThreshold || TooManyFail(c, Window(c, g)))
  {
    var g := Epoch(c, h) + [e];
    ChangesExactlyWhenDue(c, h, e);
    assert g[|g| - 1] == e;
  }

  lemma SampledCounts(c: Config, b: Breaker, h: seq<Event>, now: int, message: string)
    requires b.state == CLOSED && now > 0 && CountersCount(c, b, h)
    ensures var sampled, g := Sampled(c, b, now, true), h + [Failure(now, message)];
            && b.consecutiveFailures + 1 == CountFailures(SinceSuccess(g))
            && sampled.windowFailures == CountFailures(Window(c, g)) && sampled.windowCount == |Window(c, g)|
  {
    RunGrows(h, Failure(now, message));
    SampleGrowsWindow(c, b, h, Failure(now, message));
  }

  lemma OpeningFields(c: Config, b: Breaker, now: int, message: string)
    requires b.state == CLOSED && Step(c, b, Failure(now, message)).state == OPEN
    ensures var after, sampled := Step(c, b, Failure(now, message)), Sampled(c, b, now, true);
            var run := b.consecutiveFailures + 1;
            && after.openedAt == now && after.healthSuccesses == 0
            && after.lastError == if run >= c.failureThreshold then ConsecutiveFailures(run)
                                  else ErrorRate(sampled.windowFailures, sampled.windowCount)
  {
    ClosedFailure(c, b, now, message);
  }

  lemma ClosedOpening(c: Config, b: Breaker, h: seq<Event>, now: int, message: string)
    requires b.state == CLOSED && now > 0 && CountersCount(c, b, h)
    requires Step(c, b, Failure(now, message)).state == OPEN
    ensures var after, g := Step(c, b, Failure(now, message)), h + [Failure(now, message)];
            && after.openedAt == now && after.healthSuccesses == 0
            && after.lastError ==
                 if CountFailures(SinceSuccess(g)) >= c.failureThreshold
                 then ConsecutiveFailures(CountFailures(SinceSuccess(g)))
                 else ErrorRate(CountFailures(Window(c, g)), |Window(c, g)|)
  {
    OpeningFields(c, b, now, message);
    SampledCounts(c, b, h, now, message);
  }

  /** An opening is stamped with its time and its reason, and both are kept until
      the next failure or change of state. */
  lemma OpeningIsStamped(c: Config, h: seq<Event>, e: Event)
    requires c.Valid() && Natural(h + [e]) && Replay(c, h).state != OPEN && Replay(c, h + [e]).state == OPEN
    ensures var before, after, g := Replay(c, h), Replay(c, h + [e]), Epoch(c, h) + [e];
            && e.Failure? && after.openedAt == e.now && after.healthSuccesses == 0
            && after.lastError ==
                 if before.state == HALF_OPEN then (if e.message == "" then ProbeFailed else Reported(e.message))
                 else if CountFailures(SinceSuccess(g)) >= c.failureThreshold
                 then ConsecutiveFailures(CountFailures(SinceSuccess(g)))
                 else ErrorRate(CountFailures(Window(c, g)), |Window(c, g)|)
  {
    SnocParts(c, h, e);
    PrefixIsNatural(h, e);
    CountersRefineHistory(c, h);
    HalfOpenFailuresAreNeverCounted(c, h);
    if Replay(c, h).state == CLOSED {
      OpensExactly(c, h, e);
      ClosedOpening(c, Replay(c, h), Epoch(c, h), e.now, e.message);
    } else {
      RecoveryNeverFallsShort(c, h, if e.Success? then e.now else 0);
    }
  }

  /** Health checks mean nothing to a breaker that is not open. */
  lemma HealthChecksOutsideOpen(c: Config, h: seq<Event>, e: Event)
    requires e.HealthSuccess? || e.HealthFailure?
    requires Replay(c, h).state != OPEN
    ensures Replay(c, h + [e]) == Replay(c, h).(healthSuccesses := 0)
  {
    SnocParts(c, h, e);
  }

  lemma OpenKeepsItsStamp(c: Config, h: seq<Event>, e: Event)
    requires Replay(c, h).state == OPEN && Replay(c, h + [e]).state == OPEN
    ensures Replay(c, h + [e]).openedAt == Replay(c, h).openedAt
    ensures Replay(c, h + [e]).lastError == if e.Failure? then Reported(e.message) else Replay(c, h).lastError
  {
    SnocParts(c, h, e);
  }

  /** A breaker that closes remembers nothing but the text of its last error. */
  lemma ClosingForgets(c: Config, b: Breaker, e: Event)
    requires !e.Force? && b.state != CLOSED && Step(c, b, e).state == CLOSED
    ensures Step(c, b, e) == FRESH.(lastError := b.lastError)
  {
  }

  function ReplayFrom(c: Config, b: Breaker, h: seq<Event>): Breaker {
    if h == [] then b else Step(c, ReplayFrom(c, b, h[..|h| - 1]), h[|h| - 1])
  }

  lemma NotesAreNotRead(c: Config, again: Breaker, b: Breaker, e: Event)
    requires again.(lastError := b.lastError) == b
    ensures Step(c, again, e).(lastError := Step(c, b, e).lastError) == Step(c, b, e)
  {
  }

  lemma {:induction false} ForgettingIsFresh(c: Config, note: Note, g: seq<Event>)
    ensures var again := ReplayFrom(c, FRESH.(lastError := note), g);
            again.(lastError := Replay(c, g).lastError) == Replay(c, g)
  {
    if g != [] {
      var f := g[..|g| - 1];
      ForgettingIsFresh(c, note, f);
      NotesAreNotRead(c, ReplayFrom(c, FRESH.(lastError := note), f), Replay(c, f), g[|g| - 1]);
    }
  }

  lemma ReplayOneMore(c: Config, h: seq<Event>, e: Event)
    ensures Replay(c, h + [e]) == Step(c, Replay(c, h), e)
  {
    SnocParts(c, h, e);
  }

  lemma {:induction false} ReplayGoesOn(c: Config, h: seq<Event>, g: seq<Event>)
    ensures Replay(c, h + g) == ReplayFrom(c, Replay(c, h), g)
  {
    if g == [] {
      assert h + g == h;
    } else {
      var f, e := g[..|g| - 1], g[|g| - 1];
      ReplayGoesOn(c, h, f);
      ReplayOneMore(c, h + f, e);
      assert h + g == (h + f) + [e];
    }
  }

  /** A breaker that closes of itself goes on, over every later sequence of events,
      overrides included, through the same states with the same counters as a
      fresh one. */
  lemma ClosedAgainIsFresh(c: Config, h: seq<Event>, e: Event, g: seq<Event>)
    requires !e.Force? && Replay(c, h).state != CLOSED && Replay(c, h + [e]).state == CLOSED
    ensures Replay(c, h + [e] + g).(lastError := Replay(c, g).lastError) == Replay(c, g)
  {
    SnocParts(c, h, e);
    ClosingForgets(c, Replay(c, h), e);
    ReplayGoesOn(c, h + [e], g);
    ForgettingIsFresh(c, Replay(c, h).lastError, g);
  }

  // ------------------------------------------------------------ the service

  /** The breaker object; `history` is everything it was told. */
  class CircuitBreaker {
    const config: Config
    var state: CbState
    var openedAt: int
    var halfOpenSuccesses: int
    var halfOpenFailures: int
    var windowStart: int
    var windowCount: int
    var windowFailures: int
    var consecutiveFailures: int
    var healthSuccesses: int
    var lastError: Note
    ghost var history: seq<Event>

    constructor (config: Config)
      requires config.Valid()
      ensures Valid() && history == [] && this.config == config
    {
      this.config := config;
      state, openedAt, lastError := CLOSED, 0, NoError;
      halfOpenSuccesses, halfOpenFailures := 0, 0;
      windowStart, windowCount, windowFailures := 0, 0, 0;
      consecutiveFailures, healthSuccesses := 0, 0;
      history := [];
    }

    function Hash(): Breaker
      reads this
    {
      Breaker(state, openedAt, halfOpenSuccesses, halfOpenFailures, windowStart, windowCount, windowFailures,
              consecutiveFailures, healthSuccesses, lastError)
    }

    ghost predicate Valid()
      reads this
    {
      config.Valid() && Hash() == Replay(config, history)
    }

    ghost method Log(e: Event)
      requires config.Valid() && Hash() == Step(config, Replay(config, history), e)
      modifies this`history
      ensures Valid() && history == old(history) + [e]
    {
      SnocParts(config, history, e);
      history := history + [e];
    }

    method TransitionToOpen(now: int, reason: Note)
      modifies this
      ensures Hash() == ToOpen(old(Hash()), now, reason) && history == old(history)
    {
      state, openedAt, lastError := OPEN, now, reason;
      healthSuccesses, halfOpenSuccesses, halfOpenFailures := 0, 0, 0;
    }

    method TransitionToHalfOpen()
      modifies this
      ensures Hash() == ToHalfOpen(old(Hash())) && history == old(history)
    {
      state := HALF_OPEN;
      halfOpenSuccesses, halfOpenFailures, consecutiveFailures := 0, 0, 0;
      windowStart, windowCount, windowFailures := 0, 0, 0;
    }

    method TransitionToClosed()
      modifies this
      ensures Hash() == ToClosed(old(Hash())) && history == old(history)
    {
      state, openedAt, consecutiveFailures := CLOSED, 0, 0;
      windowStart, windowCount, windowFailures := 0, 0, 0;
      healthSuccesses, halfOpenSuccesses, halfOpenFailures := 0, 0, 0;
    }

    method RecordSuccess(now: int)
      requires Valid()
      modifies this
      ensures Valid() && history == old(history) + [Success(now)]
    {
      ghost var b := Hash();
      if state == CLOSED {
        consecutiveFailures := 0;
      } else if state == HALF_OPEN {
        halfOpenSuccesses := halfOpenSuccesses + 1;
        var total := halfOpenSuccesses + halfOpenFailures;
        if total >= config.recoveryCount {
          ghost var probed := Hash();
          if Recovered(halfOpenSuccesses, total) {
            TransitionToClosed();
            assert Hash() == ToClosed(probed);
          } else {
            TransitionToOpen(now, RecoveryInsufficient);
            assert Hash() == ToOpen(probed, now, RecoveryInsufficient);
          }
        }
      }
      assert Hash() == Step(config, b, Success(now));
      Log(Success(now));
    }

    method RecordFailure(now: int, message: string)
      requires Valid()
      modifies this
      ensures Valid() && history == old(history) + [Failure(now, message)]
    {
      if state == HALF_OPEN {
        halfOpenFailures := halfOpenFailures + 1;
        TransitionToOpen(now, if message == "" then ProbeFailed else Reported(message));
      } else if state == OPEN {
        lastError := Reported(message);
      } else {
        consecutiveFailures := consecutiveFailures + 1;
        if windowStart == 0 || now - windowStart > config.windowMs {
          windowStart, windowCount, windowFailures := now, 1, 1;
        } else {
          windowCount := windowCount + 1;
          windowFailures := windowFailures + 1;
        }
        lastError := Reported(message);
        if consecutiveFailures >= config.failureThreshold {
          TransitionToOpen(now, ConsecutiveFailures(consecutiveFailures));
        } else if RateExceeded(config, windowFailures, windowCount) {
          TransitionToOpen(now, ErrorRate(windowFailures, windowCount));
        }
      }
      Log(Failure(now, message));
    }

    method RecordRequest(now: int)
      requires Valid()
      modifies this
      ensures Valid() && history == old(history) + [Request(now)]
    {
      if state == CLOSED {
        if windowStart == 0 || now - windowStart > config.windowMs {
          windowStart, windowCount, windowFailures := now, 1, 0;
        } else {
          windowCount := windowCount + 1;
        }
      }
      Log(Request(now));
    }

    method RecordHealthCheckSuccess()
      requires Valid()
      modifies this
      ensures Valid() && history == old(history) + [HealthSuccess]
    {
      if state != OPEN {
        healthSuccesses := 0;
      } else {
        healthSuccesses := healthSuccesses + 1;
        if healthSuccesses >= config.recoveryCount {
          TransitionToHalfOpen();
        }
      }
      Log(HealthSuccess);
    }

    method RecordHealthCheckFailure()
      requires Valid()
      modifies this
      ensures Valid() && history == old(history) + [HealthFailure]
    {
      healthSuccesses := 0;
      Log(HealthFailure);
    }

    method ForceState(to: CbState)
      requires Valid()
      modifies this
      ensures Valid() && history == old(history) + [Force(to)]
      ensures state == to && Hash() == old(Hash()).(state := to)
    {
      state := to;
      Log(Force(to));
    }
  }
}
