/** src/workers/cpaas-health-check.ts: the worker that probes the provider while
    the breaker is open, and what the way it reports failures does to recovery. */
module HealthCheckModel {
  import opened CircuitBreakerModel

  const PROBE_FAILED := "Health check probe failed"

  class CpaasHealthCheckWorker {
    const breaker: CircuitBreaker
    var inFlight: bool

    constructor (breaker: CircuitBreaker)
      ensures this.breaker == breaker && !inFlight
    {
      this.breaker, inFlight := breaker, false;
    }

    /** Only an open breaker is probed, and a failed probe is reported like the
        failure of a request. */
    method RunTick(passed: bool, now: int)
      requires breaker.Valid()
      modifies this, breaker
      ensures breaker.Valid() && inFlight == old(inFlight)
      ensures breaker.history == if old(inFlight) || old(breaker.state) != OPEN then old(breaker.history)
                                 else old(breaker.history)
                                      + [if passed then HealthSuccess else Failure(now, "Health check probe failed")]
    {
      if inFlight {
        return;
      }
      inFlight := true;
      if breaker.state == OPEN {
        if passed {
          breaker.RecordHealthCheckSuccess();
        } else {
          breaker.RecordFailure(now, PROBE_FAILED);
        }
      }
      inFlight := false;
    }
  }

  // ------------------------------------------- cumulative, not consecutive

  /** Nobody reported a failed check as one. */
  predicate NoReportedFailure(h: seq<Event>) {
    forall i :: 0 <= i < |h| ==> !h[i].HealthFailure?
  }

  lemma {:induction false} NothingIsForgotten(h: seq<Event>)
    requires NoReportedFailure(h)
    ensures SinceHealthFailure(h) == h
  {
    if h != [] {
      NothingIsForgotten(h[..|h| - 1]);
      assert h[..|h| - 1] + [h[|h| - 1]] == h;
    }
  }

  /** The recovery count of an open breaker is then of all the checks it passed
      since it opened, whatever came between them. */
  lemma WithoutReportedFailuresRecoveryIsCumulative(c: Config, h: seq<Event>)
    requires c.Valid() && Natural(h) && Replay(c, h).state == OPEN
    requires NoReportedFailure(Epoch(c, h))
    ensures Replay(c, h).healthSuccesses == CountHealthSuccesses(Epoch(c, h)) < c.recoveryCount
  {
    CountersRefineHistory(c, h);
    NothingIsForgotten(Epoch(c, h));
  }

  /** The events since the last failed probe. */
  function SinceFailedProbe(h: seq<Event>): seq<Event> {
    if h == [] || h[|h| - 1].Failure? then [] else SinceFailedProbe(h[..|h| - 1]) + [h[|h| - 1]]
  }

  /** Two passed probes with a failed one between them are enough where two
      consecutive ones are asked for. */
  lemma FailedProbesDoNotInterrupt()
    ensures var c := Config(1, 0.5, 1000, 2);
            var h := [Failure(1, ""), HealthSuccess, Failure(2, PROBE_FAILED), HealthSuccess];
            && c.Valid() && Natural(h)
            && Replay(c, h[..3]).state == OPEN && Replay(c, h).state == HALF_OPEN
            && CountHealthSuccesses(SinceFailedProbe(h)) < c.recoveryCount
  {
    var c, h := Config(1, 0.5, 1000, 2), [Failure(1, ""), HealthSuccess, Failure(2, PROBE_FAILED), HealthSuccess];
    assert h[..3][..2] == h[..2] && h[..2][..1] == h[..1] && h[..1][..0] == [];
    var tripped := Step(c, FRESH, h[0]);
    assert Replay(c, h[..1]) == tripped && tripped.state == OPEN && tripped.healthSuccesses == 0;
    assert Replay(c, h[..2]) == Step(c, tripped, h[1]);
    assert Replay(c, h[..3]) == Step(c, Replay(c, h[..2]), h[2]);
    assert SinceFailedProbe(h[..3]) == [];
    assert SinceFailedProbe(h) == [] + [h[3]];
    assert [h[3]][..0] == [];
  }

  predicate AnyPassed(h: seq<Event>) {
    exists i :: 0 <= i < |h| && h[i].HealthSuccess?
  }

  /** A probe failed after one had passed. */
  predicate Interrupted(h: seq<Event>) {
    exists i, j :: 0 <= i < j < |h| && h[i].HealthSuccess? && h[j].Failure?
  }

  lemma InterruptedByLast(h: seq<Event>)
    requires h != []
    ensures var g, e := h[..|h| - 1], h[|h| - 1];
            Interrupted(h) <==> Interrupted(g) || (e.Failure? && AnyPassed(g))
  {
    var g, e := h[..|h| - 1], h[|h| - 1];
    if Interrupted(g) {
      var i, j :| 0 <= i < j < |g| && g[i].HealthSuccess? && g[j].Failure?;
      assert h[i].HealthSuccess? && h[j].Failure?;
    }
    if e.Failure? && AnyPassed(g) {
      var i :| 0 <= i < |g| && g[i].HealthSuccess?;
      assert h[i].HealthSuccess? && h[|h| - 1].Failure?;
    }
    if Interrupted(h) {
      var i, j :| 0 <= i < j < |h| && h[i].HealthSuccess? && h[j].Failure?;
      assert g[i].HealthSuccess? && (j < |g| ==> g[j].Failure?);
    }
  }

  lemma {:induction false} NoneCounted(h: seq<Event>)
    ensures CountHealthSuccesses(h) == 0 <==> !AnyPassed(h)
  {
    if h != [] {
      var g := h[..|h| - 1];
      NoneCounted(g);
      if AnyPassed(g) {
        var i :| 0 <= i < |g| && g[i].HealthSuccess?;
        assert h[i].HealthSuccess?;
      }
    }
  }

  /** The last run of passed probes falls short of all of them exactly when a
      failed one came between. */
  lemma {:induction false} RunIsEverythingUnlessInterrupted(h: seq<Event>)
    ensures CountHealthSuccesses(SinceFailedProbe(h)) <= CountHealthSuccesses(h)
    ensures CountHealthSuccesses(SinceFailedProbe(h)) == CountHealthSuccesses(h) <==> !Interrupted(h)
  {
    if h != [] {
      var g, e := h[..|h| - 1], h[|h| - 1];
      RunIsEverythingUnlessInterrupted(g);
      InterruptedByLast(h);
      if e.Failure? {
        NoneCounted(g);
        assert SinceFailedProbe(h) == [];
        assert CountHealthSuccesses(h) == CountHealthSuccesses(g);
      } else {
        var since := SinceFailedProbe(g);
        assert SinceFailedProbe(h) == since + [e];
        assert (since + [e])[..|since|] == since;
      }
    }
  }

  /** The documented promise, that it takes `recoveryCount` consecutive passed
      probes to leave OPEN, is kept by the event that leaves it if and only if no
      probe failed after the first that passed. */
  lemma RecoveryIsConsecutiveExactlyUnlessInterrupted(c: Config, h: seq<Event>, e: Event)
    requires c.Valid() && Natural(h + [e]) && NoReportedFailure(Epoch(c, h))
    requires Replay(c, h).state == OPEN && Replay(c, h + [e]).state == HALF_OPEN
    ensures var w := Epoch(c, h) + [e];
            CountHealthSuccesses(SinceFailedProbe(w)) >= c.recoveryCount <==> !Interrupted(w)
  {
    var w := Epoch(c, h) + [e];
    PrefixIsNatural(h, e);
    WithoutReportedFailuresRecoveryIsCumulative(c, h);
    ChangesExactlyWhenDue(c, h, e);
    assert w[..|w| - 1] == Epoch(c, h) && w[|w| - 1] == e;
    NothingIsForgotten(w);
    RunIsEverythingUnlessInterrupted(w);
  }

  /** While the promise has not been broken yet, the breaker stays open exactly
      as long as it says. */
  lemma UninterruptedRecoveryIsAsDocumented(c: Config, h: seq<Event>, e: Event)
    requires c.Valid() && Natural(h + [e]) && NoReportedFailure(Epoch(c, h) + [e])
    requires Replay(c, h).state == OPEN && !Interrupted(Epoch(c, h) + [e])
    ensures Replay(c, h + [e]).state == HALF_OPEN <==>
            e.HealthSuccess? && CountHealthSuccesses(SinceFailedProbe(Epoch(c, h) + [e])) >= c.recoveryCount
  {
    var w := Epoch(c, h) + [e];
    ChangesExactlyWhenDue(c, h, e);
    assert w[|w| - 1] == e;
    NothingIsForgotten(w);
    RunIsEverythingUnlessInterrupted(w);
  }
}
