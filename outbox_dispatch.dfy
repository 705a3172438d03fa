/** The outbox dispatcher: each cycle publishes the oldest pending entries, one
    at a time, retrying each with exponential backoff, marks the published ones
    sent, and then sweeps old sent entries. */
module OutboxDispatch {
  import opened Common
  import opened Guids
  import opened DateTimes
  import opened OutboxEvents
  import opened OutboxRepositories

  /** The dispatcher's settings. */
  datatype DispatcherOptions = DispatcherOptions(
    IntervalMilisegundos: int,
    LoteTamanho: int,
    DelayRetryMilisegundos: int,
    DelayMaximoMilisegundos: int,
    MaximoTentativas: int,
    FatorExponencial: real,
    DiasRetencao: int)

  /** The class defaults, which the service registration sets again verbatim. */
  const DefaultOptions := DispatcherOptions(1000, 100, 500, 30000, 5, 2.0, 7)

  /** The message transport. Whether the n-th call succeeds is fixed in advance
      by `outcomes`; the messages delivered are recorded in `published`. */
  class MessagePublisher {
    const outcomes: nat -> bool
    var calls: nat
    var published: seq<(string, string)>

    constructor (outcomes: nat -> bool)
      ensures this.outcomes == outcomes && calls == 0 && published == []
    {
      this.outcomes := outcomes;
      calls := 0;
      published := [];
    }

    /** PublishAsync: delivers the message, or throws. */
    method PublishAsync(topico: string, payload: string) returns (ok: bool)
      modifies this
      ensures calls == old(calls) + 1 && ok == outcomes(old(calls))
      ensures published == old(published) + if ok then [(topico, payload)] else []
    {
      ok := outcomes(calls);
      calls := calls + 1;
      if ok {
        published := published + [(topico, payload)];
      }
    }
  }

  /** The (int) cast of a double: truncation toward zero. */
  function Truncate(x: real): (n: int)
    ensures x >= 0.0 ==> n as real <= x < n as real + 1.0
    ensures x < 0.0 ==> n as real - 1.0 < x <= n as real
  {
    if x >= 0.0 then x.Floor else -((-x).Floor)
  }

  function RealMin(a: real, b: real): real {
    if a <= b then a else b
  }

  /** The next delay: the current one times the factor, capped, then truncated. */
  function NextDelay(d: int, factor: real, cap: int): int {
    Truncate(RealMin(d as real * factor, cap as real))
  }

  /** The delay waited after the k-th failed attempt (counting from 0). */
  function DelayAt(d0: int, factor: real, cap: int, k: nat): int {
    if k == 0 then d0 else NextDelay(DelayAt(d0, factor, cap, k - 1), factor, cap)
  }

  /** The delays waited after the first n failed attempts, in order. */
  function BackoffDelays(d0: int, factor: real, cap: int, n: nat): (ds: seq<int>)
    ensures |ds| == n
    ensures forall k :: 0 <= k < n ==> ds[k] == DelayAt(d0, factor, cap, k)
  {
    if n == 0 then [] else BackoffDelays(d0, factor, cap, n - 1) + [DelayAt(d0, factor, cap, n - 1)]
  }

  /** The exception Task.Delay ends a wait with: a negative wait other than
      the infinite one (-1) is refused, and the infinite one ends only when the
      host stops and cancels it. */
  function WaitError(d: int): Error {
    if d < -1 then ArgumentOutOfRange else Canceled
  }

  /** The number of attempts a publication can make when the waits from the k-th
      on are still to come: a failure followed by a wait of -1 ms or less ends the
      retries, since that wait throws out of the catch clause. */
  function BudgetFrom(d0: int, factor: real, cap: int, m: int, k: nat): (b: int)
    ensures m <= 0 ==> b == m
    ensures m > 0 ==> k < b <= m || (k >= m && b == m)
    decreases m - k
  {
    if k + 1 >= m then m
    else if DelayAt(d0, factor, cap, k) <= -1 then k + 1
    else BudgetFrom(d0, factor, cap, m, k + 1)
  }

  /** The attempts PublicarComRetryAsync can make with these settings. */
  function Budget(opts: DispatcherOptions): int {
    BudgetFrom(opts.DelayRetryMilisegundos, opts.FatorExponencial, opts.DelayMaximoMilisegundos,
               opts.MaximoTentativas, 0)
  }

  /** The budget is the whole MaximoTentativas exactly when none of the waits
      after the first MaximoTentativas - 1 failures is -1 ms or less; otherwise
      it ends right after the first failure whose wait is. */
  lemma {:induction false} BudgetFromIff(d0: int, factor: real, cap: int, m: int, k: nat)
    requires k < m
    ensures var b := BudgetFrom(d0, factor, cap, m, k);
            && (b == m <==> forall j :: k <= j < m - 1 ==> DelayAt(d0, factor, cap, j) > -1)
            && (b < m ==> DelayAt(d0, factor, cap, b - 1) <= -1
                          && forall j :: k <= j < b - 1 ==> DelayAt(d0, factor, cap, j) > -1)
    decreases m - k
  {
    if k + 1 < m && DelayAt(d0, factor, cap, k) > -1 {
      BudgetFromIff(d0, factor, cap, m, k + 1);
    }
  }

  /** With a non-negative first delay, factor and cap no wait is negative, so a
      publication always has its whole MaximoTentativas. */
  lemma NonNegativeSettingsKeepBudget(opts: DispatcherOptions)
    requires opts.DelayRetryMilisegundos >= 0 && opts.FatorExponencial >= 0.0 && opts.DelayMaximoMilisegundos >= 0
    ensures Budget(opts) == opts.MaximoTentativas
  {
    if opts.MaximoTentativas > 0 {
      forall j: nat | j < opts.MaximoTentativas - 1
        ensures DelayAt(opts.DelayRetryMilisegundos, opts.FatorExponencial, opts.DelayMaximoMilisegundos, j) > -1
      {
        DelaysNonNegative(opts.DelayRetryMilisegundos, opts.FatorExponencial, opts.DelayMaximoMilisegundos, j);
      }
      BudgetFromIff(opts.DelayRetryMilisegundos, opts.FatorExponencial, opts.DelayMaximoMilisegundos,
                    opts.MaximoTentativas, 0);
    }
  }

  lemma {:induction false} DelaysNonNegative(d0: int, factor: real, cap: int, k: nat)
    requires d0 >= 0 && factor >= 0.0 && cap >= 0
    ensures DelayAt(d0, factor, cap, k) >= 0
  {
    if k > 0 {
      DelaysNonNegative(d0, factor, cap, k - 1);
      var d := DelayAt(d0, factor, cap, k - 1);
      assert d as real * factor >= 0.0;
    }
  }

  /** The defaults never cut the retries short. */
  lemma DefaultBudget()
    ensures Budget(DefaultOptions) == 5
  {
    NonNegativeSettingsKeepBudget(DefaultOptions);
  }

  /** A negative first delay ends the retries after the first failure, with the
      ArgumentOutOfRangeException of Task.Delay when it is below -1. */
  lemma NegativeDelayStopsRetries(opts: DispatcherOptions)
    requires opts.DelayRetryMilisegundos <= -1 && opts.MaximoTentativas >= 2
    ensures Budget(opts) == 1
  {
  }

  /** How many calls a publication with `left` attempts makes, starting at call `from`:
      it stops at the first success or after the last attempt. */
  function Attempts(outcomes: nat -> bool, from: nat, left: int): nat
    decreases left
  {
    if left <= 0 then 0 else if outcomes(from) then 1 else 1 + Attempts(outcomes, from + 1, left - 1)
  }

  /** One of the `left` attempts starting at call `from` succeeds. */
  predicate Succeeds(outcomes: nat -> bool, from: nat, left: int)
    decreases left
  {
    left > 0 && (outcomes(from) || Succeeds(outcomes, from + 1, left - 1))
  }

  /** Publication succeeds exactly when some call within the attempt budget does. */
  lemma {:induction false} SucceedsIffSomeCallSucceeds(outcomes: nat -> bool, from: nat, left: int)
    ensures Succeeds(outcomes, from, left) <==> exists n :: from <= n < from + left && outcomes(n)
    decreases left
  {
    if left > 0 {
      SucceedsIffSomeCallSucceeds(outcomes, from + 1, left - 1);
    }
  }

  /** A successful publication stops at the first call that succeeds, within the budget. */
  lemma {:induction false} AttemptsStopAtFirstSuccess(outcomes: nat -> bool, from: nat, left: int)
    requires Succeeds(outcomes, from, left)
    ensures 1 <= Attempts(outcomes, from, left) <= left
    ensures outcomes(from + Attempts(outcomes, from, left) - 1)
    ensures forall n :: from <= n < from + Attempts(outcomes, from, left) - 1 ==> !outcomes(n)
    decreases left
  {
    if !outcomes(from) {
      AttemptsStopAtFirstSuccess(outcomes, from + 1, left - 1);
    }
  }

  /** A failed publication uses its whole budget. */
  lemma {:induction false} FailedPublicationUsesBudget(outcomes: nat -> bool, from: nat, left: int)
    requires !Succeeds(outcomes, from, left)
    ensures Attempts(outcomes, from, left) == Max(0, left)
    decreases left
  {
    if left > 0 {
      FailedPublicationUsesBudget(outcomes, from + 1, left - 1);
    }
  }

  /** One failed call, when more attempts remain. */
  lemma AttemptsAfterFailure(outcomes: nat -> bool, from: nat, left: int)
    requires left > 0 && !outcomes(from)
    ensures Attempts(outcomes, from, left) == 1 + Attempts(outcomes, from + 1, left - 1)
    ensures Succeeds(outcomes, from, left) == Succeeds(outcomes, from + 1, left - 1)
  {
  }

  /** After the first delay, every delay is at most the cap, whatever the factor. */
  lemma DelaysCapped(d0: int, factor: real, cap: int, k: nat)
    requires k >= 1
    ensures DelayAt(d0, factor, cap, k) <= cap
  {
  }

  /** With a whole factor f >= 1 and non-negative settings, the k-th delay (k >= 1)
      is min(d0 * f^k, cap); the first delay is d0 even when d0 exceeds the cap. */
  lemma {:induction false} DelayClosedForm(d0: nat, f: nat, cap: nat, k: nat)
    requires f >= 1 && k >= 1
    ensures DelayAt(d0, f as real, cap, k) == Min(d0 * Pow(f, k), cap)
  {
    if k == 1 {
      NextDelayWhole(d0, f, cap);
      assert Pow(f, 1) == f;
    } else {
      DelayClosedForm(d0, f, cap, k - 1);
      var a := d0 * Pow(f, k - 1);
      NextDelayWhole(Min(a, cap), f, cap);
      MinScale(a, cap, f);
      PowTimes(d0, f, k);
    }
  }

  function Pow(b: nat, e: nat): nat {
    if e == 0 then 1 else Pow(b, e - 1) * b
  }

  lemma PowTimes(d0: nat, f: nat, k: nat)
    requires k >= 1
    ensures d0 * Pow(f, k) == (d0 * Pow(f, k - 1)) * f
  {
    assert Pow(f, k) == Pow(f, k - 1) * f;
  }

  /** On whole values the double arithmetic of the next delay is exact. */
  lemma NextDelayWhole(d: nat, f: nat, cap: nat)
    ensures NextDelay(d, f as real, cap) == Min(d * f, cap)
  {
    assert (d as real) * (f as real) == (d * f) as real;
  }

  /** Capping before scaling up by a factor >= 1 and capping again is capping once. */
  lemma MinScale(a: nat, cap: nat, f: nat)
    requires f >= 1
    ensures Min(Min(a, cap) * f, cap) == Min(a * f, cap)
  {
    if a > cap {
      assert cap * f >= cap;
      assert a * f >= cap * f;
    }
  }

  /** PublicarComRetryAsync: up to MaximoTentativas calls; after each failure but
      the last it waits the current delay and multiplies it by the factor, capped;
      the last failure is rethrown. A wait of -1 ms or less throws out of the catch
      clause and ends the publication (see Budget). With no attempts allowed it
      returns without publishing. */
  method PublicarComRetry(pub: MessagePublisher, topico: string, payload: string, opts: DispatcherOptions)
    returns (o: Outcome, delays: seq<int>)
    modifies pub
    ensures var m := opts.MaximoTentativas;
            var b := Budget(opts);
            var n := Attempts(pub.outcomes, old(pub.calls), b);
            && pub.calls == old(pub.calls) + n
            && (o.Pass? <==> m <= 0 || Succeeds(pub.outcomes, old(pub.calls), b))
            && (o.Fail? && b == m ==> o == Fail(Publish))
            && (o.Fail? && b < m ==> o == Fail(WaitError(DelayAt(opts.DelayRetryMilisegundos, opts.FatorExponencial,
                                                                  opts.DelayMaximoMilisegundos, b - 1))))
            && pub.published == old(pub.published) +
                 (if Succeeds(pub.outcomes, old(pub.calls), b) then [(topico, payload)] else [])
            && delays == BackoffDelays(opts.DelayRetryMilisegundos, opts.FatorExponencial,
                                       opts.DelayMaximoMilisegundos, Max(0, n - 1))
  {
    ghost var from := pub.calls;
    var m := opts.MaximoTentativas;
    ghost var b := Budget(opts);
    var tentativas := 0;
    var delayMs := opts.DelayRetryMilisegundos;
    delays := [];
    o := Pass;
    while tentativas < m
      invariant 0 <= tentativas && (m > 0 ==> tentativas < b <= m)
      invariant m > 0 ==> b == BudgetFrom(opts.DelayRetryMilisegundos, opts.FatorExponencial,
                                          opts.DelayMaximoMilisegundos, m, tentativas)
      invariant pub.calls == from + tentativas && pub.published == old(pub.published)
      invariant Attempts(pub.outcomes, from, b) == tentativas + Attempts(pub.outcomes, from + tentativas, b - tentativas)
      invariant Succeeds(pub.outcomes, from, b) == Succeeds(pub.outcomes, from + tentativas, b - tentativas)
      invariant delayMs == DelayAt(opts.DelayRetryMilisegundos, opts.FatorExponencial, opts.DelayMaximoMilisegundos, tentativas)
      invariant delays == BackoffDelays(opts.DelayRetryMilisegundos, opts.FatorExponencial, opts.DelayMaximoMilisegundos, tentativas)
      decreases m - tentativas
    {
      var ok := pub.PublishAsync(topico, payload);
      if ok {
        return Pass, delays;
      }
      AttemptsAfterFailure(pub.outcomes, from + tentativas, b - tentativas);
      if tentativas < m - 1 {
        if delayMs <= -1 {
          return Fail(WaitError(delayMs)), delays;
        }
        tentativas := tentativas + 1;
        delays := delays + [delayMs];
        delayMs := NextDelay(delayMs, opts.FatorExponencial, opts.DelayMaximoMilisegundos);
      } else {
        return Fail(Publish), delays;
      }
    }
  }

  /** With the default settings, three failures and then a success: four calls,
      and waits of 500, 1000 and 2000 ms. */
  lemma ThreeFailuresThenSuccess(outcomes: nat -> bool, from: nat)
    requires !outcomes(from) && !outcomes(from + 1) && !outcomes(from + 2) && outcomes(from + 3)
    ensures Succeeds(outcomes, from, Budget(DefaultOptions))
    ensures Attempts(outcomes, from, Budget(DefaultOptions)) == 4
    ensures BackoffDelays(DefaultOptions.DelayRetryMilisegundos, DefaultOptions.FatorExponencial,
                          DefaultOptions.DelayMaximoMilisegundos, 3) == [500, 1000, 2000]
  {
    DefaultBudget();
    assert Attempts(outcomes, from + 3, 2) == 1;
    assert Succeeds(outcomes, from + 3, 2);
    DelayClosedForm(500, 2, 30000, 1);
    DelayClosedForm(500, 2, 30000, 2);
  }

  /** With the default settings, the delay reaches the 30-second cap at the sixth retry. */
  lemma DefaultBackoffReachesCap()
    ensures DelayAt(500, 2.0, 30000, 5) == 16000
    ensures DelayAt(500, 2.0, 30000, 6) == 30000
  {
    DelayClosedForm(500, 2, 30000, 5);
    DelayClosedForm(500, 2, 30000, 6);
  }

  /** The publication results for a batch: each entry uses the calls after the
      previous entry's. */
  function BatchResults(outcomes: nat -> bool, from: nat, batch: seq<OutboxRow>, m: int): (rs: seq<bool>)
    ensures |rs| == |batch|
    decreases |batch|
  {
    if batch == [] then []
    else [m <= 0 || Succeeds(outcomes, from, m)] + BatchResults(outcomes, from + Attempts(outcomes, from, m), batch[1..], m)
  }

  function BatchCalls(outcomes: nat -> bool, from: nat, batch: seq<OutboxRow>, m: int): nat
    decreases |batch|
  {
    if batch == [] then 0
    else Attempts(outcomes, from, m) + BatchCalls(outcomes, from + Attempts(outcomes, from, m), batch[1..], m)
  }

  /** The messages delivered for a batch, in batch order. */
  function BatchMessages(outcomes: nat -> bool, from: nat, batch: seq<OutboxRow>, m: int): seq<(string, string)>
    decreases |batch|
  {
    if batch == [] then []
    else (if Succeeds(outcomes, from, m) then [(batch[0].Topico, batch[0].Payload)] else [])
         + BatchMessages(outcomes, from + Attempts(outcomes, from, m), batch[1..], m)
  }

  /** The identifiers of the batch entries whose publication went through. */
  function SentIds(batch: seq<OutboxRow>, results: seq<bool>): (ids: set<Guid>)
    requires |results| == |batch|
    ensures forall id :: id in ids <==> exists j :: 0 <= j < |batch| && results[j] && batch[j].Id == id
  {
    if batch == [] then {}
    else
      var rest := SentIds(batch[1..], results[1..]);
      assert forall id :: id in rest <==> exists j :: 1 <= j < |batch| && results[j] && batch[j].Id == id by {
        forall id | id in rest ensures exists j :: 1 <= j < |batch| && results[j] && batch[j].Id == id {
          var j :| 0 <= j < |batch[1..]| && results[1..][j] && batch[1..][j].Id == id;
          assert results[j + 1] && batch[j + 1].Id == id;
        }
        forall j | 1 <= j < |batch| && results[j]
          ensures batch[j].Id in rest
        {
          assert results[1..][j - 1] && batch[1..][j - 1] == batch[j];
        }
      }
      (if results[0] then {batch[0].Id} else {}) + rest
  }

  /** The table after marking each batch entry whose result is true. */
  function MarkAll(events: seq<OutboxRow>, batch: seq<OutboxRow>, results: seq<bool>, now: DateTime): (r: seq<OutboxRow>)
    requires |results| == |batch|
    ensures |r| == |events|
    decreases |batch|
  {
    if batch == [] then events
    else MarkAll(if results[0] then MarkSent(events, batch[0].Id, now) else events, batch[1..], results[1..], now)
  }

  /** Marking a batch stamps exactly the rows whose identifier was published. */
  lemma {:induction false} MarkAllStampsSent(events: seq<OutboxRow>, batch: seq<OutboxRow>, results: seq<bool>, now: DateTime)
    requires |results| == |batch|
    decreases |batch|
    ensures forall i :: 0 <= i < |events| ==>
              MarkAll(events, batch, results, now)[i] ==
                if events[i].Id in SentIds(batch, results) then events[i].(DataEnvio := Some(now)) else events[i]
  {
    if batch != [] {
      var next := if results[0] then MarkSent(events, batch[0].Id, now) else events;
      MarkAllStampsSent(next, batch[1..], results[1..], now);
      assert SentIds(batch, results) == (if results[0] then {batch[0].Id} else {}) + SentIds(batch[1..], results[1..]);
    }
  }

  /** The first entry of a batch and the rest, for each of the batch functions. */
  lemma BatchStep(outcomes: nat -> bool, from: nat, batch: seq<OutboxRow>, m: int)
    requires batch != []
    ensures var next := from + Attempts(outcomes, from, m);
            && BatchResults(outcomes, from, batch, m)
               == [m <= 0 || Succeeds(outcomes, from, m)] + BatchResults(outcomes, next, batch[1..], m)
            && BatchCalls(outcomes, from, batch, m) == Attempts(outcomes, from, m) + BatchCalls(outcomes, next, batch[1..], m)
            && BatchMessages(outcomes, from, batch, m)
               == (if Succeeds(outcomes, from, m) then [(batch[0].Topico, batch[0].Payload)] else [])
                  + BatchMessages(outcomes, next, batch[1..], m)
  {
  }

  /** Moving past one batch entry whose publication used the calls from `before`
      up to `after`. */
  lemma EntryAdvance(outcomes: nat -> bool, before: nat, after: nat, eventos: seq<OutboxRow>, i: nat, m: int,
                     results: seq<bool>, calls: nat, messages: seq<(string, string)>, published: seq<(string, string)>)
    requires i < |eventos| && after == before + Attempts(outcomes, before, m)
    requires results == BatchResults(outcomes, before, eventos[i..], m)
    requires calls == before + BatchCalls(outcomes, before, eventos[i..], m)
    requires messages == published + BatchMessages(outcomes, before, eventos[i..], m)
    ensures |results| >= 1 && results[0] == (m <= 0 || Succeeds(outcomes, before, m))
    ensures results[1..] == BatchResults(outcomes, after, eventos[i + 1..], m)
    ensures calls == after + BatchCalls(outcomes, after, eventos[i + 1..], m)
    ensures messages == (published + if Succeeds(outcomes, before, m) then [(eventos[i].Topico, eventos[i].Payload)] else [])
                        + BatchMessages(outcomes, after, eventos[i + 1..], m)
  {
    BatchStep(outcomes, before, eventos[i..], m);
    assert eventos[i..][0] == eventos[i] && eventos[i..][1..] == eventos[i + 1..];
  }

  lemma MarkAllStep(events: seq<OutboxRow>, batch: seq<OutboxRow>, results: seq<bool>, now: DateTime)
    requires |results| == |batch| && batch != []
    ensures MarkAll(events, batch, results, now)
            == MarkAll(if results[0] then MarkSent(events, batch[0].Id, now) else events, batch[1..], results[1..], now)
  {
  }

  /** ProcessarEventosPendentesAsync: without a publisher nothing happens; otherwise
      each entry of the pending batch is published with retries and, if that went
      through, marked sent; a failure moves on to the next entry. */
  method ProcessarEventosPendentes(repo: OutboxRepository, pub: MessagePublisher?, opts: DispatcherOptions, now: DateTime)
    returns (results: seq<bool>)
    requires repo.Valid()
    modifies repo, pub
    ensures repo.Valid()
    ensures pub == null ==> results == [] && repo.events == old(repo.events)
    ensures pub != null ==>
              var batch := PendingBatch(old(repo.events), opts.LoteTamanho);
              && results == BatchResults(pub.outcomes, old(pub.calls), batch, Budget(opts))
              && pub.calls == old(pub.calls) + BatchCalls(pub.outcomes, old(pub.calls), batch, Budget(opts))
              && pub.published == old(pub.published) + BatchMessages(pub.outcomes, old(pub.calls), batch, Budget(opts))
              && repo.events == MarkAll(old(repo.events), batch, results, now)
  {
    if pub == null {
      return [];
    }
    var eventos := repo.ObterPendentesAsync(opts.LoteTamanho);
    if |eventos| == 0 {
      return [];
    }
    results := PublicarLote(repo, pub, eventos, opts, now);
  }

  /** The loop over the batch: publish with retries, mark sent on success, and
      carry on with the next entry after a failure. */
  method PublicarLote(repo: OutboxRepository, pub: MessagePublisher, eventos: seq<OutboxRow>, opts: DispatcherOptions, now: DateTime)
    returns (results: seq<bool>)
    requires repo.Valid()
    modifies repo, pub
    ensures repo.Valid()
    ensures results == BatchResults(pub.outcomes, old(pub.calls), eventos, Budget(opts))
    ensures pub.calls == old(pub.calls) + BatchCalls(pub.outcomes, old(pub.calls), eventos, Budget(opts))
    ensures pub.published == old(pub.published) + BatchMessages(pub.outcomes, old(pub.calls), eventos, Budget(opts))
    ensures repo.events == MarkAll(old(repo.events), eventos, results, now)
  {
    results := [];
    ghost var m := Budget(opts);
    ghost var from := pub.calls;
    ghost var allResults := BatchResults(pub.outcomes, from, eventos, m);
    ghost var allCalls := BatchCalls(pub.outcomes, from, eventos, m);
    ghost var allMessages := BatchMessages(pub.outcomes, from, eventos, m);
    ghost var finalEvents := MarkAll(repo.events, eventos, allResults, now);
    var i := 0;
    assert eventos[0..] == eventos && allResults[0..] == allResults;
    while i < |eventos|
      invariant 0 <= i <= |eventos| && results == allResults[..i]
      invariant repo.Valid()
      invariant allResults[i..] == BatchResults(pub.outcomes, pub.calls, eventos[i..], m)
      invariant from + allCalls == pub.calls + BatchCalls(pub.outcomes, pub.calls, eventos[i..], m)
      invariant old(pub.published) + allMessages == pub.published + BatchMessages(pub.outcomes, pub.calls, eventos[i..], m)
      invariant finalEvents == MarkAll(repo.events, eventos[i..], allResults[i..], now)
    {
      var evento := eventos[i];
      ghost var before := pub.calls;
      ghost var after := before + Attempts(pub.outcomes, before, m);
      ghost var rest := allResults[i..];
      EntryAdvance(pub.outcomes, before, after, eventos, i, m, rest, from + allCalls,
                   old(pub.published) + allMessages, pub.published);
      MarkAllStep(repo.events, eventos[i..], rest, now);
      assert eventos[i..][0] == evento && eventos[i..][1..] == eventos[i + 1..];
      assert rest[0] == allResults[i] && rest[1..] == allResults[i + 1..];
      var o, _ := PublicarComRetry(pub, evento.Topico, evento.Payload, opts);
      assert pub.calls == after;
      if o.Pass? {
        repo.MarcarComoEnviadoAsync(evento.Id, now);
      }
      results := results + [o.Pass?];
      assert results == allResults[..i + 1];
      i := i + 1;
    }
    assert eventos[i..] == [] && allResults[..i] == allResults;
  }

  /** One pass of ExecuteAsync's loop: dispatch, then retention. The wait between
      passes and cancellation are outside the model. */
  method RunCycle(repo: OutboxRepository, pub: MessagePublisher?, opts: DispatcherOptions, now: DateTime)
    returns (results: seq<bool>, removed: int)
    requires repo.Valid() && DateTimes.Valid(now)
    modifies repo, pub
    ensures repo.Valid()
    ensures pub == null ==> results == [] && repo.events == Kept(old(repo.events), AddDays(now, -opts.DiasRetencao))
    ensures pub != null ==>
              var batch := PendingBatch(old(repo.events), opts.LoteTamanho);
              && results == BatchResults(pub.outcomes, old(pub.calls), batch, Budget(opts))
              && pub.calls == old(pub.calls) + BatchCalls(pub.outcomes, old(pub.calls), batch, Budget(opts))
              && pub.published == old(pub.published) + BatchMessages(pub.outcomes, old(pub.calls), batch, Budget(opts))
              && repo.events == Kept(MarkAll(old(repo.events), batch, results, now), AddDays(now, -opts.DiasRetencao))
    ensures removed == |old(repo.events)| - |repo.events| && removed >= 0
  {
    results := ProcessarEventosPendentes(repo, pub, opts, now);
    removed := repo.LimparAntigosAsync(opts.DiasRetencao, now);
  }
}
