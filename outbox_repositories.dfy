/** The outbox table held in memory in insertion order: appending entries,
    reading the oldest pending ones, marking one sent and sweeping old sent ones. */
module OutboxRepositories {
  import opened Common
  import opened Guids
  import opened DateTimes
  import opened Seqs
  import opened OutboxEvents

  function Created(r: OutboxRow): DateTime {
    r.DataCriacao
  }

  /** Take(limite) on the database query, which becomes SQLite's LIMIT: a
      negative limit is no limit at all, zero takes nothing. */
  function Limit<T>(s: seq<T>, limite: int): (r: seq<T>)
    ensures |r| == if limite < 0 then |s| else Min(limite, |s|)
    ensures r == s[..|r|]
  {
    if limite < 0 then s else Take(s, limite)
  }

  /** The rows ObterPendentesAsync returns: pending ones, oldest first, exactly
      `limite` of them when that many are pending, all of them otherwise or when
      limite is negative, and none when it is zero; each pending row is taken at
      most as often as it occurs. */
  function PendingBatch(events: seq<OutboxRow>, limite: int): (b: seq<OutboxRow>)
    ensures |b| == if limite < 0 then |Filter(events, IsPending)| else Min(limite, |Filter(events, IsPending)|)
    ensures multiset(b) <= multiset(Filter(events, IsPending))
    ensures forall r :: r in b ==> r in events && IsPending(r)
    ensures SortedBy(b, Created, true)
  {
    var pending := Filter(events, IsPending);
    var sorted := SortBy(pending, Created, true);
    var b := Limit(sorted, limite);
    TakeSubMultiset(sorted, if limite < 0 then |sorted| else limite);
    assert forall r :: r in b ==> r in multiset(pending);
    b
  }

  /** The batch holds the oldest pending entries: a pending entry left out is no
      older than anything taken, and when no more than `limite` are pending, or limite is negative, all are taken. */
  lemma PendingBatchIsOldest(events: seq<OutboxRow>, limite: int)
    ensures forall x, e ::
              (x in PendingBatch(events, limite) && e in events && IsPending(e) && e !in PendingBatch(events, limite))
              ==> NotAfter(x.DataCriacao, e.DataCriacao)
    ensures (limite < 0 || limite >= |Filter(events, IsPending)|) ==>
              forall e :: e in events && IsPending(e) ==> e in PendingBatch(events, limite)
  {
    var pending := Filter(events, IsPending);
    var sorted := SortBy(pending, Created, true);
    var b := PendingBatch(events, limite);
    assert b == Limit(sorted, limite);
    assert b == sorted[..|b|];
    forall x, e | x in b && e in events && IsPending(e) && e !in b
      ensures NotAfter(x.DataCriacao, e.DataCriacao)
    {
      OlderThanLeftOut(sorted, |b|, x, e);
    }
    if limite < 0 || limite >= |pending| {
      assert b == sorted;
      forall e | e in events && IsPending(e) ensures e in b {
        assert e in multiset(sorted);
      }
    }
  }

  /** In a list sorted oldest first, anything in a prefix is no younger than
      anything of the list outside it. */
  lemma OlderThanLeftOut(sorted: seq<OutboxRow>, n: nat, x: OutboxRow, e: OutboxRow)
    requires SortedBy(sorted, Created, true) && n <= |sorted|
    requires x in sorted[..n] && e in multiset(sorted) && e !in sorted[..n]
    ensures NotAfter(x.DataCriacao, e.DataCriacao)
  {
    assert sorted == sorted[..n] + sorted[n..];
    assert e in multiset(sorted[n..]);
    var j :| 0 <= j < |sorted[n..]| && sorted[n..][j] == e;
    var i :| 0 <= i < n && sorted[..n][i] == x;
    assert sorted[i] == x && sorted[n + j] == e;
  }

  /** The table after MarcarComoEnviadoAsync(id): that entry stamped, all else as it was. */
  function MarkSent(events: seq<OutboxRow>, id: Guid, now: DateTime): (r: seq<OutboxRow>)
    ensures |r| == |events|
  {
    seq(|events|, i requires 0 <= i < |events| =>
      if events[i].Id == id then events[i].(DataEnvio := Some(now)) else events[i])
  }

  /** Retention removes an entry when it has been sent and was created strictly
      before the cutoff; the sent instant plays no part. */
  predicate Removable(r: OutboxRow, cutoff: DateTime) {
    r.DataEnvio.Some? && Before(r.DataCriacao, cutoff)
  }

  function Kept(events: seq<OutboxRow>, cutoff: DateTime): (r: seq<OutboxRow>)
    ensures forall e :: e in r <==> e in events && !Removable(e, cutoff)
  {
    Filter(events, (e: OutboxRow) => !Removable(e, cutoff))
  }

  /** Pending entries survive retention whatever their age. */
  lemma PendingNeverSwept(events: seq<OutboxRow>, cutoff: DateTime)
    ensures forall e :: e in events && IsPending(e) ==> e in Kept(events, cutoff)
  {
  }

  /** With a retention of `dias` days, a sent entry created more than `dias` days
      ago goes, a sent one created more recently stays, and a pending one stays
      however old it is (with the defaults: ten days goes, two days stays). */
  lemma RetentionScenario(now: DateTime, dias: int, oldAge: int, youngAge: int, pendingAge: int,
                          older: OutboxRow, younger: OutboxRow, pending: OutboxRow)
    requires Valid(now) && 0 <= youngAge < dias < oldAge
    requires older.DataCriacao == AddDays(now, -oldAge) && older.DataEnvio.Some?
    requires younger.DataCriacao == AddDays(now, -youngAge) && younger.DataEnvio.Some?
    requires pending.DataCriacao == AddDays(now, -pendingAge) && pending.DataEnvio.None?
    ensures Kept([older, younger, pending], AddDays(now, -dias)) == [younger, pending]
  {
    AddDaysBackwardsStrictlyEarlier(now, dias, oldAge);
    AddDaysBackwardsStrictlyEarlier(now, youngAge, dias);
    var cutoff := AddDays(now, -dias);
    assert Removable(older, cutoff);
    assert !Removable(younger, cutoff);
    assert !Removable(pending, cutoff);
    assert [older, younger, pending][1..] == [younger, pending];
    assert [younger, pending][1..] == [pending];
    assert [pending][1..] == [];
    assert Kept([pending], cutoff) == [pending];
    assert Kept([younger, pending], cutoff) == [younger, pending];
  }

  class OutboxRepository {
    var events: seq<OutboxRow>
    const guids: GuidSource

    /** The primary key on the identifier. */
    ghost predicate Valid()
      reads this
    {
      forall i, j :: 0 <= i < j < |events| ==> events[i].Id != events[j].Id
    }

    constructor (guids: GuidSource)
      ensures events == [] && this.guids == guids && Valid()
    {
      events := [];
      this.guids := guids;
    }

    /** AdicionarAsync: the same checks as the entity's factory, then one pending
        entry appended; an identifier already present is refused by the primary key. */
    method AdicionarAsync(topico: string, payload: string, now: DateTime) returns (o: Outcome)
      requires Valid()
      modifies this, guids
      ensures Valid()
      ensures OutboxCreationError(topico, payload).Some? ==>
                o == Fail(OutboxCreationError(topico, payload).value)
                && events == old(events) && guids.issued == old(guids.issued)
      ensures OutboxCreationError(topico, payload).None? ==>
                var id := guids.values(old(guids.issued));
                && guids.issued == old(guids.issued) + 1
                && (o.Pass? <==> forall e :: e in old(events) ==> e.Id != id)
                && (o.Pass? ==> events == old(events) + [OutboxRow(id, topico, payload, now, None, true)])
                && (o.Fail? ==> o == Fail(DbUpdate("UNIQUE constraint failed: OutboxEvents.Id")) && events == old(events))
    {
      var e := OutboxCreationError(topico, payload);
      if e.Some? {
        return Fail(e.value);
      }
      var created := OutboxEvent.Criar(topico, payload, now, guids);
      var ev := created.value;
      var row := ev.Row();
      if exists x :: x in events && x.Id == row.Id {
        return Fail(DbUpdate("UNIQUE constraint failed: OutboxEvents.Id"));
      }
      events := events + [row];
      return Pass;
    }

    /** ObterPendentesAsync: the pending entries, oldest first, as many as `limite`
        allows; a negative `limite` sets no bound. */
    function ObterPendentesAsync(limite: int): (b: seq<OutboxRow>)
      reads this
      ensures |b| == if limite < 0 then |Filter(events, IsPending)| else Min(limite, |Filter(events, IsPending)|)
      ensures multiset(b) <= multiset(Filter(events, IsPending))
      ensures forall r :: r in b ==> r in events && IsPending(r)
      ensures SortedBy(b, Created, true)
    {
      PendingBatch(events, limite)
    }

    /** MarcarComoEnviadoAsync: loads the entry, stamps it as sent and writes it back;
        nothing happens for an unknown identifier. */
    method MarcarComoEnviadoAsync(id: Guid, now: DateTime)
      requires Valid()
      modifies this
      ensures Valid()
      ensures (forall e :: e in old(events) ==> e.Id != id) ==> events == old(events)
      ensures events == MarkSent(old(events), id, now)
    {
      var k := 0;
      while k < |events| && events[k].Id != id
        invariant 0 <= k <= |events|
        invariant forall j :: 0 <= j < k ==> events[j].Id != id
      {
        k := k + 1;
      }
      if k == |events| {
        assert events == MarkSent(events, id, now);
        return;
      }
      var ev := new OutboxEvent.FromRow(events[k]);
      ev.MarcarComoEnviado(now);
      events := events[k := ev.Row()];
      assert forall j :: 0 <= j < |events| && j != k ==> old(events)[j].Id != id;
    }

    /** LimparAntigosAsync: removes the sent entries created before now minus the
        retention period and returns how many went. */
    method LimparAntigosAsync(diasRetencao: int, now: DateTime) returns (count: int)
      requires DateTimes.Valid(now) && Valid()
      modifies this
      ensures Valid()
      ensures events == Kept(old(events), AddDays(now, -diasRetencao))
      ensures count == |old(events)| - |events| && count >= 0
    {
      var cutoff := AddDays(now, -diasRetencao);
      var kept := Kept(events, cutoff);
      KeptKeepsKeys(events, cutoff);
      count := |events| - |kept|;
      events := kept;
    }
  }

  /** Removing entries keeps the identifiers distinct. */
  lemma {:induction false} KeptKeepsKeys(events: seq<OutboxRow>, cutoff: DateTime)
    requires forall i, j :: 0 <= i < j < |events| ==> events[i].Id != events[j].Id
    ensures var k := Kept(events, cutoff);
            (forall i, j :: 0 <= i < j < |k| ==> k[i].Id != k[j].Id) && |k| <= |events|
  {
    if events != [] {
      KeptKeepsKeys(events[1..], cutoff);
      var rest := Kept(events[1..], cutoff);
      assert Kept(events, cutoff) == (if !Removable(events[0], cutoff) then [events[0]] else []) + rest;
      forall x | x in rest ensures x.Id != events[0].Id {
        var j :| 0 <= j < |events[1..]| && events[1..][j] == x;
        assert events[j + 1] == x;
      }
    }
  }
}
