/** The card store: the Cards table and the CardIdempotencyKeys table, whose
    key column is unique, held in memory in insertion order. */
module CardRepositories {
  import opened Common
  import opened Guids
  import opened DateTimes
  import opened Seqs
  import opened Cards
  import opened IdempotencyKeys

  function RowCreated(r: CardRow): DateTime {
    r.DataCriacao
  }

  /** The first row with identifier id, the one FirstOrDefault returns. */
  function FindById(cards: seq<CardRow>, id: Guid): (r: Option<CardRow>)
    ensures r.Some? ==> r.value in cards && r.value.Id == id
    ensures r.None? <==> forall c :: c in cards ==> c.Id != id
  {
    if cards == [] then None
    else if cards[0].Id == id then Some(cards[0])
    else FindById(cards[1..], id)
  }

  /** The first record for a key string. */
  function FindKey(keys: seq<CardIdempotencyKey>, chave: string): (r: Option<CardIdempotencyKey>)
    ensures r.Some? ==> r.value in keys && r.value.ChaveIdempotencia == chave
    ensures r.None? <==> forall k :: k in keys ==> k.ChaveIdempotencia != chave
  {
    if keys == [] then None
    else if keys[0].ChaveIdempotencia == chave then Some(keys[0])
    else FindKey(keys[1..], chave)
  }

  /** Cards whose identifier is among ids, in the order of the table. */
  function WithIds(cards: seq<CardRow>, ids: seq<Guid>): (r: seq<CardRow>)
    ensures forall c :: c in r <==> c in cards && c.Id in ids
  {
    Filter(cards, (c: CardRow) => c.Id in ids)
  }

  /** The rows of one customer (or proposal), newest first. */
  function NewestFirst(rows: seq<CardRow>): (r: seq<CardRow>)
    ensures multiset(r) == multiset(rows)
    ensures forall c :: c in r <==> c in rows
    ensures SortedBy(r, RowCreated, false)
  {
    var r := SortBy(rows, RowCreated, false);
    assert forall c :: c in r <==> c in multiset(rows);
    r
  }

  /** The table after an UPDATE of the row with the card's identifier. */
  function Replace(cards: seq<CardRow>, row: CardRow): (r: seq<CardRow>)
    ensures |r| == |cards|
    ensures forall i :: 0 <= i < |cards| ==> r[i] == if cards[i].Id == row.Id then row else cards[i]
  {
    seq(|cards|, i requires 0 <= i < |cards| => if cards[i].Id == row.Id then row else cards[i])
  }

  /** The primary key on Cards and the unique index on the idempotency key. */
  ghost predicate TablesValid(cards: seq<CardRow>, keys: seq<CardIdempotencyKey>) {
    && (forall i, j :: 0 <= i < j < |cards| ==> cards[i].Id != cards[j].Id)
    && (forall i, j :: 0 <= i < j < |keys| ==> keys[i].ChaveIdempotencia != keys[j].ChaveIdempotencia)
    && (forall i, j :: 0 <= i < j < |keys| ==> keys[i].Id != keys[j].Id)
  }

  /** What replay returns for a key: nothing without a record or when the stored
      list does not decode, otherwise the stored cards whose identifier is listed. */
  function CardsForKey(cards: seq<CardRow>, keys: seq<CardIdempotencyKey>, chave: string): seq<CardRow> {
    match FindKey(keys, chave)
    case None => []
    case Some(k) =>
      match DecodeIds(k.CartoesIds)
      case None => []
      case Some(ids) => WithIds(cards, ids)
  }

  /** After a key is registered with a list of identifiers, replay by that key
      returns exactly the stored cards with those identifiers. */
  lemma ReplayAfterRegistration(cards: seq<CardRow>, keys: seq<CardIdempotencyKey>, k: CardIdempotencyKey, ids: seq<Guid>)
    requires FindKey(keys, k.ChaveIdempotencia).None?
    requires k.CartoesIds == EncodeIds(ids)
    ensures CardsForKey(cards, keys + [k], k.ChaveIdempotencia) == WithIds(cards, ids)
  {
    FindKeyAppend(keys, k);
    DecodeEncodeIds(ids);
  }

  lemma {:induction false} FindKeyAppend(keys: seq<CardIdempotencyKey>, k: CardIdempotencyKey)
    requires FindKey(keys, k.ChaveIdempotencia).None?
    ensures FindKey(keys + [k], k.ChaveIdempotencia) == Some(k)
  {
    if keys != [] {
      assert (keys + [k])[1..] == keys[1..] + [k];
      FindKeyAppend(keys[1..], k);
    }
  }

  /** Replay returns cards in table order, not in the order they were registered. */
  lemma ReplayInTableOrder(a: CardRow, b: CardRow, keyRow: CardIdempotencyKey)
    requires a.Id != b.Id
    requires keyRow.CartoesIds == EncodeIds([b.Id, a.Id])
    ensures CardsForKey([a, b], [keyRow], keyRow.ChaveIdempotencia) == [a, b]
  {
    DecodeEncodeIds([b.Id, a.Id]);
    assert [a, b][1..] == [b];
  }

  /** Why RegistrarIdempotenciaAsync refuses a key, given the table and the
      identifier drawn for the new record: a blank key, a key already recorded
      (the unique index), or an identifier already present (the primary key). */
  function RegistrationError(keys: seq<CardIdempotencyKey>, chave: string, id: Guid): Option<Error> {
    if KeyCreationError(chave).Some? then KeyCreationError(chave)
    else if FindKey(keys, chave).Some? then Some(DbUpdate("UNIQUE constraint failed: CardIdempotencyKeys.ChaveIdempotencia"))
    else if exists j :: j in keys && j.Id == id then Some(DbUpdate("UNIQUE constraint failed: CardIdempotencyKeys.Id"))
    else None
  }

  /** The key table after a registration: one record appended unless refused. */
  function Registered(keys: seq<CardIdempotencyKey>, chave: string, ids: seq<Guid>, now: DateTime, id: Guid): seq<CardIdempotencyKey> {
    if RegistrationError(keys, chave, id).None? then keys + [CardIdempotencyKey(id, chave, EncodeIds(ids), now, true)]
    else keys
  }

  class CardRepository {
    var cards: seq<CardRow>
    var keys: seq<CardIdempotencyKey>
    const guids: GuidSource

    ghost predicate Valid()
      reads this
    {
      TablesValid(cards, keys)
    }

    constructor (guids: GuidSource)
      ensures cards == [] && keys == [] && this.guids == guids && Valid()
    {
      cards := [];
      keys := [];
      this.guids := guids;
    }

    /** AdicionarAsync: inserts the card's row; a null card throws, and an identifier
        already in the table is refused by the primary key. */
    method AdicionarAsync(card: Card?) returns (o: Outcome)
      requires Valid()
      modifies this
      ensures Valid() && keys == old(keys)
      ensures card == null ==> o == Fail(ArgumentNull("card")) && cards == old(cards)
      ensures card != null && FindById(old(cards), card.Id).Some? ==>
                o == Fail(DbUpdate("UNIQUE constraint failed: Cards.Id")) && cards == old(cards)
      ensures card != null && FindById(old(cards), card.Id).None? ==>
                o == Pass && cards == old(cards) + [card.Row()]
    {
      if card == null {
        return Fail(ArgumentNull("card"));
      }
      if FindById(cards, card.Id).Some? {
        return Fail(DbUpdate("UNIQUE constraint failed: Cards.Id"));
      }
      cards := cards + [card.Row()];
      return Pass;
    }

    /** ObterPorIdAsync: the stored card with that identifier, materialised, or null. */
    method ObterPorIdAsync(id: Guid) returns (card: Card?)
      ensures FindById(cards, id).None? ==> card == null
      ensures FindById(cards, id).Some? ==> card != null && fresh(card) && card.Row() == FindById(cards, id).value
    {
      var row := FindById(cards, id);
      if row.None? {
        return null;
      }
      card := new Card.FromRow(row.value);
    }

    /** ObterPorClienteAsync: that customer's cards, newest first. */
    function ObterPorClienteAsync(clienteId: Guid): (r: seq<CardRow>)
      reads this
      ensures forall c :: c in r <==> c in cards && c.ClienteId == clienteId
      ensures SortedBy(r, RowCreated, false)
    {
      NewestFirst(Filter(cards, (c: CardRow) => c.ClienteId == clienteId))
    }

    /** ObterPorPropostaAsync: the cards of a proposal, newest first. */
    function ObterPorPropostaAsync(propostaId: Guid): (r: seq<CardRow>)
      reads this
      ensures forall c :: c in r <==> c in cards && c.PropostaId == propostaId
      ensures SortedBy(r, RowCreated, false)
    {
      NewestFirst(Filter(cards, (c: CardRow) => c.PropostaId == propostaId))
    }

    /** AtualizarAsync: writes the card's state over its row; a null card throws, and
        a card with no row updates nothing, which SaveChanges reports as a failure. */
    method AtualizarAsync(card: Card?) returns (o: Outcome)
      requires Valid()
      modifies this
      ensures Valid() && keys == old(keys)
      ensures card == null ==> o == Fail(ArgumentNull("card")) && cards == old(cards)
      ensures card != null && FindById(old(cards), card.Id).None? ==>
                o == Fail(DbUpdate("0 rows affected")) && cards == old(cards)
      ensures card != null && FindById(old(cards), card.Id).Some? ==>
                o == Pass && cards == Replace(old(cards), card.Row())
    {
      if card == null {
        return Fail(ArgumentNull("card"));
      }
      if FindById(cards, card.Id).None? {
        return Fail(DbUpdate("0 rows affected"));
      }
      cards := Replace(cards, card.Row());
      return Pass;
    }

    /** ExisteChaveIdempotenciaAsync: a record with exactly this key string exists. */
    predicate ExisteChaveIdempotenciaAsync(chave: string)
      reads this
    {
      exists k :: k in keys && k.ChaveIdempotencia == chave
    }

    /** ObterPorChaveIdempotenciaAsync. */
    function ObterPorChaveIdempotenciaAsync(chave: string): (r: seq<CardRow>)
      reads this
      ensures !ExisteChaveIdempotenciaAsync(chave) ==> r == []
      ensures forall c :: c in r ==> c in cards
    {
      CardsForKey(cards, keys, chave)
    }

    /** RegistrarIdempotenciaAsync: builds the record, which rejects a blank key, and
        inserts it; the unique index refuses a key already recorded. */
    method RegistrarIdempotenciaAsync(chave: string, ids: seq<Guid>, now: DateTime) returns (o: Outcome)
      requires Valid()
      modifies this, guids
      ensures Valid() && cards == old(cards)
      ensures KeyCreationError(chave).Some? ==>
                o == Fail(KeyCreationError(chave).value) && keys == old(keys) && guids.issued == old(guids.issued)
      ensures KeyCreationError(chave).None? ==> guids.issued == old(guids.issued) + 1
      ensures KeyCreationError(chave).None? && old(ExisteChaveIdempotenciaAsync(chave)) ==>
                o == Fail(DbUpdate("UNIQUE constraint failed: CardIdempotencyKeys.ChaveIdempotencia"))
                && keys == old(keys)
      ensures KeyCreationError(chave).None? && !old(ExisteChaveIdempotenciaAsync(chave)) ==>
                var id := guids.values(old(guids.issued));
                && (o.Pass? <==> forall k :: k in old(keys) ==> k.Id != id)
                && (o.Pass? ==> keys == old(keys) + [CardIdempotencyKey(id, chave, EncodeIds(ids), now, true)])
                && (o.Fail? ==> o == Fail(DbUpdate("UNIQUE constraint failed: CardIdempotencyKeys.Id")) && keys == old(keys))
      ensures var id := guids.values(old(guids.issued));
              && keys == Registered(old(keys), chave, ids, now, id)
              && (o.Pass? <==> RegistrationError(old(keys), chave, id).None?)
              && (o.Fail? ==> RegistrationError(old(keys), chave, id) == Some(o.error))
    {
      var created := IdempotencyKeys.Criar(chave, ids, now, guids);
      if created.Failure? {
        return Fail(created.error);
      }
      var k := created.value;
      if FindKey(keys, chave).Some? {
        return Fail(DbUpdate("UNIQUE constraint failed: CardIdempotencyKeys.ChaveIdempotencia"));
      }
      if exists j :: j in keys && j.Id == k.Id {
        return Fail(DbUpdate("UNIQUE constraint failed: CardIdempotencyKeys.Id"));
      }
      keys := keys + [k];
      return Pass;
    }
  }

  /** Registering the same key twice: once the first registration of `chave`
      has succeeded, a second one, whatever its identifiers, instant and drawn
      identifier, is refused by the unique index and leaves the table as it was. */
  lemma SecondRegistrationRefused(keys: seq<CardIdempotencyKey>, chave: string,
                                  ids1: seq<Guid>, now1: DateTime, id1: Guid,
                                  ids2: seq<Guid>, now2: DateTime, id2: Guid)
    requires RegistrationError(keys, chave, id1).None?
    ensures var keys1 := Registered(keys, chave, ids1, now1, id1);
            && keys1 != keys
            && RegistrationError(keys1, chave, id2)
               == Some(DbUpdate("UNIQUE constraint failed: CardIdempotencyKeys.ChaveIdempotencia"))
            && Registered(keys1, chave, ids2, now2, id2) == keys1
  {
    var k := CardIdempotencyKey(id1, chave, EncodeIds(ids1), now1, true);
    FindKeyAppend(keys, k);
    assert |Registered(keys, chave, ids1, now1, id1)| == |keys| + 1;
  }
}
