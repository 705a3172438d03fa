/** The idempotency record: a caller's key and the identifiers of the cards
    issued for it, the identifiers kept as a JSON array of "D"-form strings. */
module IdempotencyKeys {
  import opened Common
  import opened Guids
  import opened DateTimes
  import Json

  /** A row of the CardIdempotencyKeys table. */
  datatype CardIdempotencyKey = CardIdempotencyKey(
    Id: Guid,
    ChaveIdempotencia: string,
    CartoesIds: string,
    DataCriacao: DateTime,
    Ativo: bool)

  function IdValues(ids: seq<Guid>): (vs: seq<Json.Value>)
    ensures |vs| == |ids|
    ensures forall i :: 0 <= i < |ids| ==> vs[i] == Json.Str(FormatD(ids[i]))
  {
    seq(|ids|, i requires 0 <= i < |ids| => Json.Str(FormatD(ids[i])))
  }

  /** JsonSerializer.Serialize of a list of identifiers. */
  function EncodeIds(ids: seq<Guid>): string {
    Json.Write(Json.Arr(IdValues(ids)))
  }

  /** JsonSerializer.Deserialize into a list of identifiers, for the literal null
      and for arrays written without spaces; None where the serializer would throw. */
  function DecodeIds(s: string): (r: Option<seq<Guid>>)
    ensures s == "[]" || s == "null" ==> r == Some([])
  {
    if s == "null" || s == "[]" then Some([])
    else if |s| >= 2 && s[0] == '[' && s[|s| - 1] == ']' then DecodeItems(s[1..|s| - 1])
    else None
  }

  /** One or more quoted "D"-form identifiers separated by commas. */
  function DecodeItems(t: string): Option<seq<Guid>>
    decreases |t|
  {
    if |t| < 38 || t[0] != '"' || t[37] != '"' then None
    else match ParseD(t[1..37])
      case None => None
      case Some(g) =>
        if |t| == 38 then Some([g])
        else if t[38] != ',' then None
        else match DecodeItems(t[39..])
          case None => None
          case Some(rest) => Some([g] + rest)
  }

  lemma QuotedId(g: Guid, rest: string)
    ensures var t := Json.Quote(FormatD(g)) + rest;
            |t| == 38 + |rest| && t[0] == '"' && t[37] == '"' && t[1..37] == FormatD(g) && t[38..] == rest
  {
  }

  lemma WriteIdItems(ids: seq<Guid>)
    requires ids != []
    ensures Json.WriteItems(IdValues(ids)) ==
              Json.Quote(FormatD(ids[0])) + (if |ids| == 1 then "" else "," + Json.WriteItems(IdValues(ids[1..])))
  {
    assert IdValues(ids)[1..] == IdValues(ids[1..]);
  }

  /** A single quoted identifier reads back as that identifier. */
  lemma DecodeOneItem(g: Guid)
    ensures DecodeItems(Json.Quote(FormatD(g))) == Some([g])
  {
    QuotedId(g, "");
    var q := Json.Quote(FormatD(g));
    assert q + "" == q;
    ParseFormatD(g);
  }

  /** A quoted identifier, a comma and a readable rest read back as that identifier
      followed by the rest. */
  lemma DecodeConsItem(g: Guid, tail: string, rest: seq<Guid>)
    requires DecodeItems(tail) == Some(rest)
    ensures DecodeItems(Json.Quote(FormatD(g)) + ("," + tail)) == Some([g] + rest)
  {
    var t := Json.Quote(FormatD(g)) + ("," + tail);
    QuotedId(g, "," + tail);
    assert t[38] == ',' && t[39..] == tail by {
      assert t[38..] == "," + tail;
      assert ("," + tail)[1..] == tail;
    }
    ParseFormatD(g);
  }

  lemma {:induction false} DecodeWrittenItems(ids: seq<Guid>)
    requires ids != []
    ensures DecodeItems(Json.WriteItems(IdValues(ids))) == Some(ids)
    decreases |ids|
  {
    var q := Json.Quote(FormatD(ids[0]));
    if |ids| == 1 {
      assert Json.WriteItems(IdValues(ids)) == q by {
        WriteIdItems(ids);
        assert q + "" == q;
      }
      DecodeOneItem(ids[0]);
      assert ids == [ids[0]];
    } else {
      var tail := Json.WriteItems(IdValues(ids[1..]));
      assert Json.WriteItems(IdValues(ids)) == q + ("," + tail) by {
        WriteIdItems(ids);
      }
      DecodeWrittenItems(ids[1..]);
      DecodeConsItem(ids[0], tail, ids[1..]);
      assert [ids[0]] + ids[1..] == ids;
    }
  }

  /** Reading the stored list back gives the identifiers that were registered, in order. */
  lemma DecodeEncodeIds(ids: seq<Guid>)
    ensures DecodeIds(EncodeIds(ids)) == Some(ids)
  {
    if ids != [] {
      var items := Json.WriteItems(IdValues(ids));
      WriteIdItems(ids);
      QuotedId(ids[0], if |ids| == 1 then "" else "," + Json.WriteItems(IdValues(ids[1..])));
      assert |items| >= 38;
      var s := "[" + items + "]";
      assert EncodeIds(ids) == s;
      assert s[0] == '[' && s[|s| - 1] == ']' && |s| > 4;
      assert s[1..|s| - 1] == items;
      DecodeWrittenItems(ids);
    } else {
      assert IdValues(ids) == [] && Json.WriteItems([]) == "";
      assert EncodeIds(ids) == "[]";
    }
  }

  /** The exception CardIdempotencyKey.Criar throws for a key, if any. */
  function KeyCreationError(chave: string): (e: Option<Error>)
    ensures e.None? <==> !IsBlank(chave)
  {
    if IsBlank(chave) then Some(Argument("ChaveIdempotencia não pode estar vazia")) else None
  }

  /** CardIdempotencyKey.Criar: the key kept verbatim with the serialized identifiers,
      an empty list included. */
  method Criar(chave: string, ids: seq<Guid>, now: DateTime, guids: GuidSource)
    returns (r: Result<CardIdempotencyKey>)
    modifies guids
    ensures KeyCreationError(chave).Some? ==>
              r == Failure(KeyCreationError(chave).value) && guids.issued == old(guids.issued)
    ensures KeyCreationError(chave).None? ==>
              && guids.issued == old(guids.issued) + 1
              && r == Success(CardIdempotencyKey(guids.values(old(guids.issued)), chave, EncodeIds(ids), now, true))
  {
    var e := KeyCreationError(chave);
    if e.Some? {
      return Failure(e.value);
    }
    var id := guids.NewGuid();
    return Success(CardIdempotencyKey(id, chave, EncodeIds(ids), now, true));
  }
}
