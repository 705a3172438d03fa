/** Card activation: the request checks, the card lookup, the state and expiry
    check, the credential check, then the card turned ACTIVE and persisted and one
    card.activated entry appended to the outbox. */
module CardActivation {
  import opened Common
  import opened Guids
  import opened DateTimes
  import opened Cards
  import opened CardRepositories
  import opened OutboxEvents
  import opened OutboxRepositories
  import opened CardIssuanceRules
  import Json

  const CARD_ACTIVATED := "card.activated"

  /** The request body: the one-time code or CVV, the channel and the correlation. */
  datatype CardActivationRequest = CardActivationRequest(OtpOuCvv: string, Canal: string, CorrelacaoId: string)

  datatype CardActivationResponse = CardActivationResponse(
    IdCartao: Guid,
    ClienteId: Guid,
    Status: string,
    DataAtivacao: DateTime,
    CanalAtivacao: string,
    CorrelacaoId: string)

  /** The channels the service accepts: a strict subset of those the card accepts. */
  predicate IsServiceChannel(c: string) {
    c == APP || c == OTP
  }

  /** ValidarRequisicao: the exception it throws, if any, checks in source order. */
  function ValidarRequisicao(request: Option<CardActivationRequest>): (e: Option<Error>)
    ensures e.None? <==>
              && request.Some? && !IsBlank(request.value.OtpOuCvv)
              && IsServiceChannel(request.value.Canal) && !IsBlank(request.value.CorrelacaoId)
    ensures e.Some? ==> e.value.ArgumentNull? || e.value.Argument?
  {
    if request.None? then Some(ArgumentNull("request"))
    else
      var r := request.value;
      if IsBlank(r.OtpOuCvv) then Some(Argument("OtpOuCvv não pode estar vazio"))
      else if IsBlank(r.Canal) then
        ServiceChannelNotBlank(r.Canal);
        Some(Argument("Canal não pode estar vazio"))
      else if !IsServiceChannel(r.Canal) then Some(Argument("Canal inválido. Deve ser APP ou OTP"))
      else if IsBlank(r.CorrelacaoId) then Some(Argument("CorrelacaoId não pode estar vazio"))
      else None
  }

  /** ValidarCredenciais: any non-blank code of three to six Unicode decimal digits. */
  function ValidarCredenciais(otpOuCvv: string): (e: Option<Error>)
    ensures e.None? <==> 3 <= |otpOuCvv| <= 6 && forall i :: 0 <= i < |otpOuCvv| ==> IsUnicodeDigit(otpOuCvv[i])
    ensures e.Some? ==> e.value.InvalidOperation?
  {
    if IsBlank(otpOuCvv) then
      BlankIsNotDigits(otpOuCvv);
      Some(InvalidOperation("OTP/CVV inválido ou expirado"))
    else if |otpOuCvv| < 3 || |otpOuCvv| > 6 || !(forall i :: 0 <= i < |otpOuCvv| ==> IsUnicodeDigit(otpOuCvv[i])) then
      Some(InvalidOperation("OTP/CVV em formato inválido"))
    else None
  }

  /** An accepted code lies inside the Basic Multilingual Plane, so its length in
      characters is also its length in UTF-16 code units. */
  lemma AcceptedCodeIsBmp(otpOuCvv: string)
    requires ValidarCredenciais(otpOuCvv).None?
    ensures Utf16Length(otpOuCvv) == |otpOuCvv|
  {
    forall i | 0 <= i < |otpOuCvv| ensures otpOuCvv[i] as int <= 0xFFFF {
      DigitIsBmp(otpOuCvv[i]);
    }
    Utf16LengthBmp(otpOuCvv);
  }

  /** No Unicode decimal digit is white space. */
  lemma DigitIsNotWhiteSpace(c: char)
    requires IsUnicodeDigit(c)
    ensures !IsWhiteSpace(c)
  {
  }

  /** A blank code is not a non-empty run of digits. */
  lemma BlankIsNotDigits(s: string)
    requires IsBlank(s)
    ensures !(|s| > 0 && forall i :: 0 <= i < |s| ==> IsUnicodeDigit(s[i]))
  {
    if |s| > 0 && IsUnicodeDigit(s[0]) {
      DigitIsNotWhiteSpace(s[0]);
    }
  }

  lemma ServiceChannelNotBlank(c: string)
    ensures IsServiceChannel(c) ==> !IsBlank(c)
  {
    if IsServiceChannel(c) {
      assert !IsWhiteSpace(c[0]);
    }
  }

  /** A request that passes validation reaches ValidarCredenciais with a non-blank
      code, so the "inválido ou expirado" branch is never taken from the service. */
  lemma BlankCredentialUnreachable(request: CardActivationRequest)
    requires ValidarRequisicao(Some(request)).None?
    ensures ValidarCredenciais(request.OtpOuCvv) != Some(InvalidOperation("OTP/CVV inválido ou expirado"))
  {
  }

  /** PodeSerAtivado on a stored row. */
  predicate RowActivatable(c: CardRow, now: DateTime)
    requires IsActivatableStatus(c.Status) ==> 1 <= c.MesValidade <= 12
  {
    IsActivatableStatus(c.Status) && !Expired(c.AnoValidade, c.MesValidade, now)
  }

  /** The exception AtivarCartãoAsync throws for card idCartao, or None when it
      activates it: the request checks, the lookup, the expiry computation (which
      throws for a month outside 1..12 once the status allows activation), the state,
      then the credential. */
  function ActivationError(cards: seq<CardRow>, idCartao: Guid, request: Option<CardActivationRequest>,
                           now: DateTime): (e: Option<Error>)
    ensures e.None? ==> FindById(cards, idCartao).Some? && ValidarRequisicao(request).None?
    ensures ValidarRequisicao(request).Some? ==> e == ValidarRequisicao(request)
  {
    if ValidarRequisicao(request).Some? then ValidarRequisicao(request)
    else match FindById(cards, idCartao)
      case None => Some(KeyNotFound("Cartão " + FormatD(idCartao) + " não encontrado"))
      case Some(c) =>
        if IsActivatableStatus(c.Status) && !(1 <= c.MesValidade <= 12) then Some(ArgumentOutOfRange)
        else if !RowActivatable(c, now) then
          Some(InvalidOperation("Cartão não pode ser ativado. Status atual: " + c.Status))
        else ValidarCredenciais(request.value.OtpOuCvv)
  }

  /** The row of the card once activated through channel canal at now. */
  function ActivatedRow(c: CardRow, canal: string, now: DateTime): CardRow {
    c.(Status := ACTIVE, CanalAtivacao := Some(canal), DataAtivacao := Some(now))
  }

  /** The card.activated event as the anonymous object declares its members. */
  function ActivatedEventValue(c: CardRow, request: CardActivationRequest): Json.Value
    requires c.DataAtivacao.Some? ==> DateTimes.Valid(c.DataAtivacao.value)
  {
    Json.Obj([
      Json.Member("CardId", Json.Str(FormatD(c.Id))),
      Json.Member("ClienteId", Json.Str(FormatD(c.ClienteId))),
      Json.Member("Status", Json.Str(c.Status)),
      Json.Member("AtivoEm", if c.DataAtivacao.Some? then Json.Str(IsoUtc(c.DataAtivacao.value)) else Json.Null),
      Json.Member("CanalAtivacao", Json.Str(request.Canal)),
      Json.Member("CorrelacaoId", Json.Str(request.CorrelacaoId))])
  }

  function ActivatedEventPayload(c: CardRow, request: CardActivationRequest): (p: string)
    requires c.DataAtivacao.Some? ==> DateTimes.Valid(c.DataAtivacao.value)
    ensures !IsBlank(p)
  {
    Json.Write(ActivatedEventValue(c, request))
  }

  /** The event names the card, its new status and the channel of the request. */
  lemma ActivatedEventFields(c: CardRow, request: CardActivationRequest, now: DateTime)
    requires DateTimes.Valid(now)
    ensures var v := ActivatedEventValue(ActivatedRow(c, request.Canal, now), request);
            && Json.Field(v, "CardId") == Json.Str(FormatD(c.Id))
            && Json.Field(v, "Status") == Json.Str(ACTIVE)
            && Json.Field(v, "AtivoEm") == Json.Str(IsoUtc(now))
            && Json.Field(v, "CanalAtivacao") == Json.Str(request.Canal)
  {
    var ms := ActivatedEventValue(ActivatedRow(c, request.Canal, now), request).fields;
    ActivatedMemberLookup(ms);
  }

  /** Looking a name up in a member list laid out as the card.activated event. */
  lemma ActivatedMemberLookup(ms: seq<Json.Member>)
    requires |ms| == 6
    requires ms[0].name == "CardId" && ms[1].name == "ClienteId" && ms[2].name == "Status"
    requires ms[3].name == "AtivoEm" && ms[4].name == "CanalAtivacao" && ms[5].name == "CorrelacaoId"
    ensures Json.FieldIn(ms, "CardId") == ms[0].value
    ensures Json.FieldIn(ms, "Status") == ms[2].value
    ensures Json.FieldIn(ms, "AtivoEm") == ms[3].value
    ensures Json.FieldIn(ms, "CanalAtivacao") == ms[4].value
  {
    assert "CardId" != "Status" && "ClienteId" != "Status" by {
      assert "CardId"[0] != "Status"[0] && "ClienteId"[0] != "Status"[0];
    }
    Json.FieldAt(ms, 2, "Status");
    assert "CardId" != "AtivoEm" && "ClienteId" != "AtivoEm" && "Status" != "AtivoEm" by {
      assert "CardId"[0] != "AtivoEm"[0] && "ClienteId"[0] != "AtivoEm"[0] && "Status"[0] != "AtivoEm"[0];
    }
    Json.FieldAt(ms, 3, "AtivoEm");
    assert "CardId" != "CanalAtivacao" && "ClienteId" != "CanalAtivacao" by {
      assert "CardId"[2] != "CanalAtivacao"[2] && "ClienteId"[1] != "CanalAtivacao"[1];
    }
    assert "Status" != "CanalAtivacao" && "AtivoEm" != "CanalAtivacao" by {
      assert "Status"[0] != "CanalAtivacao"[0] && "AtivoEm"[0] != "CanalAtivacao"[0];
    }
    Json.FieldAt(ms, 4, "CanalAtivacao");
  }

  /** The outbox's identifier source never repeats and has not yet handed out any
      identifier in use in the table. */
  ghost predicate EventIdsFresh(events: seq<OutboxRow>, values: nat -> Guid, issued: nat) {
    forall i, e :: issued <= i && e in events ==> e.Id != values(i)
  }

  class CardActivationService {
    const cardRepository: CardRepository
    const outboxRepository: OutboxRepository

    ghost predicate Valid()
      reads this, cardRepository, outboxRepository, outboxRepository.guids
    {
      && cardRepository.Valid() && outboxRepository.Valid()
      && Unique(outboxRepository.guids.values)
      && EventIdsFresh(outboxRepository.events, outboxRepository.guids.values, outboxRepository.guids.issued)
    }

    constructor (cardRepository: CardRepository, outboxRepository: OutboxRepository)
      ensures this.cardRepository == cardRepository && this.outboxRepository == outboxRepository
    {
      this.cardRepository := cardRepository;
      this.outboxRepository := outboxRepository;
    }

    /** AtivarCartãoAsync. Whatever it throws, it throws before anything is stored.
        On success only the activated card's row changes, to ACTIVE with the
        request's channel and the current instant, exactly one card.activated entry
        joins the outbox, and the response echoes the card and the request. */
    method AtivarCartao(idCartao: Guid, request: Option<CardActivationRequest>, now: DateTime)
      returns (r: Result<CardActivationResponse>)
      requires Valid() && DateTimes.Valid(now)
      modifies cardRepository, outboxRepository, outboxRepository.guids
      ensures Valid()
      ensures cardRepository.keys == old(cardRepository.keys)
      ensures var e := ActivationError(old(cardRepository.cards), idCartao, request, now);
              e.Some? ==>
                && r == Failure(e.value)
                && cardRepository.cards == old(cardRepository.cards)
                && outboxRepository.events == old(outboxRepository.events)
                && outboxRepository.guids.issued == old(outboxRepository.guids.issued)
      ensures ActivationError(old(cardRepository.cards), idCartao, request, now).None? ==>
                var req := request.value;
                var a := ActivatedRow(FindById(old(cardRepository.cards), idCartao).value, req.Canal, now);
                && cardRepository.cards == Replace(old(cardRepository.cards), a)
                && outboxRepository.events == old(outboxRepository.events)
                     + [OutboxRow(outboxRepository.guids.values(old(outboxRepository.guids.issued)), CARD_ACTIVATED,
                                  ActivatedEventPayload(a, req), now, None, true)]
                && r == Success(CardActivationResponse(a.Id, a.ClienteId, ACTIVE, now, req.Canal, req.CorrelacaoId))
    {
      var e := ValidarRequisicao(request);
      if e.Some? {
        return Failure(e.value);
      }
      var req := request.value;
      var card := cardRepository.ObterPorIdAsync(idCartao);
      if card == null {
        return Failure(KeyNotFound("Cartão " + FormatD(idCartao) + " não encontrado"));
      }
      if IsActivatableStatus(card.Status) && !(1 <= card.MesValidade <= 12) {
        return Failure(ArgumentOutOfRange);
      }
      if !card.PodeSerAtivado(now) {
        return Failure(InvalidOperation("Cartão não pode ser ativado. Status atual: " + card.Status));
      }
      var c := ValidarCredenciais(req.OtpOuCvv);
      if c.Some? {
        return Failure(c.value);
      }
      ghost var stored := card.Row();
      var activated := card.Ativar(req.Canal, now);
      assert card.Row() == ActivatedRow(stored, req.Canal, now);
      var updated := cardRepository.AtualizarAsync(card);
      r := PublicarEventoAtivacao(card, req, now);
    }

    /** PublicarEventoAtivacaoAsync followed by the response: the card.activated
        entry for the card as it now stands. */
    method PublicarEventoAtivacao(card: Card, req: CardActivationRequest, now: DateTime)
      returns (r: Result<CardActivationResponse>)
      requires outboxRepository.Valid() && DateTimes.Valid(now)
      requires Unique(outboxRepository.guids.values)
      requires EventIdsFresh(outboxRepository.events, outboxRepository.guids.values, outboxRepository.guids.issued)
      requires card.Status == ACTIVE && card.DataAtivacao == Some(now) && card.CanalAtivacao == Some(req.Canal)
      modifies outboxRepository, outboxRepository.guids
      ensures outboxRepository.Valid()
      ensures EventIdsFresh(outboxRepository.events, outboxRepository.guids.values, outboxRepository.guids.issued)
      ensures outboxRepository.events == old(outboxRepository.events)
                + [OutboxRow(outboxRepository.guids.values(old(outboxRepository.guids.issued)), CARD_ACTIVATED,
                             ActivatedEventPayload(card.Row(), req), now, None, true)]
      ensures r == Success(CardActivationResponse(card.Id, card.ClienteId, ACTIVE, now, req.Canal, req.CorrelacaoId))
    {
      ghost var values := outboxRepository.guids.values;
      ghost var g := outboxRepository.guids.issued;
      ghost var events0 := outboxRepository.events;
      var payload := ActivatedEventPayload(card.Row(), req);
      assert OutboxCreationError(CARD_ACTIVATED, payload).None? by {
        assert !IsWhiteSpace(CARD_ACTIVATED[0]);
      }
      // The identifier is drawn fresh, so the insert cannot clash.
      assert forall e :: e in events0 ==> e.Id != values(g);
      var o := outboxRepository.AdicionarAsync(CARD_ACTIVATED, payload, now);
      forall i, e | g + 1 <= i && e in outboxRepository.events ensures e.Id != values(i) {
        if e !in events0 {
          assert e.Id == values(g);
        }
      }
      return Success(CardActivationResponse(card.Id, card.ClienteId, card.Status, card.DataAtivacao.value,
                                            card.CanalAtivacao.value, req.CorrelacaoId));
    }
  }

  /** FIRST_PURCHASE, which the card itself accepts, is never the channel of a card
      activated through this service. */
  lemma FirstPurchaseUnreachable(request: Option<CardActivationRequest>)
    requires ValidarRequisicao(request).None?
    ensures request.value.Canal != FIRST_PURCHASE && IsActivationChannel(request.value.Canal)
  {
  }

  /** Once the service has activated a card, a second request for it, however
      valid, is refused by the state check. */
  lemma SecondActivationRefused(cards: seq<CardRow>, idCartao: Guid, request: Option<CardActivationRequest>,
                                again: Option<CardActivationRequest>, now: DateTime, later: DateTime)
    requires forall i, j :: 0 <= i < j < |cards| ==> cards[i].Id != cards[j].Id
    requires ActivationError(cards, idCartao, request, now).None?
    requires ValidarRequisicao(again).None?
    ensures var a := ActivatedRow(FindById(cards, idCartao).value, request.value.Canal, now);
            ActivationError(Replace(cards, a), idCartao, again, later)
              == Some(InvalidOperation("Cartão não pode ser ativado. Status atual: ACTIVE"))
  {
    var a := ActivatedRow(FindById(cards, idCartao).value, request.value.Canal, now);
    FindAfterReplace(cards, a);
    ActiveRowRefused(Replace(cards, a), a, again, later);
  }

  /** A stored ACTIVE row is refused by the state check. */
  lemma ActiveRowRefused(cards: seq<CardRow>, a: CardRow, again: Option<CardActivationRequest>, later: DateTime)
    requires FindById(cards, a.Id) == Some(a) && a.Status == ACTIVE
    requires ValidarRequisicao(again).None?
    ensures ActivationError(cards, a.Id, again, later)
              == Some(InvalidOperation("Cartão não pode ser ativado. Status atual: ACTIVE"))
  {
    assert !IsActivatableStatus(a.Status);
    assert "Cartão não pode ser ativado. Status atual: " + a.Status == "Cartão não pode ser ativado. Status atual: ACTIVE";
  }

  /** After an update of the row with a's identifier, looking that identifier up
      finds a, when identifiers are distinct and the row was there. */
  lemma {:induction false} FindAfterReplace(cards: seq<CardRow>, a: CardRow)
    requires forall i, j :: 0 <= i < j < |cards| ==> cards[i].Id != cards[j].Id
    requires FindById(cards, a.Id).Some?
    ensures FindById(Replace(cards, a), a.Id) == Some(a)
  {
    if cards[0].Id != a.Id {
      assert Replace(cards, a)[1..] == Replace(cards[1..], a);
      FindAfterReplace(cards[1..], a);
    }
  }

  /** Activation changes only the activated card: every other row stays as it was. */
  lemma ActivationTouchesOneCard(cards: seq<CardRow>, idCartao: Guid, request: Option<CardActivationRequest>, now: DateTime)
    requires ActivationError(cards, idCartao, request, now).None?
    ensures var a := ActivatedRow(FindById(cards, idCartao).value, request.value.Canal, now);
            forall i :: 0 <= i < |cards| && cards[i].Id != idCartao ==> Replace(cards, a)[i] == cards[i]
  {
  }
}
