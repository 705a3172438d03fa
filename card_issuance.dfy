/** The issuance service: validates a request, replays it when its idempotency
    key is known, otherwise generates, tokenises and stores one or two cards,
    records the key and leaves a card.issued event in the outbox. */
module CardIssuance {
  import opened Common
  import opened Guids
  import opened DateTimes
  import opened Seqs
  import opened Cards
  import opened IdempotencyKeys
  import opened PanGenerator
  import opened TokenVaults
  import opened CardRepositories
  import opened OutboxEvents
  import opened OutboxRepositories
  import opened CardIssuanceRules

  /** The topic the service writes to the outbox. */
  const CARD_ISSUED: string := "card.issued"

  /** The exception EmitirCartao throws for a validated request, if any. Every
      card of a request takes the same BIN, key and validity, so the first card
      fails exactly when every card would: a PAN request the generator refuses,
      a BIN that is not all digits, a BIN too long for a 16-digit number, a key
      AES will not install, and a validity that lands in the past. */
  function IssueError(bin: string, key: string, anos: int): (e: Option<Error>)
    ensures e.None? <==> 6 <= |bin| <= 15 && AllDigits(bin) && KeyInstallable(key) && anos >= 0
  {
    if PanArgumentError(bin, 16).Some? then
      assert |bin| > 0 && AllDigits(bin) ==> !IsWhiteSpace(bin[0]);
      PanArgumentError(bin, 16)
    else if !AllDigits(bin) then Some(Format)
    else if |bin| >= 16 then Some(Argument("PAN deve ter exatamente 16 dígitos"))
    else if !KeyInstallable(key) then Some(Cryptographic)
    else if anos < 0 then Some(Argument("AnoValidade deve ser no futuro"))
    else None
  }

  /** The validity is checked last: with zero years only the other checks can fail,
      and once they pass, a negative number of years is the one failure left. */
  lemma IssueErrorYearsLast(bin: string, key: string, anos: int)
    ensures IssueError(bin, key, 0).Some? ==> IssueError(bin, key, anos) == IssueError(bin, key, 0)
    ensures IssueError(bin, key, 0).None? ==>
              IssueError(bin, key, anos) == if anos < 0 then Some(Argument("AnoValidade deve ser no futuro")) else None
  {
  }

  /** The default settings issue cards for every product once the key installs. */
  lemma DefaultOptionsIssue(codigoProduto: string, key: string)
    requires KeyInstallable(key)
    ensures IssueError(SelecionarBin(codigoProduto, DefaultIssuanceOptions), key, DefaultIssuanceOptions.AnosValidade).None?
  {
    DefaultBinsGenerate(codigoProduto);
  }

  /** A number the service hands to the vault: 16 characters, the BIN first, and a
      valid Luhn check digit. */
  predicate IssuedPan(pan: string, bin: string) {
    |bin| <= 16 && |pan| == 16 && pan[..|bin|] == bin && LuhnValid(pan)
  }

  /** The arguments EmitirCartao gives the Card factory. */
  function IssueArguments(r: CardIssuanceRequest, tipo: string, tokenPan: string, tokenCvv: string,
                          validade: DateTime): CardArguments {
    CardArguments(r.ClienteId, r.PropostaId, r.ContaId, r.CodigoProduto, tipo, tokenPan, tokenCvv,
                  validade.month, validade.year, r.LimiteCreditoPorCartao, r.CorrelacaoId)
  }

  /** The row of a card EmitirCartao returns: built by the factory, then issued. */
  function IssuedRow(id: Guid, r: CardIssuanceRequest, tipo: string, tokenPan: string, tokenCvv: string,
                     validade: DateTime, now: DateTime): CardRow {
    NewRow(id, IssueArguments(r, tipo, tokenPan, tokenCvv, validade), now).(Status := ISSUED)
  }

  /** The factory accepts the arguments EmitirCartao builds from an acceptable
      request and two tokens exactly when the validity is not in the past. */
  lemma IssueArgumentsAccepted(r: CardIssuanceRequest, tipo: string, tokenPan: string, tokenCvv: string,
                               now: DateTime, anos: int)
    requires DateTimes.Valid(now) && RequestAcceptable(r) && IsCardType(tipo)
    requires !IsBlank(tokenPan) && !IsBlank(tokenCvv)
    ensures CreationError(IssueArguments(r, tipo, tokenPan, tokenCvv, AddYears(now, anos)), now)
            == if anos < 0 then Some(Argument("AnoValidade deve ser no futuro")) else None
  {
  }

  /** The k-th card of a run that starts with `first` identifiers handed out: each
      card draws its PAN token, its CVV token and then its own identifier. */
  function NthIssuedRow(values: nat -> Guid, first: nat, k: nat, r: CardIssuanceRequest, tipo: string,
                        validade: DateTime, now: DateTime): CardRow {
    IssuedRow(values(first + 3 * k + 2), r, tipo, Token("pan", values(first + 3 * k)),
              Token("cvv", values(first + 3 * k + 1)), validade, now)
  }

  /** The cards issued for the classes tipos, in order. */
  function IssuedRows(values: nat -> Guid, first: nat, r: CardIssuanceRequest, tipos: seq<string>,
                      validade: DateTime, now: DateTime): (rows: seq<CardRow>)
    ensures |rows| == |tipos|
  {
    seq(|tipos|, k requires 0 <= k < |tipos| => NthIssuedRow(values, first, k, r, tipos[k], validade, now))
  }

  /** An issued card carries the request's customer, account, proposal, product,
      limit and correlation, the class asked for, tokens rather than the number,
      the issue month of the year `anos` later, and the ISSUED status. */
  lemma IssuedRowShape(id: Guid, r: CardIssuanceRequest, tipo: string, g: Guid, h: Guid, now: DateTime, anos: int)
    requires DateTimes.Valid(now)
    ensures var c := IssuedRow(id, r, tipo, Token("pan", g), Token("cvv", h), AddYears(now, anos), now);
            && c.Id == id && c.ClienteId == r.ClienteId && c.ContaId == r.ContaId && c.PropostaId == r.PropostaId
            && c.CodigoProduto == r.CodigoProduto && c.LimiteCreditoAprovado == r.LimiteCreditoPorCartao
            && c.CorrelacaoId == r.CorrelacaoId && c.Tipo == tipo
            && c.Status == ISSUED && c.DataAtivacao.None? && c.CanalAtivacao.None? && c.Ativo
            && c.TokenPan[..8] == "tok_pan_" && c.TokenCvv[..8] == "tok_cvv_"
            && c.MesValidade == now.month && c.AnoValidade == now.year + anos
            && c.DataCriacao == now && LifeCycleConsistent(c)
  {
    TokenShape("pan", g);
    TokenShape("cvv", h);
  }

  lemma TokenNotBlank(prefix: string, g: Guid)
    ensures !IsBlank(Token(prefix, g))
  {
    assert Token(prefix, g)[0] == 't';
  }

  /** Issuing one more class appends the next card of the run. */
  lemma IssuedRowsStep(values: nat -> Guid, first: nat, r: CardIssuanceRequest, tipos: seq<string>, i: nat,
                       validade: DateTime, now: DateTime)
    requires i < |tipos|
    ensures IssuedRows(values, first, r, tipos[..i + 1], validade, now)
            == IssuedRows(values, first, r, tipos[..i], validade, now) + [NthIssuedRow(values, first + 3 * i, 0, r, tipos[i], validade, now)]
  {
    assert tipos[..i + 1][i] == tipos[i];
  }

  /** The identifiers of a run of cards, in order. */
  function Ids(cards: seq<CardRow>): (ids: seq<Guid>)
    ensures |ids| == |cards| && forall k :: 0 <= k < |cards| ==> ids[k] == cards[k].Id
  {
    seq(|cards|, k requires 0 <= k < |cards| => cards[k].Id)
  }

  predicate DistinctIds(cards: seq<CardRow>) {
    forall i, j :: 0 <= i < j < |cards| ==> cards[i].Id != cards[j].Id
  }

  /** Replaying a key registered with the identifiers of the cards just added returns
      exactly those cards, in order, when the table's identifiers are distinct. */
  lemma {:induction false} ReplayReturnsIssued(before: seq<CardRow>, issued: seq<CardRow>)
    requires DistinctIds(before + issued)
    ensures WithIds(before + issued, Ids(issued)) == issued
  {
    if before == [] {
      assert before + issued == issued;
      WithAllIds(issued, Ids(issued));
    } else {
      assert (before + issued)[1..] == before[1..] + issued;
      assert before[0] == (before + issued)[0];
      forall k | 0 <= k < |issued| ensures issued[k].Id != before[0].Id {
        assert issued[k] == (before + issued)[|before| + k];
      }
      assert before[0].Id !in Ids(issued);
      assert DistinctIds(before[1..] + issued) by {
        forall i, j | 0 <= i < j < |before[1..] + issued|
          ensures (before[1..] + issued)[i].Id != (before[1..] + issued)[j].Id
        {
          assert (before[1..] + issued)[i] == (before + issued)[i + 1];
          assert (before[1..] + issued)[j] == (before + issued)[j + 1];
        }
      }
      ReplayReturnsIssued(before[1..], issued);
    }
  }

  lemma {:induction false} WithAllIds(cards: seq<CardRow>, ids: seq<Guid>)
    requires forall k :: 0 <= k < |cards| ==> cards[k].Id in ids
    ensures WithIds(cards, ids) == cards
  {
    if cards != [] {
      WithAllIds(cards[1..], ids);
      assert WithIds(cards, ids) == [cards[0]] + WithIds(cards[1..], ids);
    }
  }

  /** None of the identifiers the source has yet to hand out is in use in the
      Cards, CardIdempotencyKeys or OutboxEvents table. */
  ghost predicate NotYetIssued(cards: seq<CardRow>, keys: seq<CardIdempotencyKey>, events: seq<OutboxRow>,
                               values: nat -> Guid, issued: nat) {
    && (forall i, c :: issued <= i && c in cards ==> c.Id != values(i))
    && (forall i, k :: issued <= i && k in keys ==> k.Id != values(i))
    && (forall i, e :: issued <= i && e in events ==> e.Id != values(i))
  }

  /** Handing out more identifiers keeps the rest unused. */
  lemma NotYetIssuedLater(cards: seq<CardRow>, keys: seq<CardIdempotencyKey>, events: seq<OutboxRow>,
                          values: nat -> Guid, issued: nat, later: nat)
    requires issued <= later && NotYetIssued(cards, keys, events, values, issued)
    ensures NotYetIssued(cards, keys, events, values, later)
  {
  }

  /** A card as the customer sees it: masked number, class, status, activation. */
  datatype CartaoCliente = CartaoCliente(Id: Guid, NumeroMascarado: string, Tipo: string, Status: string,
                                         DataAtivacao: Option<DateTime>)

  /** The vault holds an issued number under the PAN token and a three-character
      CVV under the CVV token. */
  ghost predicate HoldsIssued(vault: InMemoryTokenVault, tokenPan: string, tokenCvv: string, bin: string)
    reads vault
    requires |vault.encryptionKey| == 32
  {
    && vault.RecuperarPan(tokenPan).Success? && IssuedPan(vault.RecuperarPan(tokenPan).value, bin)
    && vault.RecuperarPan(tokenCvv).Success? && |vault.RecuperarPan(tokenCvv).value| == 3
  }

  /** The mask of a card issued with a BIN of at least four digits starts with the
      BIN's first four and hides the eight digits that follow the first four. */
  lemma MaskOfIssuedCard(vault: InMemoryTokenVault, token: string, bin: string)
    requires |vault.encryptionKey| == 32 && 4 <= |bin|
    requires vault.RecuperarPan(token).Success? && IssuedPan(vault.RecuperarPan(token).value, bin)
    ensures var m := MascararPan(vault, token);
            var pan := vault.RecuperarPan(token).value;
            && |m| == 19 && m[..4] == bin[..4] && m[4..15] == " **** **** " && m[15..] == pan[12..16]
  {
    var pan := vault.RecuperarPan(token).value;
    assert pan[..4] == pan[..|bin|][..4];
  }

  /** A request is answered from the store when its key is not blank and already
      recorded. */
  predicate Replayed(chave: string, keys: seq<CardIdempotencyKey>) {
    !IsBlank(chave) && exists k :: k in keys && k.ChaveIdempotencia == chave
  }

  class CardIssuanceService {
    const cardRepository: CardRepository
    const outboxRepository: OutboxRepository
    const tokenVault: InMemoryTokenVault
    const panGenerator: PanGenerator
    const options: IssuanceOptions
    const guids: GuidSource

    /** The tables keep their keys, the vault holds an installed-size key, one
        identifier source serves every table and the vault, and it never hands out
        an identifier that is already in use. */
    ghost predicate Valid()
      reads this, cardRepository, outboxRepository, guids
    {
      && cardRepository.Valid() && outboxRepository.Valid()
      && |tokenVault.encryptionKey| == 32
      && cardRepository.guids == guids && outboxRepository.guids == guids && tokenVault.guids == guids
      && Unique(guids.values)
      && NotYetIssued(cardRepository.cards, cardRepository.keys, outboxRepository.events,
                      guids.values, guids.issued)
    }

    constructor (cardRepository: CardRepository, outboxRepository: OutboxRepository, tokenVault: InMemoryTokenVault,
                 panGenerator: PanGenerator, options: IssuanceOptions, guids: GuidSource)
      requires cardRepository.Valid() && outboxRepository.Valid() && |tokenVault.encryptionKey| == 32
      requires cardRepository.guids == guids && outboxRepository.guids == guids && tokenVault.guids == guids
      requires Unique(guids.values)
      requires NotYetIssued(cardRepository.cards, cardRepository.keys, outboxRepository.events,
                            guids.values, guids.issued)
      ensures Valid()
      ensures this.cardRepository == cardRepository && this.outboxRepository == outboxRepository
      ensures this.tokenVault == tokenVault && this.panGenerator == panGenerator
      ensures this.options == options && this.guids == guids
    {
      this.cardRepository := cardRepository;
      this.outboxRepository := outboxRepository;
      this.tokenVault := tokenVault;
      this.panGenerator := panGenerator;
      this.options := options;
      this.guids := guids;
    }

    /** The BIN for a request's product under this service's settings. */
    function Bin(r: CardIssuanceRequest): string
      reads this
    {
      SelecionarBin(r.CodigoProduto, options)
    }

    /** ObterCartoesPorClienteAsync: the customer's cards, newest first, each with
        its number masked; an empty identifier throws. */
    function ObterCartoesPorCliente(clienteId: Guid): (r: Result<seq<CartaoCliente>>)
      reads this, cardRepository, tokenVault
      requires |tokenVault.encryptionKey| == 32
      ensures r.Failure? <==> clienteId == EmptyGuid
      ensures r.Failure? ==> r.error == Argument("ClienteId não pode ser vazio")
      ensures r.Success? ==>
                var cards := cardRepository.ObterPorClienteAsync(clienteId);
                && |r.value| == |cards|
                && forall k :: 0 <= k < |cards| ==>
                     && r.value[k].Id == cards[k].Id && r.value[k].Tipo == cards[k].Tipo
                     && r.value[k].Status == cards[k].Status && r.value[k].DataAtivacao == cards[k].DataAtivacao
                     && r.value[k].NumeroMascarado == MascararPan(tokenVault, cards[k].TokenPan)
    {
      if clienteId == EmptyGuid then Failure(Argument("ClienteId não pode ser vazio"))
      else
        var cards := cardRepository.ObterPorClienteAsync(clienteId);
        Success(seq(|cards|, k requires 0 <= k < |cards| reads tokenVault =>
          CartaoCliente(cards[k].Id, MascararPan(tokenVault, cards[k].TokenPan), cards[k].Tipo, cards[k].Status,
                        cards[k].DataAtivacao)))
    }

    /** The first half of EmitirCartao: number and CVV generated, then each stored
        in the vault under a new token, the PAN token drawn first. */
    method GerarEArmazenar(bin: string) returns (r: Result<(string, string)>)
      requires |tokenVault.encryptionKey| == 32 && tokenVault.guids == guids
      modifies guids, tokenVault, tokenVault.ivs, panGenerator.random
      ensures guids.issued >= old(guids.issued)
      ensures forall t :: t in old(tokenVault.store) ==> t in tokenVault.store
      ensures IssueError(bin, tokenVault.encryptionKey, 0).Some? ==>
                r == Failure(IssueError(bin, tokenVault.encryptionKey, 0).value)
      ensures IssueError(bin, tokenVault.encryptionKey, 0).None? ==>
                && guids.issued == old(guids.issued) + 2
                && r == Success((Token("pan", guids.values(old(guids.issued))), Token("cvv", guids.values(old(guids.issued) + 1))))
                && HoldsIssued(tokenVault, r.value.0, r.value.1, bin)
    {
      var secrets := Gerar(bin);
      if secrets.Failure? {
        return Failure(secrets.error);
      }
      Utf16LengthBmp(secrets.value.0);
      Utf16LengthBmp(secrets.value.1);
      r := Armazenar(secrets.value.0, secrets.value.1);
    }

    /** GerarPan(bin) with the default length of 16, then GerarCvv. */
    method Gerar(bin: string) returns (r: Result<(string, string)>)
      modifies panGenerator.random
      ensures PanArgumentError(bin, 16).Some? ==> r == Failure(PanArgumentError(bin, 16).value)
      ensures PanArgumentError(bin, 16).None? && !AllDigits(bin) ==> r == Failure(Format)
      ensures PanArgumentError(bin, 16).None? && AllDigits(bin) ==>
                && r.Success? && |r.value.0| == Max(16, |bin| + 1)
                && r.value.0[..|bin|] == bin && LuhnValid(r.value.0)
                && |r.value.1| == 3 && !IsBlank(r.value.1)
                && IsBmp(r.value.0) && IsBmp(r.value.1)
    {
      var pan := panGenerator.GerarPan(bin, 16);
      if pan.Failure? {
        return Failure(pan.error);
      }
      var cvv := panGenerator.GerarCvv();
      assert !IsWhiteSpace(cvv[0]);
      return Success((pan.value, cvv));
    }

    /** ArmazenarPan then ArmazenarCvv. */
    method Armazenar(pan: string, cvv: string) returns (r: Result<(string, string)>)
      requires |tokenVault.encryptionKey| == 32 && tokenVault.guids == guids
      requires !IsBlank(pan) && Utf16Length(cvv) == 3 && !IsBlank(cvv)
      modifies guids, tokenVault, tokenVault.ivs
      ensures guids.issued >= old(guids.issued)
      ensures forall t :: t in old(tokenVault.store) ==> t in tokenVault.store
      ensures Utf16Length(pan) != 16 ==> r == Failure(Argument("PAN deve ter exatamente 16 dígitos"))
      ensures Utf16Length(pan) == 16 && !KeyInstallable(tokenVault.encryptionKey) ==> r == Failure(Cryptographic)
      ensures Utf16Length(pan) == 16 && KeyInstallable(tokenVault.encryptionKey) ==>
                && guids.issued == old(guids.issued) + 2
                && r == Success((Token("pan", guids.values(old(guids.issued))), Token("cvv", guids.values(old(guids.issued) + 1))))
                && tokenVault.RecuperarPan(r.value.0) == Success(pan)
                && tokenVault.RecuperarPan(r.value.1) == Success(cvv)
    {
      var g0 := guids.issued;
      var tokenPan := tokenVault.ArmazenarPan(pan);
      if tokenPan.Failure? {
        return Failure(tokenPan.error);
      }
      var tokenCvv := tokenVault.ArmazenarCvv(cvv);
      TokenInjective("pan", "cvv", guids.values(g0), guids.values(g0 + 1));
      return Success((tokenPan.value, tokenCvv.value));
    }

    /** EmitirCartao: BIN, number, CVV, both tokens, validity, factory, ISSUED. On
        success the number is under the PAN token in the vault and the card holds
        only tokens. */
    method EmitirCartao(request: CardIssuanceRequest, tipo: string, now: DateTime) returns (r: Result<Card>)
      requires |tokenVault.encryptionKey| == 32 && tokenVault.guids == guids
      requires DateTimes.Valid(now) && RequestAcceptable(request) && IsCardType(tipo)
      modifies guids, tokenVault, tokenVault.ivs, panGenerator.random
      ensures guids.issued >= old(guids.issued)
      ensures forall t :: t in old(tokenVault.store) ==> t in tokenVault.store
      ensures IssueError(Bin(request), tokenVault.encryptionKey, options.AnosValidade).Some? ==>
                r == Failure(IssueError(Bin(request), tokenVault.encryptionKey, options.AnosValidade).value)
      ensures IssueError(Bin(request), tokenVault.encryptionKey, options.AnosValidade).None? ==>
                && r.Success? && fresh(r.value)
                && guids.issued == old(guids.issued) + 3
                && r.value.Row() == IssuedRow(guids.values(old(guids.issued) + 2), request, tipo,
                                              Token("pan", guids.values(old(guids.issued))),
                                              Token("cvv", guids.values(old(guids.issued) + 1)),
                                              AddYears(now, options.AnosValidade), now)
                && HoldsIssued(tokenVault, Token("pan", guids.values(old(guids.issued))),
                               Token("cvv", guids.values(old(guids.issued) + 1)), Bin(request))
    {
      var bin := SelecionarBin(request.CodigoProduto, options);
      var g0 := guids.issued;
      var tokens := GerarEArmazenar(bin);
      if tokens.Failure? {
        IssueErrorYearsLast(bin, tokenVault.encryptionKey, options.AnosValidade);
        return Failure(tokens.error);
      }
      r := EmitirComTokens(request, tipo, bin, g0, now);
    }

    /** EmitirCartao once both tokens are stored: the tokens are not blank, so the
        factory refuses only a validity in the past. */
    method EmitirComTokens(request: CardIssuanceRequest, tipo: string, bin: string, g0: nat, now: DateTime)
      returns (r: Result<Card>)
      requires DateTimes.Valid(now) && RequestAcceptable(request) && IsCardType(tipo)
      requires |tokenVault.encryptionKey| == 32 && IssueError(bin, tokenVault.encryptionKey, 0).None?
      requires guids.issued == g0 + 2
      requires HoldsIssued(tokenVault, Token("pan", guids.values(g0)), Token("cvv", guids.values(g0 + 1)), bin)
      modifies guids
      ensures guids.issued >= g0 + 2
      ensures IssueError(bin, tokenVault.encryptionKey, options.AnosValidade).Some? ==>
                r == Failure(IssueError(bin, tokenVault.encryptionKey, options.AnosValidade).value)
      ensures IssueError(bin, tokenVault.encryptionKey, options.AnosValidade).None? ==>
                && r.Success? && fresh(r.value)
                && guids.issued == g0 + 3
                && r.value.Row() == IssuedRow(guids.values(g0 + 2), request, tipo,
                                              Token("pan", guids.values(g0)),
                                              Token("cvv", guids.values(g0 + 1)),
                                              AddYears(now, options.AnosValidade), now)
                && HoldsIssued(tokenVault, Token("pan", guids.values(g0)), Token("cvv", guids.values(g0 + 1)), bin)
    {
      TokenNotBlank("pan", guids.values(g0));
      TokenNotBlank("cvv", guids.values(g0 + 1));
      IssueErrorYearsLast(bin, tokenVault.encryptionKey, options.AnosValidade);
      r := CriarEmitido(request, tipo, Token("pan", guids.values(g0)), Token("cvv", guids.values(g0 + 1)), now);
    }

    /** The second half of EmitirCartao: the factory, then REQUESTED to ISSUED. */
    method CriarEmitido(request: CardIssuanceRequest, tipo: string, tokenPan: string, tokenCvv: string,
                        now: DateTime) returns (r: Result<Card>)
      requires DateTimes.Valid(now) && RequestAcceptable(request) && IsCardType(tipo)
      requires !IsBlank(tokenPan) && !IsBlank(tokenCvv)
      modifies guids
      ensures options.AnosValidade < 0 ==>
                r == Failure(Argument("AnoValidade deve ser no futuro")) && guids.issued == old(guids.issued)
      ensures options.AnosValidade >= 0 ==>
                && guids.issued == old(guids.issued) + 1
                && r.Success? && fresh(r.value)
                && r.value.Row() == IssuedRow(guids.values(old(guids.issued)), request, tipo, tokenPan, tokenCvv,
                                              AddYears(now, options.AnosValidade), now)
    {
      var validade := AddYears(now, options.AnosValidade);
      IssueArgumentsAccepted(request, tipo, tokenPan, tokenCvv, now, options.AnosValidade);
      var card := Card.Criar(IssueArguments(request, tipo, tokenPan, tokenCvv, validade), now, guids);
      if card.Failure? {
        return Failure(card.error);
      }
      var emitted := card.value.MarcarComoEmitido();
      return Success(card.value);
    }

    /** EmitirCartõesAsync. A request that fails validation throws before anything
        is touched. A non-blank key that is already recorded returns the cards
        recorded for it and changes nothing. Otherwise one card per class is issued
        and inserted, the key (when not blank) is recorded with the identifiers of
        the new cards, and one card.issued event joins the outbox. A card that
        cannot be issued throws before anything is stored. */
    method EmitirCartoes(request: Option<CardIssuanceRequest>, now: DateTime) returns (r: Result<seq<CardRow>>)
      requires Valid() && DateTimes.Valid(now)
      modifies cardRepository, outboxRepository, guids, tokenVault, tokenVault.ivs, panGenerator.random
      ensures Valid()
      ensures RequestError(request).Some? ==>
                && r == Failure(RequestError(request).value)
                && cardRepository.cards == old(cardRepository.cards) && cardRepository.keys == old(cardRepository.keys)
                && outboxRepository.events == old(outboxRepository.events)
                && guids.issued == old(guids.issued) && tokenVault.store == old(tokenVault.store)
      ensures RequestError(request).None? && Replayed(request.value.ChaveIdempotencia, old(cardRepository.keys)) ==>
                && r == Success(old(cardRepository.ObterPorChaveIdempotenciaAsync(request.value.ChaveIdempotencia)))
                && cardRepository.cards == old(cardRepository.cards) && cardRepository.keys == old(cardRepository.keys)
                && outboxRepository.events == old(outboxRepository.events)
                && guids.issued == old(guids.issued) && tokenVault.store == old(tokenVault.store)
      ensures RequestError(request).None? && !Replayed(request.value.ChaveIdempotencia, old(cardRepository.keys)) ==>
                Issued(request.value, r, old(cardRepository.cards), old(cardRepository.keys), old(outboxRepository.events),
                       old(guids.issued), now)
    {
      var e := RequestError(request);
      if e.Some? {
        return Failure(e.value);
      }
      var req := request.value;
      var chave := req.ChaveIdempotencia;
      if !IsBlank(chave) {
        if cardRepository.ExisteChaveIdempotenciaAsync(chave) {
          return Success(cardRepository.ObterPorChaveIdempotenciaAsync(chave));
        }
      }
      r := EmitirNovos(req, now);
    }

    /** The idempotency promise: a request with a key, sent again after it succeeded,
        gets the same cards back and changes nothing the second time. */
    method EmitirDuasVezes(request: Option<CardIssuanceRequest>, now: DateTime, later: DateTime)
      returns (first: Result<seq<CardRow>>, second: Result<seq<CardRow>>)
      requires Valid() && DateTimes.Valid(now) && DateTimes.Valid(later)
      requires request.Some? && !IsBlank(request.value.ChaveIdempotencia)
      modifies cardRepository, outboxRepository, guids, tokenVault, tokenVault.ivs, panGenerator.random
      ensures Valid()
      ensures first.Success? ==> second == first
      ensures first.Success? ==>
                && cardRepository.cards == old(cardRepository.cards) + (if Replayed(request.value.ChaveIdempotencia, old(cardRepository.keys)) then [] else first.value)
    {
      first := EmitirCartoes(request, now);
      ghost var cards1 := cardRepository.cards;
      ghost var keys1 := cardRepository.keys;
      if first.Success? && !Replayed(request.value.ChaveIdempotencia, old(cardRepository.keys)) {
        ghost var k := cardRepository.keys[|cardRepository.keys| - 1];
        assert k in cardRepository.keys && k.ChaveIdempotencia == request.value.ChaveIdempotencia;
      }
      second := EmitirCartoes(request, later);
    }

    /** What a request that is not replayed leaves behind: when a card cannot be
        issued, the exception and untouched tables; otherwise one issued card per
        class, inserted in order, the key recorded and the event published. */
    ghost predicate Issued(req: CardIssuanceRequest, r: Result<seq<CardRow>>, cards0: seq<CardRow>,
                           keys0: seq<CardIdempotencyKey>, events0: seq<OutboxRow>, g0: nat, now: DateTime)
      reads this, cardRepository, outboxRepository, tokenVault, guids
      requires DateTimes.Valid(now)
    {
      var e := IssueError(Bin(req), tokenVault.encryptionKey, options.AnosValidade);
      && (e.Some? ==>
            && r == Failure(e.value)
            && cardRepository.cards == cards0 && cardRepository.keys == keys0
            && outboxRepository.events == events0)
      && (e.None? ==>
            && r.Success? && |r.value| == req.QuantidadeCartoesEmitir
            && r.value == IssuedRows(guids.values, g0, req,
                                     DeterminarTiposCartao(req.Entrega, req.QuantidadeCartoesEmitir),
                                     AddYears(now, options.AnosValidade), now)
            && cardRepository.cards == cards0 + r.value
            && PublishedAndRecorded(req, r.value, keys0, events0, g0 + 3 * |r.value|, now))
    }

    /** The body of EmitirCartõesAsync after the idempotency check. */
    method EmitirNovos(req: CardIssuanceRequest, now: DateTime) returns (r: Result<seq<CardRow>>)
      requires Valid() && DateTimes.Valid(now) && RequestAcceptable(req)
      requires !Replayed(req.ChaveIdempotencia, cardRepository.keys)
      modifies cardRepository, outboxRepository, guids, tokenVault, tokenVault.ivs, panGenerator.random
      ensures Valid()
      ensures Issued(req, r, old(cardRepository.cards), old(cardRepository.keys), old(outboxRepository.events),
                     old(guids.issued), now)
    {
      var quantidade := CalcularQuantidadeCartoes(req.QuantidadeCartoesEmitir);
      var tipos := DeterminarTiposCartao(req.Entrega, quantidade);
      CardClasses(req.Entrega, quantidade);
      ghost var before := cardRepository.cards;
      var emitidos := EmitirLote(req, tipos, now);
      if emitidos.Failure? {
        return Failure(emitidos.error);
      }
      RegistrarIdempotencia(req, before, emitidos.value, now);
      PublicarEventoEmissao(req, emitidos.value, now);
      return Success(emitidos.value);
    }

    /** The loop of EmitirCartõesAsync: one card per class, each inserted as soon as
        it is issued. */
    method EmitirLote(req: CardIssuanceRequest, tipos: seq<string>, now: DateTime) returns (r: Result<seq<CardRow>>)
      requires Valid() && DateTimes.Valid(now) && RequestAcceptable(req)
      requires forall k :: 0 <= k < |tipos| ==> IsCardType(tipos[k])
      modifies cardRepository, guids, tokenVault, tokenVault.ivs, panGenerator.random
      ensures Valid()
      ensures cardRepository.keys == old(cardRepository.keys)
      ensures IssueError(Bin(req), tokenVault.encryptionKey, options.AnosValidade).Some? && tipos != [] ==>
                r == Failure(IssueError(Bin(req), tokenVault.encryptionKey, options.AnosValidade).value)
                && cardRepository.cards == old(cardRepository.cards)
      ensures IssueError(Bin(req), tokenVault.encryptionKey, options.AnosValidade).None? ==>
                && r == Success(IssuedRows(guids.values, old(guids.issued), req, tipos, AddYears(now, options.AnosValidade), now))
                && cardRepository.cards == old(cardRepository.cards) + r.value
                && guids.issued == old(guids.issued) + 3 * |tipos|
    {
      ghost var g0 := guids.issued;
      ghost var before := cardRepository.cards;
      ghost var validade := AddYears(now, options.AnosValidade);
      var emitidos: seq<CardRow> := [];
      var i := 0;
      while i < |tipos|
        invariant 0 <= i <= |tipos|
        invariant Valid()
        invariant i > 0 ==> IssueError(Bin(req), tokenVault.encryptionKey, options.AnosValidade).None?
        invariant guids.issued == g0 + 3 * i
        invariant emitidos == IssuedRows(guids.values, g0, req, tipos[..i], validade, now)
        invariant cardRepository.cards == before + emitidos
        invariant cardRepository.keys == old(cardRepository.keys)
      {
        var card := EmitirEGuardar(req, tipos[i], now);
        if card.Failure? {
          return Failure(card.error);
        }
        IssuedRowsStep(guids.values, g0, req, tipos, i, validade, now);
        assert before + (emitidos + [card.value]) == (before + emitidos) + [card.value];
        emitidos := emitidos + [card.value];
        i := i + 1;
      }
      assert tipos[..i] == tipos;
      return Success(emitidos);
    }

    /** One turn of that loop: a card issued, then inserted. */
    method EmitirEGuardar(req: CardIssuanceRequest, tipo: string, now: DateTime) returns (r: Result<CardRow>)
      requires Valid() && DateTimes.Valid(now) && RequestAcceptable(req) && IsCardType(tipo)
      modifies cardRepository, guids, tokenVault, tokenVault.ivs, panGenerator.random
      ensures Valid()
      ensures cardRepository.keys == old(cardRepository.keys)
      ensures IssueError(Bin(req), tokenVault.encryptionKey, options.AnosValidade).Some? ==>
                r == Failure(IssueError(Bin(req), tokenVault.encryptionKey, options.AnosValidade).value)
                && cardRepository.cards == old(cardRepository.cards)
      ensures IssueError(Bin(req), tokenVault.encryptionKey, options.AnosValidade).None? ==>
                && r == Success(NthIssuedRow(guids.values, old(guids.issued), 0, req, tipo, AddYears(now, options.AnosValidade), now))
                && cardRepository.cards == old(cardRepository.cards) + [r.value]
                && guids.issued == old(guids.issued) + 3
    {
      ghost var g0 := guids.issued;
      var card := EmitirCartao(req, tipo, now);
      NotYetIssuedLater(cardRepository.cards, cardRepository.keys, outboxRepository.events, guids.values, g0, guids.issued);
      if card.Failure? {
        return Failure(card.error);
      }
      ghost var cards0 := cardRepository.cards;
      ghost var row := card.value.Row();
      // The identifier was drawn fresh, so the insert cannot clash.
      var inserted := cardRepository.AdicionarAsync(card.value);
      return Success(card.value.Row());
    }

    /** Records a non-blank key with the identifiers of the cards just inserted;
        replaying it then returns exactly those cards. A blank key records nothing. */
    method RegistrarIdempotencia(req: CardIssuanceRequest, ghost before: seq<CardRow>, emitidos: seq<CardRow>, now: DateTime)
      requires Valid()
      requires !Replayed(req.ChaveIdempotencia, cardRepository.keys)
      requires cardRepository.cards == before + emitidos
      modifies cardRepository, guids
      ensures Valid() && cardRepository.cards == old(cardRepository.cards)
      ensures IsBlank(req.ChaveIdempotencia) ==> cardRepository.keys == old(cardRepository.keys) && guids.issued == old(guids.issued)
      ensures !IsBlank(req.ChaveIdempotencia) ==>
                && cardRepository.keys == old(cardRepository.keys) +
                     [CardIdempotencyKey(guids.values(old(guids.issued)), req.ChaveIdempotencia, EncodeIds(Ids(emitidos)), now, true)]
                && cardRepository.ObterPorChaveIdempotenciaAsync(req.ChaveIdempotencia) == emitidos
                && guids.issued == old(guids.issued) + 1
    {
      var chave := req.ChaveIdempotencia;
      if !IsBlank(chave) {
        ghost var keys0 := cardRepository.keys;
        ghost var g1 := guids.issued;
        // The key was not recorded and the identifier is fresh, so the insert succeeds.
        var registered := cardRepository.RegistrarIdempotenciaAsync(chave, Ids(emitidos), now);
        ghost var k := CardIdempotencyKey(guids.values(g1), chave, EncodeIds(Ids(emitidos)), now, true);
        assert cardRepository.keys == keys0 + [k];
        ReplayAfterRegistration(cardRepository.cards, keys0, k, Ids(emitidos));
        ReplayReturnsIssued(before, emitidos);
      }
    }

    /** PublicarEventoEmissaoAsync: the card.issued event appended to the outbox. */
    method PublicarEventoEmissao(req: CardIssuanceRequest, emitidos: seq<CardRow>, now: DateTime)
      requires Valid() && DateTimes.Valid(now)
      modifies outboxRepository, guids
      ensures Valid()
      ensures outboxRepository.events == old(outboxRepository.events) +
                [OutboxRow(guids.values(old(guids.issued)), CARD_ISSUED, IssuedEventPayload(req, emitidos, now), now, None, true)]
      ensures guids.issued == old(guids.issued) + 1
    {
      var payload := IssuedEventPayload(req, emitidos, now);
      ghost var events0 := outboxRepository.events;
      ghost var g := guids.issued;
      assert CARD_ISSUED[0] == 'c';
      // The identifier is fresh, so the insert succeeds.
      var published := outboxRepository.AdicionarAsync(CARD_ISSUED, payload, now);
      ghost var ev := OutboxRow(guids.values(g), CARD_ISSUED, payload, now, None, true);
      assert outboxRepository.events == events0 + [ev];
    }

    /** The key (when not blank) recorded with the new cards' identifiers, so that
        replaying it returns exactly those cards, and the card.issued event listing
        them appended to the outbox; `g` identifiers had been handed out before. */
    ghost predicate PublishedAndRecorded(req: CardIssuanceRequest, issued: seq<CardRow>, keys0: seq<CardIdempotencyKey>,
                                         events0: seq<OutboxRow>, g: nat, now: DateTime)
      reads this, cardRepository, outboxRepository, guids
      requires DateTimes.Valid(now)
    {
      var chave := req.ChaveIdempotencia;
      var event := (eventId: Guid) => OutboxRow(eventId, CARD_ISSUED, IssuedEventPayload(req, issued, now), now, None, true);
      if IsBlank(chave) then
        && cardRepository.keys == keys0
        && outboxRepository.events == events0 + [event(guids.values(g))]
        && guids.issued == g + 1
      else
        && cardRepository.keys == keys0 + [CardIdempotencyKey(guids.values(g), chave, EncodeIds(Ids(issued)), now, true)]
        && cardRepository.ObterPorChaveIdempotenciaAsync(chave) == issued
        && outboxRepository.events == events0 + [event(guids.values(g + 1))]
        && guids.issued == g + 2
    }
  }
}
