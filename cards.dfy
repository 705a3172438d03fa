/** The card aggregate: its creation rules, the REQUESTED -> ISSUED -> ACTIVE
    life cycle and the expiry test computed from the expiry month. */
module Cards {
  import opened Common
  import opened Guids
  import opened DateTimes

  const REQUESTED: string := "REQUESTED"
  const ISSUED: string := "ISSUED"
  const ACTIVATION_PENDING: string := "ACTIVATION_PENDING"
  const ACTIVE: string := "ACTIVE"
  const BLOCKED: string := "BLOCKED"

  const VIRTUAL: string := "VIRTUAL"
  const PHYSICAL: string := "PHYSICAL"

  const APP: string := "APP"
  const OTP: string := "OTP"
  const FIRST_PURCHASE: string := "FIRST_PURCHASE"

  predicate IsCardType(t: string) {
    t == VIRTUAL || t == PHYSICAL
  }

  predicate IsActivationChannel(c: string) {
    c == APP || c == OTP || c == FIRST_PURCHASE
  }

  predicate IsCardStatus(s: string) {
    s == REQUESTED || s == ISSUED || s == ACTIVATION_PENDING || s == ACTIVE || s == BLOCKED
  }

  /** The statuses from which a card may be activated. */
  predicate IsActivatableStatus(s: string) {
    s == ISSUED || s == ACTIVATION_PENDING
  }

  /** A row of the Cards table: every column of the entity. */
  datatype CardRow = CardRow(
    Id: Guid,
    ClienteId: Guid,
    PropostaId: Guid,
    ContaId: Guid,
    CodigoProduto: string,
    Tipo: string,
    TokenPan: string,
    TokenCvv: string,
    MesValidade: int,
    AnoValidade: int,
    LimiteCreditoAprovado: real,
    Status: string,
    DataAtivacao: Option<DateTime>,
    CanalAtivacao: Option<string>,
    CorrelacaoId: string,
    DataCriacao: DateTime,
    Ativo: bool)

  /** The arguments of the Card factory. */
  datatype CardArguments = CardArguments(
    clienteId: Guid,
    propostaId: Guid,
    contaId: Guid,
    codigoProduto: string,
    tipo: string,
    tokenPan: string,
    tokenCvv: string,
    mesValidade: int,
    anoValidade: int,
    limiteCreditoAprovado: real,
    correlacaoId: string)

  /** Everything the factory demands of its arguments when the clock reads now. */
  predicate AcceptableArguments(a: CardArguments, now: DateTime) {
    && a.clienteId != EmptyGuid
    && a.propostaId != EmptyGuid
    && a.contaId != EmptyGuid
    && !IsBlank(a.codigoProduto)
    && IsCardType(a.tipo)
    && !IsBlank(a.tokenPan)
    && !IsBlank(a.tokenCvv)
    && 1 <= a.mesValidade <= 12
    && a.anoValidade >= now.year
    && a.limiteCreditoAprovado > 0.0
    && !IsBlank(a.correlacaoId)
  }

  /** The exception Card.Criar throws for these arguments, if any: the first
      check that fails, in the order the factory makes them. */
  function CreationError(a: CardArguments, now: DateTime): (e: Option<Error>)
    ensures e.None? <==> AcceptableArguments(a, now)
    ensures e.Some? ==> e.value.Argument?
  {
    if a.clienteId == EmptyGuid then Some(Argument("ClienteId não pode ser vazio"))
    else if a.propostaId == EmptyGuid then Some(Argument("PropostaId não pode ser vazio"))
    else if a.contaId == EmptyGuid then Some(Argument("ContaId não pode ser vazio"))
    else if IsBlank(a.codigoProduto) then Some(Argument("CodigoProduto não pode estar vazio"))
    else if !IsCardType(a.tipo) then Some(Argument("Tipo deve ser VIRTUAL ou PHYSICAL"))
    else if IsBlank(a.tokenPan) then Some(Argument("TokenPan não pode estar vazio"))
    else if IsBlank(a.tokenCvv) then Some(Argument("TokenCvv não pode estar vazio"))
    else if a.mesValidade < 1 || a.mesValidade > 12 then Some(Argument("MesValidade deve estar entre 1 e 12"))
    else if a.anoValidade < now.year then Some(Argument("AnoValidade deve ser no futuro"))
    else if a.limiteCreditoAprovado <= 0.0 then Some(Argument("LimiteCreditoAprovado deve ser maior que zero"))
    else if IsBlank(a.correlacaoId) then Some(Argument("CorrelacaoId não pode estar vazio"))
    else None
  }

  /** The row of a card the factory has just created. */
  function NewRow(id: Guid, a: CardArguments, now: DateTime): CardRow {
    CardRow(id, a.clienteId, a.propostaId, a.contaId, a.codigoProduto, a.tipo, a.tokenPan,
            a.tokenCvv, a.mesValidade, a.anoValidade, a.limiteCreditoAprovado, REQUESTED,
            None, None, a.correlacaoId, now, true)
  }

  /** MarcarComoEmitido on a card's state. */
  function Emitted(r: CardRow): Result<CardRow> {
    if r.Status != REQUESTED then
      Failure(InvalidOperation("Cartão não pode ser marcado como ISSUED do status " + r.Status))
    else Success(r.(Status := ISSUED))
  }

  /** Ativar on a card's state, the clock reading now. */
  function Activated(r: CardRow, canal: string, now: DateTime): Result<CardRow> {
    if !IsActivatableStatus(r.Status) then
      Failure(InvalidOperation("Cartão não pode ser ativado do status " + r.Status))
    else if !IsActivationChannel(canal) then Failure(Argument("CanalAtivacao inválido"))
    else Success(r.(Status := ACTIVE, CanalAtivacao := Some(canal), DataAtivacao := Some(now)))
  }

  /** EstaExpirado for an expiry month: the clock has reached the first day of the
      month that follows it. */
  predicate Expired(anoValidade: int, mesValidade: int, now: DateTime)
    requires 1 <= mesValidade <= 12
  {
    NotAfter(AddMonths(FirstOfMonth(anoValidade, mesValidade), 1), now)
  }

  class Card {
    const Id: Guid
    const ClienteId: Guid
    const PropostaId: Guid
    const ContaId: Guid
    const CodigoProduto: string
    const Tipo: string
    const TokenPan: string
    const TokenCvv: string
    const MesValidade: int
    const AnoValidade: int
    const LimiteCreditoAprovado: real
    var Status: string
    var DataAtivacao: Option<DateTime>
    var CanalAtivacao: Option<string>
    const CorrelacaoId: string
    const DataCriacao: DateTime
    const Ativo: bool

    /** The card's current state as a table row. */
    function Row(): CardRow
      reads this
    {
      CardRow(Id, ClienteId, PropostaId, ContaId, CodigoProduto, Tipo, TokenPan, TokenCvv,
              MesValidade, AnoValidade, LimiteCreditoAprovado, Status, DataAtivacao,
              CanalAtivacao, CorrelacaoId, DataCriacao, Ativo)
    }

    /** The entity the persistence layer materialises from a stored row. */
    constructor FromRow(r: CardRow)
      ensures Row() == r
    {
      Id := r.Id;
      ClienteId := r.ClienteId;
      PropostaId := r.PropostaId;
      ContaId := r.ContaId;
      CodigoProduto := r.CodigoProduto;
      Tipo := r.Tipo;
      TokenPan := r.TokenPan;
      TokenCvv := r.TokenCvv;
      MesValidade := r.MesValidade;
      AnoValidade := r.AnoValidade;
      LimiteCreditoAprovado := r.LimiteCreditoAprovado;
      Status := r.Status;
      DataAtivacao := r.DataAtivacao;
      CanalAtivacao := r.CanalAtivacao;
      CorrelacaoId := r.CorrelacaoId;
      DataCriacao := r.DataCriacao;
      Ativo := r.Ativo;
    }

    /** Card.Criar: validates the arguments and, only when they pass, draws a new
        identifier and builds a REQUESTED card stamped with the current instant. */
    static method Criar(a: CardArguments, now: DateTime, guids: GuidSource) returns (r: Result<Card>)
      modifies guids
      ensures CreationError(a, now).Some? ==>
                r == Failure(CreationError(a, now).value) && guids.issued == old(guids.issued)
      ensures CreationError(a, now).None? ==>
                && r.Success? && fresh(r.value)
                && guids.issued == old(guids.issued) + 1
                && r.value.Row() == NewRow(guids.values(old(guids.issued)), a, now)
    {
      var e := CreationError(a, now);
      if e.Some? {
        return Failure(e.value);
      }
      var id := guids.NewGuid();
      var c := new Card.FromRow(NewRow(id, a, now));
      return Success(c);
    }

    /** MarcarComoEmitido: REQUESTED becomes ISSUED; any other status throws and
        leaves the card as it was. */
    method MarcarComoEmitido() returns (o: Outcome)
      modifies this
      ensures var t := Emitted(old(Row()));
              if t.Success? then o == Pass && Row() == t.value
              else o == Fail(t.error) && Row() == old(Row())
    {
      if Status != REQUESTED {
        return Fail(InvalidOperation("Cartão não pode ser marcado como ISSUED do status " + Status));
      }
      Status := ISSUED;
      return Pass;
    }

    /** Ativar: from ISSUED or ACTIVATION_PENDING through one of the known channels,
        the card becomes ACTIVE and records the channel and the instant. The status
        is checked before the channel. */
    method Ativar(canal: string, now: DateTime) returns (o: Outcome)
      modifies this
      ensures var t := Activated(old(Row()), canal, now);
              if t.Success? then o == Pass && Row() == t.value
              else o == Fail(t.error) && Row() == old(Row())
    {
      if Status != ACTIVATION_PENDING && Status != ISSUED {
        return Fail(InvalidOperation("Cartão não pode ser ativado do status " + Status));
      }
      if !IsActivationChannel(canal) {
        return Fail(Argument("CanalAtivacao inválido"));
      }
      Status := ACTIVE;
      CanalAtivacao := Some(canal);
      DataAtivacao := Some(now);
      return Pass;
    }

    /** EstaExpirado. Building the first day of the expiry month needs a month in 1..12. */
    predicate EstaExpirado(now: DateTime)
      requires 1 <= MesValidade <= 12
    {
      Expired(AnoValidade, MesValidade, now)
    }

    /** PodeSerAtivado: an activatable status and not yet expired; the expiry is only
        computed when the status allows activation. */
    predicate PodeSerAtivado(now: DateTime)
      requires IsActivatableStatus(Status) ==> 1 <= MesValidade <= 12
      reads this
    {
      IsActivatableStatus(Status) && !EstaExpirado(now)
    }
  }

  /** A card expires exactly when the clock's month comes after its expiry month. */
  lemma ExpiredIffPastExpiryMonth(anoValidade: int, mesValidade: int, now: DateTime)
    requires 1 <= mesValidade <= 12 && Valid(now)
    ensures Expired(anoValidade, mesValidade, now) <==>
              now.year * 12 + now.month > anoValidade * 12 + mesValidade
  {
    AddMonthsOfFirstOfMonth(anoValidade, mesValidade);
  }

  /** A card whose expiry month is over cannot be activated, whatever its status. */
  lemma ExpiredCardNotActivatable(c: Card, now: DateTime)
    requires 1 <= c.MesValidade <= 12 && Valid(now)
    requires now.year * 12 + now.month > c.AnoValidade * 12 + c.MesValidade
    ensures !c.PodeSerAtivado(now)
  {
    ExpiredIffPastExpiryMonth(c.AnoValidade, c.MesValidade, now);
  }

  /** Ativar(canal) succeeds exactly from the activatable statuses with a known
      channel; the expiry date plays no part. */
  lemma ActivationSucceedsIff(r: CardRow, canal: string, now: DateTime)
    ensures Activated(r, canal, now).Success? <==> IsActivatableStatus(r.Status) && IsActivationChannel(canal)
    ensures Activated(r, canal, now).Success? ==>
              var n := Activated(r, canal, now).value;
              n.Status == ACTIVE && n.CanalAtivacao == Some(canal) && n.DataAtivacao == Some(now)
              && n.(Status := r.Status, CanalAtivacao := r.CanalAtivacao, DataAtivacao := r.DataAtivacao) == r
  {
  }

  /** A card that can be activated accepts any of the known channels. */
  lemma ActivatableCardActivates(c: Card, canal: string, now: DateTime)
    requires IsActivatableStatus(c.Status) ==> 1 <= c.MesValidade <= 12
    requires c.PodeSerAtivado(now) && IsActivationChannel(canal)
    ensures Activated(c.Row(), canal, now).Success?
  {
  }

  /** A second activation fails with InvalidOperation, whatever the channel. */
  lemma SecondActivationFails(r: CardRow, canal1: string, canal2: string, t1: DateTime, t2: DateTime)
    requires Activated(r, canal1, t1).Success?
    ensures Activated(Activated(r, canal1, t1).value, canal2, t2) ==
              Failure(InvalidOperation("Cartão não pode ser ativado do status ACTIVE"))
  {
    assert "Cartão não pode ser ativado do status " + ACTIVE == "Cartão não pode ser ativado do status ACTIVE";
  }

  /** The year check at creation ignores the month: a card whose expiry month is
      already over is accepted. */
  lemma CreationAcceptsExpiredMonth()
    ensures var now := DateTime(2026, 6, 15, 0);
            var a := CardArguments(1, 2, 3, "VISA_GOLD", VIRTUAL, "tok_pan_x", "tok_cvv_x", 1, 2026, 1000.0, "c-1");
            CreationError(a, now).None? && Expired(a.anoValidade, a.mesValidade, now)
  {
    assert !IsWhiteSpace("VISA_GOLD"[0]) && !IsWhiteSpace("tok_pan_x"[0]);
    assert !IsWhiteSpace("tok_cvv_x"[0]) && !IsWhiteSpace("c-1"[0]);
  }

  /** A life-cycle command applied to a stored card. */
  datatype Command = Emit | Activate(canal: string, at: DateTime)

  /** The state after a command; a command that throws leaves the state as it was. */
  function Apply(r: CardRow, c: Command): CardRow {
    var t := match c
      case Emit => Emitted(r)
      case Activate(canal, at) => Activated(r, canal, at);
    if t.Success? then t.value else r
  }

  function Run(r: CardRow, cs: seq<Command>): CardRow
    decreases |cs|
  {
    if cs == [] then r else Run(Apply(r, cs[0]), cs[1..])
  }

  /** The life-cycle invariant: a known status, and an activation channel and instant
      recorded exactly when the card is ACTIVE, the channel being a known one. */
  predicate LifeCycleConsistent(r: CardRow) {
    && IsCardStatus(r.Status)
    && (r.Status == ACTIVE <==> r.DataAtivacao.Some?)
    && (r.Status == ACTIVE <==> r.CanalAtivacao.Some?)
    && (r.CanalAtivacao.Some? ==> IsActivationChannel(r.CanalAtivacao.value))
  }

  lemma NewCardConsistent(id: Guid, a: CardArguments, now: DateTime)
    ensures LifeCycleConsistent(NewRow(id, a, now)) && NewRow(id, a, now).Status == REQUESTED
  {
  }

  /** Every sequence of life-cycle commands keeps the invariant. */
  lemma {:induction false} RunKeepsConsistent(r: CardRow, cs: seq<Command>)
    requires LifeCycleConsistent(r)
    ensures LifeCycleConsistent(Run(r, cs))
    decreases |cs|
  {
    if cs != [] {
      RunKeepsConsistent(Apply(r, cs[0]), cs[1..]);
    }
  }

  /** ACTIVE is final: once active, no command changes the card any more, so its
      activation channel and instant are recorded once and for all. */
  lemma {:induction false} ActiveIsFinal(r: CardRow, cs: seq<Command>)
    requires r.Status == ACTIVE
    ensures Run(r, cs) == r
    decreases |cs|
  {
    if cs != [] {
      assert Apply(r, cs[0]) == r;
      ActiveIsFinal(r, cs[1..]);
    }
  }

  /** From REQUESTED, commands only ever reach ISSUED and ACTIVE. */
  lemma {:induction false} RunFromRequested(r: CardRow, cs: seq<Command>)
    requires r.Status == REQUESTED || r.Status == ISSUED || r.Status == ACTIVE
    ensures var s := Run(r, cs).Status; s == REQUESTED || s == ISSUED || s == ACTIVE
    decreases |cs|
  {
    if cs != [] {
      RunFromRequested(Apply(r, cs[0]), cs[1..]);
    }
  }
}
