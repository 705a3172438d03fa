/** The pure rules of card issuance: request validation, how many cards of
    which class, the BIN for a product, the printed expiry, the masked number
    and the body of the card.issued event. */
module CardIssuanceRules {
  import opened Common
  import opened Guids
  import opened DateTimes
  import Json
  import opened Cards
  import opened PanGenerator
  import opened TokenVaults

  /** Which delivery forms the customer accepts. */
  datatype DeliveryConfig = DeliveryConfig(Fisico: bool, Virtual: bool)

  /** An issuance request. A null request is the None of an Option. */
  datatype CardIssuanceRequest = CardIssuanceRequest(
    PropostaId: Guid,
    ClienteId: Guid,
    ContaId: Guid,
    QuantidadeCartoesEmitir: int,
    LimiteCreditoPorCartao: real,
    CodigoProduto: string,
    Entrega: DeliveryConfig,
    CorrelacaoId: string,
    ChaveIdempotencia: string)

  /** The issuance settings. */
  datatype IssuanceOptions = IssuanceOptions(BinVisa: string, BinMastercard: string, AnosValidade: int)

  /** The class defaults, which the service registration sets again verbatim. */
  const DefaultIssuanceOptions := IssuanceOptions("516233", "453912", 3)

  predicate RequestAcceptable(r: CardIssuanceRequest) {
    && r.ClienteId != EmptyGuid
    && r.ContaId != EmptyGuid
    && r.PropostaId != EmptyGuid
    && !IsBlank(r.CodigoProduto)
    && r.LimiteCreditoPorCartao > 0.0
    && 1 <= r.QuantidadeCartoesEmitir <= 2
    && (r.Entrega.Fisico || r.Entrega.Virtual)
    && !IsBlank(r.CorrelacaoId)
  }

  /** ValidarRequisicao: the exception for the first check that fails, in order. */
  function RequestError(request: Option<CardIssuanceRequest>): (e: Option<Error>)
    ensures e.None? <==> request.Some? && RequestAcceptable(request.value)
    ensures request.None? ==> e == Some(ArgumentNull("request"))
    ensures request.Some? && e.Some? ==> e.value.Argument?
  {
    if request.None? then Some(ArgumentNull("request"))
    else
      var r := request.value;
      if r.ClienteId == EmptyGuid then Some(Argument("ClienteId não pode ser vazio"))
      else if r.ContaId == EmptyGuid then Some(Argument("ContaId não pode ser vazio"))
      else if r.PropostaId == EmptyGuid then Some(Argument("PropostaId não pode ser vazio"))
      else if IsBlank(r.CodigoProduto) then Some(Argument("CodigoProduto não pode estar vazio"))
      else if r.LimiteCreditoPorCartao <= 0.0 then Some(Argument("LimiteCreditoPorCartao deve ser maior que zero"))
      else if r.QuantidadeCartoesEmitir < 1 || r.QuantidadeCartoesEmitir > 2 then
        Some(Argument("QuantidadeCartoesEmitir deve ser 1 ou 2"))
      else if !r.Entrega.Fisico && !r.Entrega.Virtual then
        Some(Argument("Ao menos um tipo de entrega deve estar habilitado"))
      else if IsBlank(r.CorrelacaoId) then Some(Argument("CorrelacaoId não pode estar vazio"))
      else None
  }

  /** CalcularQuantidadeCartoes: the requested count clamped into 1..2. */
  function CalcularQuantidadeCartoes(solicitado: int): (n: int)
    ensures 1 <= n <= 2
    ensures 1 <= solicitado <= 2 ==> n == solicitado
    ensures solicitado < 1 ==> n == 1
    ensures solicitado > 2 ==> n == 2
  {
    Min(2, Max(1, solicitado))
  }

  /** DetermirarTiposCartao: one card is virtual when virtual delivery is accepted;
      two cards are one of each accepted kind, the only accepted kind twice. */
  function DeterminarTiposCartao(entrega: DeliveryConfig, quantidade: int): (tipos: seq<string>)
    ensures forall k :: 0 <= k < |tipos| ==> IsCardType(tipos[k])
  {
    if quantidade == 1 then [if entrega.Virtual then VIRTUAL else PHYSICAL]
    else if quantidade == 2 then
      var t := (if entrega.Virtual then [VIRTUAL] else []) + (if entrega.Fisico then [PHYSICAL] else []);
      if |t| == 1 then t + [t[0]] else t
    else []
  }

  /** The classes chosen: one per card for a validated request, both kinds when both
      are accepted, the virtual one first, and nothing for two cards with no delivery. */
  lemma CardClasses(entrega: DeliveryConfig, quantidade: int)
    ensures (1 <= quantidade <= 2 && (entrega.Fisico || entrega.Virtual)) ==> |DeterminarTiposCartao(entrega, quantidade)| == quantidade
    ensures quantidade == 1 ==> DeterminarTiposCartao(entrega, 1) == [if entrega.Virtual then VIRTUAL else PHYSICAL]
    ensures entrega.Fisico && entrega.Virtual ==> DeterminarTiposCartao(entrega, 2) == [VIRTUAL, PHYSICAL]
    ensures entrega.Virtual && !entrega.Fisico ==> DeterminarTiposCartao(entrega, 2) == [VIRTUAL, VIRTUAL]
    ensures !entrega.Virtual && entrega.Fisico ==> DeterminarTiposCartao(entrega, 2) == [PHYSICAL, PHYSICAL]
    ensures !entrega.Virtual && !entrega.Fisico ==> DeterminarTiposCartao(entrega, 2) == []
    ensures quantidade < 1 || quantidade > 2 ==> DeterminarTiposCartao(entrega, quantidade) == []
  {
  }

  /** SelecionarBin: Mastercard products take the Mastercard BIN, everything else,
      unknown codes included, the Visa one. */
  function SelecionarBin(codigoProduto: string, options: IssuanceOptions): (bin: string)
    ensures bin == options.BinVisa || bin == options.BinMastercard
  {
    if codigoProduto == "MASTERCARD_GOLD" || codigoProduto == "MASTERCARD_PLATINUM" then options.BinMastercard
    else options.BinVisa
  }

  lemma BinByProduct(codigoProduto: string, options: IssuanceOptions)
    requires options.BinVisa != options.BinMastercard
    ensures SelecionarBin(codigoProduto, options) == options.BinMastercard
            <==> codigoProduto == "MASTERCARD_GOLD" || codigoProduto == "MASTERCARD_PLATINUM"
  {
  }

  /** The default BINs are six digits, so a 16-digit number is generated from them. */
  lemma DefaultBinsGenerate(codigoProduto: string)
    ensures var bin := SelecionarBin(codigoProduto, DefaultIssuanceOptions);
            && PanArgumentError(bin, 16).None? && AllDigits(bin) && |bin| == 6
  {
    var bin := SelecionarBin(codigoProduto, DefaultIssuanceOptions);
    assert !IsWhiteSpace(bin[0]);
  }

  /** n in decimal, left-padded with zeros to w characters. */
  function Pad(n: nat, w: nat): (s: string)
    ensures |s| >= w && forall i :: 0 <= i < |s| ==> IsAsciiDigit(s[i])
  {
    var d := NatToString(n);
    if |d| >= w then d else seq(w - |d|, _ => '0') + d
  }

  /** The remainder of C#'s %, which takes the sign of the dividend. */
  function CsRem(a: int, b: int): int
    requires b > 0
  {
    if a >= 0 then a % b else -((-a) % b)
  }

  /** The "D2" format of an int. */
  function D2(n: int): string {
    if n < 0 then "-" + Pad(-n, 2) else Pad(n, 2)
  }

  /** The printed expiry "MM/YY". */
  function Validade(mes: int, ano: int): string {
    D2(mes) + "/" + D2(CsRem(ano, 100))
  }

  lemma Pad2Value(n: nat)
    requires n < 100
    ensures |Pad(n, 2)| == 2 && NumeralValue(Pad(n, 2)) == n
  {
    var s := Pad(n, 2);
    if n < 10 {
      assert s == ['0', DigitChar(n)];
      assert s[..1] == ['0'] && ['0'][..0] == [];
    } else {
      assert NatToString(n) == NatToString(n / 10) + [DigitChar(n % 10)];
      NatToStringValue(n);
    }
  }

  /** For a card's month and a year that is not negative, the expiry is five
      characters, and reads back as the month and the last two digits of the year. */
  lemma ValidadeReadsBack(mes: int, ano: int)
    requires 1 <= mes <= 12 && ano >= 0
    ensures var v := Validade(mes, ano);
            && |v| == 5 && v[2] == '/'
            && (forall i :: 0 <= i < 5 && i != 2 ==> IsAsciiDigit(v[i]))
            && NumeralValue(v[..2]) == mes && NumeralValue(v[3..]) == ano % 100
  {
    Pad2Value(mes);
    Pad2Value(ano % 100);
    var v := Validade(mes, ano);
    assert v[..2] == Pad(mes, 2);
    assert v[3..] == Pad(ano % 100, 2);
  }

  /** MascararPan: the first four and the digits 12..15 of the stored number when
      the vault gives back at least 16 characters, otherwise the last (up to) four
      characters of the token. */
  function MascararPan(vault: InMemoryTokenVault, tokenPan: string): (m: string)
    reads vault
    requires |vault.encryptionKey| == 32
  {
    var p := vault.RecuperarPan(tokenPan);
    if p.Success? && |p.value| >= 16 then p.value[..4] + " **** **** " + p.value[12..16]
    else "**** **** **** " + tokenPan[Max(0, |tokenPan| - 4)..]
  }

  /** The mask of a stored number shows its first four and its digits 12..15 around a
      fixed middle, so two numbers that agree there cannot be told apart. */
  lemma MaskHidesMiddle(vault: InMemoryTokenVault, t1: string, t2: string, p1: string, p2: string)
    requires |vault.encryptionKey| == 32
    requires vault.RecuperarPan(t1) == Success(p1) && vault.RecuperarPan(t2) == Success(p2)
    requires |p1| >= 16 && |p2| >= 16 && p1[..4] == p2[..4] && p1[12..16] == p2[12..16]
    ensures MascararPan(vault, t1) == MascararPan(vault, t2)
    ensures |MascararPan(vault, t1)| == 19 && MascararPan(vault, t1)[4..15] == " **** **** "
  {
  }

  /** A token the vault does not know is masked by its own tail. */
  lemma MaskOfUnknownToken(vault: InMemoryTokenVault, token: string)
    requires |vault.encryptionKey| == 32 && token !in vault.store
    ensures MascararPan(vault, token) == "**** **** **** " + token[Max(0, |token| - 4)..]
    ensures |MascararPan(vault, token)| == 15 + Min(4, |token|)
  {
  }

  /** DateTime in the round-trip form JSON uses for a UTC instant,
      yyyy-MM-ddTHH:mm:ss[.fffffff]Z with trailing zeros of the fraction dropped. */
  function IsoUtc(d: DateTime): string
    requires Valid(d)
  {
    var t: nat := d.ticks;
    var frac := t % 10_000_000;
    (if d.year < 0 then "-" + Pad(-d.year, 4) else Pad(d.year, 4))
    + "-" + Pad(d.month, 2) + "-" + Pad(d.day, 2)
    + "T" + Pad(t / 36_000_000_000, 2) + ":" + Pad(t / 600_000_000 % 60, 2) + ":" + Pad(t / 10_000_000 % 60, 2)
    + (if frac == 0 then "" else "." + TrimTrailingZeros(Pad(frac, 7)))
    + "Z"
  }

  function TrimTrailingZeros(s: string): string {
    if s != [] && s[|s| - 1] == '0' then TrimTrailingZeros(s[..|s| - 1]) else s
  }

  /** One element of the event's card list. */
  function IssuedCardValue(c: CardRow): Json.Value {
    Json.Obj([
      Json.Member("IdCartao", Json.Str(FormatD(c.Id))),
      Json.Member("TokenPan", Json.Str(c.TokenPan)),
      Json.Member("Validade", Json.Str(Validade(c.MesValidade, c.AnoValidade))),
      Json.Member("Tipo", Json.Str(c.Tipo)),
      Json.Member("Status", Json.Str(c.Status))])
  }

  function IssuedCardValues(cards: seq<CardRow>): (vs: seq<Json.Value>)
    ensures |vs| == |cards| && forall i :: 0 <= i < |cards| ==> vs[i] == IssuedCardValue(cards[i])
  {
    seq(|cards|, i requires 0 <= i < |cards| => IssuedCardValue(cards[i]))
  }

  /** The card.issued event, members in declaration order. */
  function IssuedEventValue(r: CardIssuanceRequest, cards: seq<CardRow>, now: DateTime): Json.Value
    requires Valid(now)
  {
    Json.Obj([
      Json.Member("PropostaId", Json.Str(FormatD(r.PropostaId))),
      Json.Member("ClienteId", Json.Str(FormatD(r.ClienteId))),
      Json.Member("ContaId", Json.Str(FormatD(r.ContaId))),
      Json.Member("Cartoes", Json.Arr(IssuedCardValues(cards))),
      Json.Member("CorrelacaoId", Json.Str(r.CorrelacaoId)),
      Json.Member("DataEmissao", Json.Str(IsoUtc(now)))])
  }

  function IssuedEventPayload(r: CardIssuanceRequest, cards: seq<CardRow>, now: DateTime): (p: string)
    requires Valid(now)
    ensures !IsBlank(p)
  {
    Json.Write(IssuedEventValue(r, cards, now))
  }

  /** The event names the customer and lists every issued card, in issue order. */
  lemma IssuedEventListsCards(r: CardIssuanceRequest, cards: seq<CardRow>, now: DateTime)
    requires Valid(now)
    ensures Json.Field(IssuedEventValue(r, cards, now), "ClienteId") == Json.Str(FormatD(r.ClienteId))
    ensures Json.Field(IssuedEventValue(r, cards, now), "Cartoes") == Json.Arr(IssuedCardValues(cards))
  {
    var ms := IssuedEventValue(r, cards, now).fields;
    assert "PropostaId"[0] != "ClienteId"[0] && "PropostaId"[0] != "Cartoes"[0];
    assert "ClienteId"[1] != "Cartoes"[1] && "ContaId"[1] != "Cartoes"[1];
    assert Json.FieldIn(ms, "ClienteId") == Json.FieldIn(ms[1..], "ClienteId");
    assert Json.FieldIn(ms, "Cartoes") == Json.FieldIn(ms[1..], "Cartoes");
    assert Json.FieldIn(ms[1..], "Cartoes") == Json.FieldIn(ms[2..], "Cartoes") by {
      assert ms[1..][1..] == ms[2..];
    }
    assert Json.FieldIn(ms[2..], "Cartoes") == Json.FieldIn(ms[3..], "Cartoes") by {
      assert ms[2..][1..] == ms[3..];
    }
  }

  /** Each card of the event carries its identifier, its PAN token and its printed
      expiry; no member holds the card number or the CVV. */
  lemma IssuedCardFields(c: CardRow)
    ensures Json.Field(IssuedCardValue(c), "IdCartao") == Json.Str(FormatD(c.Id))
    ensures Json.Field(IssuedCardValue(c), "TokenPan") == Json.Str(c.TokenPan)
    ensures Json.Field(IssuedCardValue(c), "Validade") == Json.Str(Validade(c.MesValidade, c.AnoValidade))
    ensures forall m :: m in IssuedCardValue(c).fields ==> m.name in {"IdCartao", "TokenPan", "Validade", "Tipo", "Status"}
  {
    var ms := IssuedCardValue(c).fields;
    assert "IdCartao"[0] != "TokenPan"[0] && "IdCartao"[0] != "Validade"[0] && "TokenPan"[0] != "Validade"[0];
    assert Json.FieldIn(ms, "TokenPan") == Json.FieldIn(ms[1..], "TokenPan");
    assert Json.FieldIn(ms[1..], "Validade") == Json.FieldIn(ms[2..], "Validade") by {
      assert ms[1..][1..] == ms[2..];
    }
  }
}
