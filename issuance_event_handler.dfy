/** The application-side consumer of issuance requests: it checks the message,
    turns it into an issuance request and hands it to the issuance service,
    letting any exception through. */
module IssuanceEventHandler {
  import opened Common
  import opened Guids
  import opened DateTimes
  import opened Cards
  import opened CardIssuanceRules
  import opened CardIssuance
  import opened IntegrationEvents

  const VIRTUAL_DELIVERY := "VIRTUAL"
  const BOTH_DELIVERIES := "AMBOS"

  /** ValidarEvento: the exception for the first check that fails, in order. */
  function ValidarEvento(evento: PedidoEmissaoCartaoIntegrationEvent): (e: Option<Error>)
    ensures e.None? <==>
              && evento.ClienteId != EmptyGuid && evento.PropostaId != EmptyGuid && evento.ContaId != EmptyGuid
              && !IsBlank(evento.CodigoProduto)
              && 1 <= evento.QuantidadeCartoesEmitir <= 2
              && evento.LimiteCreditoPorCartao > 0.0
              && !IsBlank(evento.CorrelacaoId)
    ensures e.Some? ==> e.value.Argument?
  {
    if evento.ClienteId == EmptyGuid then Some(Argument("ClienteId não pode ser vazio"))
    else if evento.PropostaId == EmptyGuid then Some(Argument("PropostaId não pode ser vazio"))
    else if evento.ContaId == EmptyGuid then Some(Argument("ContaId não pode ser vazio"))
    else if IsBlank(evento.CodigoProduto) then Some(Argument("CodigoProduto não pode estar vazio"))
    else if evento.QuantidadeCartoesEmitir <= 0 || evento.QuantidadeCartoesEmitir > 2 then
      Some(Argument("QuantidadeCartoesEmitir deve estar entre 1 e 2"))
    else if evento.LimiteCreditoPorCartao <= 0.0 then Some(Argument("LimiteCreditoPorCartao deve ser maior que zero"))
    else if IsBlank(evento.CorrelacaoId) then Some(Argument("CorrelacaoId não pode estar vazio"))
    else None
  }

  /** The delivery flags for the message's delivery form: VIRTUAL is virtual only,
      AMBOS is both, and every other form, blank or unknown ones included, is
      physical only. */
  function MapearEntrega(tipoEntrega: string): (d: DeliveryConfig)
    ensures d.Fisico || d.Virtual
    ensures tipoEntrega == VIRTUAL_DELIVERY ==> d == DeliveryConfig(false, true)
    ensures tipoEntrega == BOTH_DELIVERIES ==> d == DeliveryConfig(true, true)
    ensures tipoEntrega != VIRTUAL_DELIVERY && tipoEntrega != BOTH_DELIVERIES ==> d == DeliveryConfig(true, false)
  {
    DeliveryConfig(tipoEntrega != VIRTUAL_DELIVERY, tipoEntrega == VIRTUAL_DELIVERY || tipoEntrega == BOTH_DELIVERIES)
  }

  /** The issuance request built from the message: every field copied, the
      delivery form mapped to flags. */
  function ParaRequisicao(evento: PedidoEmissaoCartaoIntegrationEvent): CardIssuanceRequest {
    CardIssuanceRequest(
      evento.PropostaId, evento.ClienteId, evento.ContaId, evento.QuantidadeCartoesEmitir,
      evento.LimiteCreditoPorCartao, evento.CodigoProduto, MapearEntrega(evento.Entrega.TipoEntrega),
      evento.CorrelacaoId, evento.ChaveIdempotencia)
  }

  /** The handler accepts exactly the messages whose request the service accepts,
      so the service's own checks never reject a request the handler passed on, and
      its delivery check can never fire for one. */
  lemma HandlerAgreesWithService(evento: PedidoEmissaoCartaoIntegrationEvent)
    ensures ValidarEvento(evento).None? <==> RequestError(Some(ParaRequisicao(evento))).None?
    ensures RequestError(Some(ParaRequisicao(evento)))
              != Some(Argument("Ao menos um tipo de entrega deve estar habilitado"))
  {
    var r := ParaRequisicao(evento);
    assert r.Entrega.Fisico || r.Entrega.Virtual;
  }

  /** The card classes a valid message yields: VIRTUAL gives virtual cards only,
      AMBOS gives the virtual card first and, for two, a physical one, and any other
      delivery form gives physical cards only. */
  lemma DeliveryFormClasses(tipoEntrega: string, quantidade: int)
    requires 1 <= quantidade <= 2
    ensures var tipos := DeterminarTiposCartao(MapearEntrega(tipoEntrega), quantidade);
            && |tipos| == quantidade
            && (tipoEntrega == VIRTUAL_DELIVERY ==> forall k :: 0 <= k < |tipos| ==> tipos[k] == VIRTUAL)
            && (tipoEntrega == BOTH_DELIVERIES ==> tipos == [VIRTUAL, PHYSICAL][..quantidade])
            && (tipoEntrega != VIRTUAL_DELIVERY && tipoEntrega != BOTH_DELIVERIES ==>
                  forall k :: 0 <= k < |tipos| ==> tipos[k] == PHYSICAL)
  {
    CardClasses(MapearEntrega(tipoEntrega), quantidade);
  }

  class PedidoEmissaoCartaoEventHandler {
    const cardIssuanceService: CardIssuanceService

    constructor (cardIssuanceService: CardIssuanceService)
      ensures this.cardIssuanceService == cardIssuanceService
    {
      this.cardIssuanceService := cardIssuanceService;
    }

    /** HandleAsync: a message that fails validation is refused before the service is
        called; otherwise the outcome is exactly the service's outcome for the mapped
        request, its exceptions included. */
    method HandleAsync(evento: PedidoEmissaoCartaoIntegrationEvent, now: DateTime) returns (r: Result<seq<CardRow>>)
      requires cardIssuanceService.Valid() && DateTimes.Valid(now)
      modifies cardIssuanceService.cardRepository, cardIssuanceService.outboxRepository, cardIssuanceService.guids
      modifies cardIssuanceService.tokenVault, cardIssuanceService.tokenVault.ivs
      modifies cardIssuanceService.panGenerator.random
      ensures cardIssuanceService.Valid()
      ensures ValidarEvento(evento).Some? ==>
                && r == Failure(ValidarEvento(evento).value)
                && cardIssuanceService.cardRepository.cards == old(cardIssuanceService.cardRepository.cards)
                && cardIssuanceService.cardRepository.keys == old(cardIssuanceService.cardRepository.keys)
                && cardIssuanceService.outboxRepository.events == old(cardIssuanceService.outboxRepository.events)
                && cardIssuanceService.guids.issued == old(cardIssuanceService.guids.issued)
      ensures ValidarEvento(evento).None? && Replayed(evento.ChaveIdempotencia, old(cardIssuanceService.cardRepository.keys)) ==>
                && r == Success(old(cardIssuanceService.cardRepository.ObterPorChaveIdempotenciaAsync(evento.ChaveIdempotencia)))
                && cardIssuanceService.cardRepository.cards == old(cardIssuanceService.cardRepository.cards)
                && cardIssuanceService.outboxRepository.events == old(cardIssuanceService.outboxRepository.events)
      ensures ValidarEvento(evento).None? && !Replayed(evento.ChaveIdempotencia, old(cardIssuanceService.cardRepository.keys)) ==>
                cardIssuanceService.Issued(ParaRequisicao(evento), r, old(cardIssuanceService.cardRepository.cards),
                                           old(cardIssuanceService.cardRepository.keys),
                                           old(cardIssuanceService.outboxRepository.events),
                                           old(cardIssuanceService.guids.issued), now)
    {
      var e := ValidarEvento(evento);
      if e.Some? {
        return Failure(e.value);
      }
      var request := ParaRequisicao(evento);
      HandlerAgreesWithService(evento);
      r := cardIssuanceService.EmitirCartoes(Some(request), now);
    }
  }
}
