/** The API-side consumer of issuance requests: it checks the customer data and
    the credit score and answers on the bus, publishing either a "processing" notice
    or a failure notice; nothing it does throws. */
module ApiEventHandler {
  import opened Common
  import opened Guids
  import opened DateTimes
  import Json
  import opened CardIssuanceRules
  import opened OutboxDispatch
  import opened IntegrationEvents

  /** The queue names of the bus settings. */
  datatype QueuesSettings = QueuesSettings(CartaoEmitido: string, CartaoEmissaoFalha: string)

  const DefaultQueues := QueuesSettings("cartao.emitido", "cartao.emissao.falha")

  /** The lowest score that is let through to issuance. */
  const SCORE_MINIMO := 600
  const PROCESSANDO := "PROCESSANDO"
  const LOW_SCORE_REASON := "Score de crédito insuficiente para emissão de cartão"
  const ERROR_PREFIX := "Erro ao emitir cartão: "

  /** ValidarEvento: the message of the ArgumentException for the first check that
      fails, in order. */
  function ValidarEvento(evento: PedidoEmissaoCartaoIntegrationEvent): (e: Option<string>)
    ensures e.None? <==>
              && evento.ClienteId != EmptyGuid
              && !IsBlank(evento.Nome) && !IsBlank(evento.CPF) && !IsBlank(evento.Email)
              && 0 <= evento.ScoreCredito <= 1000
  {
    if evento.ClienteId == EmptyGuid then Some("ClienteId não pode ser vazio")
    else if IsBlank(evento.Nome) then Some("Nome do cliente não pode ser vazio")
    else if IsBlank(evento.CPF) then Some("CPF do cliente não pode ser vazio")
    else if IsBlank(evento.Email) then Some("Email do cliente não pode ser vazio")
    else if evento.ScoreCredito < 0 || evento.ScoreCredito > 1000 then Some("Score de crédito deve estar entre 0 e 1000")
    else None
  }

  /** What the handler decides before publishing: to announce the issuance, or to
      refuse it with a reason. */
  datatype Decision = Accept | Refuse(motivo: string)

  /** The decision: a message that fails validation is refused with the exception's
      message after the error prefix, a valid one with a score below the minimum with
      the low-score reason, and any other is accepted. */
  function Decidir(evento: PedidoEmissaoCartaoIntegrationEvent): (d: Decision)
    ensures d.Accept? <==> ValidarEvento(evento).None? && evento.ScoreCredito >= SCORE_MINIMO
    ensures d.Accept? ==> SCORE_MINIMO <= evento.ScoreCredito <= 1000
    ensures ValidarEvento(evento).Some? ==> d == Refuse(ERROR_PREFIX + ValidarEvento(evento).value)
    ensures ValidarEvento(evento).None? && evento.ScoreCredito < SCORE_MINIMO ==> d == Refuse(LOW_SCORE_REASON)
  {
    match ValidarEvento(evento)
    case Some(m) => Refuse(ERROR_PREFIX + m)
    case None => if evento.ScoreCredito < SCORE_MINIMO then Refuse(LOW_SCORE_REASON) else Accept
  }

  /** The "processing" notice: the customer, the status and the instant. */
  function SuccessValue(clienteId: Guid, now: DateTime): Json.Value
    requires DateTimes.Valid(now)
  {
    Json.Obj([
      Json.Member("ClienteId", Json.Str(FormatD(clienteId))),
      Json.Member("Status", Json.Str(PROCESSANDO)),
      Json.Member("DataEmissao", Json.Str(IsoUtc(now)))])
  }

  /** The failure notice: the customer, the reason and the instant. */
  function FailureValue(clienteId: Guid, motivo: string, now: DateTime): Json.Value
    requires DateTimes.Valid(now)
  {
    Json.Obj([
      Json.Member("ClienteId", Json.Str(FormatD(clienteId))),
      Json.Member("Motivo", Json.Str(motivo)),
      Json.Member("DataTentativa", Json.Str(IsoUtc(now)))])
  }

  function SuccessPayload(clienteId: Guid, now: DateTime): (p: string)
    requires DateTimes.Valid(now)
    ensures !IsBlank(p)
  {
    Json.Write(SuccessValue(clienteId, now))
  }

  function FailurePayload(clienteId: Guid, motivo: string, now: DateTime): (p: string)
    requires DateTimes.Valid(now)
    ensures !IsBlank(p)
  {
    Json.Write(FailureValue(clienteId, motivo, now))
  }

  /** The notices name the customer; the success one carries the PROCESSANDO status
      and the failure one the reason. */
  lemma NoticeFields(clienteId: Guid, motivo: string, now: DateTime)
    requires DateTimes.Valid(now)
    ensures Json.Field(SuccessValue(clienteId, now), "ClienteId") == Json.Str(FormatD(clienteId))
    ensures Json.Field(SuccessValue(clienteId, now), "Status") == Json.Str(PROCESSANDO)
    ensures Json.Field(FailureValue(clienteId, motivo, now), "ClienteId") == Json.Str(FormatD(clienteId))
    ensures Json.Field(FailureValue(clienteId, motivo, now), "Motivo") == Json.Str(motivo)
  {
    assert "ClienteId" != "Status" && "ClienteId" != "Motivo" by {
      assert "ClienteId"[0] != "Status"[0] && "ClienteId"[0] != "Motivo"[0];
    }
    Json.FieldAt(SuccessValue(clienteId, now).fields, 1, "Status");
    Json.FieldAt(FailureValue(clienteId, motivo, now).fields, 1, "Motivo");
  }

  class PedidoEmissaoCartaoApiHandler {
    const messagePublisher: MessagePublisher
    const queues: QueuesSettings

    constructor (messagePublisher: MessagePublisher, queues: QueuesSettings)
      ensures this.messagePublisher == messagePublisher && this.queues == queues
    {
      this.messagePublisher := messagePublisher;
      this.queues := queues;
    }

    /** PublicarFalha: one attempt to publish the failure notice; a transport error
        is swallowed. */
    method PublicarFalha(clienteId: Guid, motivo: string, now: DateTime)
      requires DateTimes.Valid(now)
      modifies messagePublisher
      ensures messagePublisher.calls == old(messagePublisher.calls) + 1
      ensures messagePublisher.published == old(messagePublisher.published)
                + if messagePublisher.outcomes(old(messagePublisher.calls))
                  then [(queues.CartaoEmissaoFalha, FailurePayload(clienteId, motivo, now))] else []
    {
      var ok := messagePublisher.PublishAsync(queues.CartaoEmissaoFalha, FailurePayload(clienteId, motivo, now));
    }

    /** HandleAsync. A refused message leads to one attempt to publish the failure
        notice with the reason and nothing else. An accepted one leads to one attempt
        to publish the processing notice; when the transport rejects it, the failure
        notice carrying the transport's message (`transportError`) is attempted once.
        At most one notice is ever delivered, and no exception escapes. */
    method HandleAsync(evento: PedidoEmissaoCartaoIntegrationEvent, now: DateTime, transportError: string)
      requires DateTimes.Valid(now)
      modifies messagePublisher
      ensures |messagePublisher.published| <= |old(messagePublisher.published)| + 1
      ensures var c := old(messagePublisher.calls);
              var ok := messagePublisher.outcomes;
              Decidir(evento).Refuse? ==>
                && messagePublisher.calls == c + 1
                && messagePublisher.published == old(messagePublisher.published)
                     + if ok(c) then [(queues.CartaoEmissaoFalha, FailurePayload(evento.ClienteId, Decidir(evento).motivo, now))]
                       else []
      ensures var c := old(messagePublisher.calls);
              var ok := messagePublisher.outcomes;
              Decidir(evento).Accept? && ok(c) ==>
                && messagePublisher.calls == c + 1
                && messagePublisher.published == old(messagePublisher.published)
                     + [(queues.CartaoEmitido, SuccessPayload(evento.ClienteId, now))]
      ensures var c := old(messagePublisher.calls);
              var ok := messagePublisher.outcomes;
              Decidir(evento).Accept? && !ok(c) ==>
                && messagePublisher.calls == c + 2
                && messagePublisher.published == old(messagePublisher.published)
                     + if ok(c + 1)
                       then [(queues.CartaoEmissaoFalha,
                              FailurePayload(evento.ClienteId, ERROR_PREFIX + transportError, now))]
                       else []
    {
      var e := ValidarEvento(evento);
      if e.Some? {
        PublicarFalha(evento.ClienteId, ERROR_PREFIX + e.value, now);
        return;
      }
      if evento.ScoreCredito < SCORE_MINIMO {
        PublicarFalha(evento.ClienteId, LOW_SCORE_REASON, now);
        return;
      }
      PublicarEmissao(evento.ClienteId, now, transportError);
    }

    /** The accepted path of HandleAsync: the processing notice, and the failure
        notice when the transport rejects it. */
    method PublicarEmissao(clienteId: Guid, now: DateTime, transportError: string)
      requires DateTimes.Valid(now)
      modifies messagePublisher
      ensures var c := old(messagePublisher.calls);
              var ok := messagePublisher.outcomes;
              && (ok(c) ==>
                    && messagePublisher.calls == c + 1
                    && messagePublisher.published == old(messagePublisher.published)
                         + [(queues.CartaoEmitido, SuccessPayload(clienteId, now))])
              && (!ok(c) ==>
                    && messagePublisher.calls == c + 2
                    && messagePublisher.published == old(messagePublisher.published)
                         + if ok(c + 1) then [(queues.CartaoEmissaoFalha, FailurePayload(clienteId, ERROR_PREFIX + transportError, now))]
                           else [])
    {
      var ok := messagePublisher.PublishAsync(queues.CartaoEmitido, SuccessPayload(clienteId, now));
      if !ok {
        PublicarFalha(clienteId, ERROR_PREFIX + transportError, now);
      }
    }
  }

  /** A negative score is caught by validation, not by the score gate, so its reason
      is the validation message. */
  lemma NegativeScoreFailsValidation(evento: PedidoEmissaoCartaoIntegrationEvent)
    requires evento.ClienteId != EmptyGuid && !IsBlank(evento.Nome) && !IsBlank(evento.CPF) && !IsBlank(evento.Email)
    requires evento.ScoreCredito < 0
    ensures Decidir(evento) == Refuse(ERROR_PREFIX + "Score de crédito deve estar entre 0 e 1000")
  {
  }
}
