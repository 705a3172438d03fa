/** The issuance request the customer service sends over the message bus. */
module IntegrationEvents {
  import opened Guids

  /** EntregaInfo: only the delivery form is read; the address is carried along unread. */
  datatype EntregaInfo = EntregaInfo(TipoEntrega: string)

  /** PedidoEmissaoCartaoIntegrationEvent. The customer fields Nome, CPF, Email and
      ScoreCredito are read by the API-side handler although the class does not
      declare them; they are carried here as further fields of the same record. */
  datatype PedidoEmissaoCartaoIntegrationEvent = PedidoEmissaoCartaoIntegrationEvent(
    ClienteId: Guid,
    PropostaId: Guid,
    ContaId: Guid,
    CodigoProduto: string,
    QuantidadeCartoesEmitir: int,
    LimiteCreditoPorCartao: real,
    CorrelacaoId: string,
    ChaveIdempotencia: string,
    Entrega: EntregaInfo,
    Nome: string,
    CPF: string,
    Email: string,
    ScoreCredito: int)
}
