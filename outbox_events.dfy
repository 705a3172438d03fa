/** The outbox entry: a domain event waiting to be published to a topic,
    pending while it has no sent instant. */
module OutboxEvents {
  import opened Common
  import opened Guids
  import opened DateTimes

  /** A row of the OutboxEvents table. */
  datatype OutboxRow = OutboxRow(
    Id: Guid,
    Topico: string,
    Payload: string,
    DataCriacao: DateTime,
    DataEnvio: Option<DateTime>,
    Ativo: bool)

  predicate IsPending(r: OutboxRow) {
    r.DataEnvio.None?
  }

  /** The exception OutboxEvent.Criar throws for a topic and a payload, if any. */
  function OutboxCreationError(topico: string, payload: string): (e: Option<Error>)
    ensures e.None? <==> !IsBlank(topico) && !IsBlank(payload)
    ensures IsBlank(topico) ==> e == Some(Argument("Topico não pode estar vazio"))
  {
    if IsBlank(topico) then Some(Argument("Topico não pode estar vazio"))
    else if IsBlank(payload) then Some(Argument("Payload não pode estar vazio"))
    else None
  }

  class OutboxEvent {
    const Id: Guid
    const Topico: string
    const Payload: string
    const DataCriacao: DateTime
    var DataEnvio: Option<DateTime>
    const Ativo: bool

    function Row(): OutboxRow
      reads this
    {
      OutboxRow(Id, Topico, Payload, DataCriacao, DataEnvio, Ativo)
    }

    /** The entity the persistence layer materialises from a stored row. */
    constructor FromRow(r: OutboxRow)
      ensures Row() == r
    {
      Id := r.Id;
      Topico := r.Topico;
      Payload := r.Payload;
      DataCriacao := r.DataCriacao;
      DataEnvio := r.DataEnvio;
      Ativo := r.Ativo;
    }

    /** OutboxEvent.Criar: a pending entry with a new identifier, created now;
        only arguments that pass the checks consume an identifier. */
    static method Criar(topico: string, payload: string, now: DateTime, guids: GuidSource)
      returns (r: Result<OutboxEvent>)
      modifies guids
      ensures OutboxCreationError(topico, payload).Some? ==>
                r == Failure(OutboxCreationError(topico, payload).value) && guids.issued == old(guids.issued)
      ensures OutboxCreationError(topico, payload).None? ==>
                && r.Success? && fresh(r.value)
                && guids.issued == old(guids.issued) + 1
                && r.value.Row() == OutboxRow(guids.values(old(guids.issued)), topico, payload, now, None, true)
    {
      var e := OutboxCreationError(topico, payload);
      if e.Some? {
        return Failure(e.value);
      }
      var id := guids.NewGuid();
      var ev := new OutboxEvent.FromRow(OutboxRow(id, topico, payload, now, None, true));
      return Success(ev);
    }

    /** MarcarComoEnviado: stamps the entry as sent now. An entry already sent is
        stamped again; it never becomes pending. */
    method MarcarComoEnviado(now: DateTime)
      modifies this
      ensures Row() == old(Row()).(DataEnvio := Some(now))
      ensures !IsPending(Row())
    {
      DataEnvio := Some(now);
    }
  }
}
