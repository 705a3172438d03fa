# Card issuance and activation, modelled in Dafny

This project models the core of a credit-card issuance back end. The back end:

- validates an issuance request and turns it into one or two cards, virtual or physical;
- generates each card number from a BIN (bank identification number), random digits and a Luhn check digit;
- keeps the card number and the CVV only in a token vault, and the card stores the tokens;
- stores the cards;
- records the caller's idempotency key so that a repeated request gets the same cards back;
- writes a `card.issued` event into a transactional outbox;
- runs a dispatcher that publishes pending outbox entries with exponential-backoff retries, marks them sent and sweeps old sent entries;
- activates a card (`card.activated`) after checking the request, the card's state, its expiry and the one-time code;
- consumes issuance requests from a message bus in two places: the application handler maps the message onto the issuance service; the API handler applies a credit-score gate and publishes a "processing" or a failure notice;
- includes a mock credit bureau whose random score and assessment text the tests describe.

The model follows the code's own structure:

- Entities whose methods update fields are classes: `Cards.Card`, `OutboxEvents.OutboxEvent`, the repositories, the vault, the services and the handlers.
- Stored rows are datatypes: `CardRow`, `OutboxRow`, `CardIdempotencyKey`.
- The pure rules are functions.
- Loops are methods with invariants: PAN generation, the Luhn digit, the retry loop, the batch loop and the issuance loop.

Sources of non-determinism are injected oracles, so every run is determined by its inputs:

- `Guid.NewGuid` is `Guids.GuidSource`;
- `System.Random` is `Randomness.RandomSource`;
- `Aes.GenerateIV` is `TokenVaults.IvSource`;
- the message transport is `OutboxDispatch.MessagePublisher`;
- the clock is a `now` parameter.

Exceptions are modelled as `Result`/`Outcome` values. Each carries the exception's kind and, where the code gives one, its message (`Common.Error`).

Where the design text and the code disagree, the model follows the code:

- `Card.Ativar` does not check expiry. Only the activation service's `PodeSerAtivado` check does.
- Card creation compares only the expiry year with the current year, so a card whose expiry month is already over is accepted (`Cards.CreationAcceptsExpiredMonth`).
- The API-side handler never calls the issuance service. It publishes a "processing" notice.
- Event members carry the names the code gives them.

## Model

| member | source | states |
|---|---|---|
| Cards.CreationError | Core.Domain/Entities/Card.cs:103-125 | no exception exactly when every factory precondition holds (non-empty ids, product, class VIRTUAL/PHYSICAL, tokens, month 1..12, year not before the current year, positive limit, correlation); every exception is an ArgumentException |
| Cards.Card.Criar | Core.Domain/Entities/Card.cs:90-145 | refused arguments give the first failing check's exception and draw no identifier; accepted ones draw one identifier and give a REQUESTED, active row stamped now |
| Cards.Card.MarcarComoEmitido | Core.Domain/Entities/Card.cs:150-157 | REQUESTED becomes ISSUED; any other status throws InvalidOperation and leaves the card unchanged |
| Cards.Card.Ativar | Core.Domain/Entities/Card.cs:163-175 | the status is checked before the channel; on success the card is ACTIVE with the channel and instant recorded; on failure nothing changes |
| Cards.ExpiredIffPastExpiryMonth | Core.Domain/Entities/Card.cs:180-185 | EstaExpirado holds exactly when the clock's (year, month) is past the expiry month |
| Cards.ExpiredCardNotActivatable | Core.Domain/Entities/Card.cs:190-193 | a card past its expiry month cannot be activated, whatever its status |
| Cards.ActivationSucceedsIff | Core.Domain/Entities/Card.cs:163-175 | Ativar succeeds exactly from ISSUED/ACTIVATION_PENDING with APP, OTP or FIRST_PURCHASE, and changes only status, channel and instant |
| Cards.ActivatableCardActivates | Core.Domain/Entities/Card.cs:163-193 | a card for which PodeSerAtivado holds accepts every known channel |
| Cards.SecondActivationFails | Core.Domain/Entities/Card.cs:165-166 | activating an activated card fails with the "do status ACTIVE" InvalidOperation |
| Cards.CreationAcceptsExpiredMonth | Core.Domain/Entities/Card.cs:118-121 | the year-only check accepts a card whose expiry month is already over |
| Cards.NewCardConsistent | Core.Domain/Entities/Card.cs:127-144 | a new card is REQUESTED and has no activation data |
| Cards.RunKeepsConsistent | Core.Domain/Entities/Card.cs:150-175 | every sequence of issue/activate commands keeps a known status, with channel and instant recorded exactly when ACTIVE |
| Cards.ActiveIsFinal | Core.Domain/Entities/Card.cs:150-175 | once ACTIVE, no command changes the card again |
| Cards.RunFromRequested | Core.Domain/Entities/Card.cs:150-175 | from REQUESTED, ISSUED or ACTIVE, commands only reach REQUESTED, ISSUED or ACTIVE |
| OutboxEvents.OutboxCreationError | Core.Domain/Entities/OutboxEvent.cs:31-35 | no exception exactly when topic and payload are both non-blank; a blank topic is reported first |
| OutboxEvents.OutboxEvent.Criar | Core.Domain/Entities/OutboxEvent.cs:29-46 | valid arguments give a pending active entry with the next identifier, created now; refused ones draw nothing |
| OutboxEvents.OutboxEvent.MarcarComoEnviado | Core.Domain/Entities/OutboxEvent.cs:51-55 | only the sent instant changes, to now, and the entry is no longer pending |
| IdempotencyKeys.DecodeEncodeIds | Core.Domain/Entities/CardIdempotencyKey.cs:24-37 | the stored JSON list of "D"-form identifiers reads back as the same identifiers in the same order |
| IdempotencyKeys.DecodeIds | Driven.SqlLite/Repositories/CardRepository.cs:76 | the literal null and the empty array read as no identifiers |
| IdempotencyKeys.KeyCreationError | Core.Domain/Entities/CardIdempotencyKey.cs:26-27 | the key is accepted exactly when it is not blank |
| IdempotencyKeys.Criar | Core.Domain/Entities/CardIdempotencyKey.cs:24-37 | a blank key throws and draws nothing; otherwise a record with the next identifier, the key verbatim and the serialized list |
| PanGenerator.CheckDigitCompletes | Core.Infra/CardIssuance/PanGenerator.cs:57-78 | appending the computed digit makes the number Luhn-valid, and no other digit does |
| PanGenerator.CheckDigitExample | Core.Infra/CardIssuance/PanGenerator.cs:57-78 | 7992739871 is completed by 3 |
| PanGenerator.PanArgumentError | Core.Infra/CardIssuance/PanGenerator.cs:19-25 | GerarPan accepts exactly a non-blank BIN of at least six characters and a length of 13..19 |
| PanGenerator.PanGenerator.GerarPan | Core.Infra/CardIssuance/PanGenerator.cs:19-35 | refused arguments draw nothing; otherwise it draws one digit per body position; the result is the BIN, those digits and the check digit, Luhn-valid and of the requested length (or one longer than the BIN); a non-digit BIN throws FormatException |
| PanGenerator.PanGenerator.GerarCvv | Core.Infra/CardIssuance/PanGenerator.cs:41-44 | one draw; a three-digit text whose value is in 100..998 |
| PanGenerator.PanGenerator.GenerarNumeroAleatorio | Core.Infra/CardIssuance/PanGenerator.cs:46-55 | one draw per position, each a decimal digit; nothing for a non-positive length |
| PanGenerator.PanGenerator.CalcularDigitoLuhn | Core.Infra/CardIssuance/PanGenerator.cs:57-78 | the Luhn check digit of an all-digit number; FormatException for any other character |
| PanGenerator.RandomDigits | Core.Infra/CardIssuance/PanGenerator.cs:46-55 | the generated body has the requested length and only digits |
| TokenVaults.NormalizeKey | Core.Infra/CardIssuance/TokenVault.cs:17-24 | the key padded with spaces or cut to exactly 32 characters |
| TokenVaults.DefaultKeyNormalized | Core.Infra/CardIssuance/CardIssuanceDependencyInjection.cs:25-27 | the default development key has 31 characters and gains one trailing space |
| TokenVaults.VaultKeyError | Core.Infra/CardIssuance/TokenVault.cs:17-24 | the constructor refuses exactly the empty key |
| TokenVaults.InMemoryTokenVault.Create | Core.Infra/CardIssuance/TokenVault.cs:17-24 | an empty key throws; otherwise an empty vault with the normalised key |
| TokenVaults.Utf8LengthAscii | Core.Infra/CardIssuance/TokenVault.cs:59 | a text has as many UTF-8 bytes as characters exactly when it is ASCII |
| TokenVaults.NormalizedKeyInstallable | Core.Infra/CardIssuance/TokenVault.cs:23-59 | AES accepts the normalised key exactly when it is ASCII (32 bytes) |
| TokenVaults.DecryptEncrypt | Core.Infra/CardIssuance/TokenVault.cs:55-95 | opening what was sealed with the same key gives the plaintext back |
| TokenVaults.TokenInjective | Core.Infra/CardIssuance/TokenVault.cs:50-53 | PAN and CVV tokens never collide, and tokens of one kind are equal only for one identifier |
| TokenVaults.TokenShape | Core.Infra/CardIssuance/TokenVault.cs:50-53 | a token is tok_pan_ or tok_cvv_ followed by 32 lower-case hex digits |
| TokenVaults.NextTokenIsFresh | Core.Infra/CardIssuance/TokenVault.cs:50-53 | with a non-repeating identifier source, the next token is not already stored |
| TokenVaults.PanError | Core.Infra/CardIssuance/TokenVault.cs:28-29 | a PAN is accepted exactly when it is non-blank and 16 UTF-16 code units long, which for text of the Basic Multilingual Plane is 16 characters |
| TokenVaults.CvvError | Core.Infra/CardIssuance/TokenVault.cs:40-41 | a CVV is accepted exactly when it is non-blank and 3 or 4 UTF-16 code units long, which for text of the Basic Multilingual Plane is 3 or 4 characters |
| TokenVaults.AstralTextAccepted | Core.Infra/CardIssuance/TokenVault.cs:28-41 | eight characters outside the Basic Multilingual Plane pass as a 16-unit PAN, and two as a CVV |
| TokenVaults.AstralUtf16Length | Core.Infra/CardIssuance/TokenVault.cs:28-41 | text made only of characters outside the Basic Multilingual Plane has twice as many code units as characters |
| Common.Utf16Length | Core.Infra/CardIssuance/TokenVault.cs:28-41 | String.Length counts UTF-16 code units, never fewer than the characters |
| Common.Utf16LengthBmp | Core.Infra/CardIssuance/TokenVault.cs:28-41 | the code-unit count equals the character count exactly for text of the Basic Multilingual Plane |
| TokenVaults.InMemoryTokenVault.ArmazenarPan | Core.Infra/CardIssuance/TokenVault.cs:26-36 | a rejected PAN draws and stores nothing; an accepted one draws a token; a key AES refuses throws CryptographicException and draws no IV; otherwise one IV is drawn and the sealed PAN goes under the token and reads back as the PAN |
| TokenVaults.InMemoryTokenVault.ArmazenarCvv | Core.Infra/CardIssuance/TokenVault.cs:38-48 | the same for a CVV under a tok_cvv_ token |
| TokenVaults.InMemoryTokenVault.Store | Core.Infra/CardIssuance/TokenVault.cs:31-35 | the token is drawn before the key is installed; the store changes only at that token |
| Guids.FormatNInjective | Core.Infra/CardIssuance/TokenVault.cs:52 | distinct identifiers have distinct "N" texts |
| Guids.ParseFormatD | Driven.SqlLite/Repositories/CardRepository.cs:76-79 | the "D" text of an identifier parses back to it |
| CardRepositories.CardRepository.AdicionarAsync | Driven.SqlLite/Repositories/CardRepository.cs:21-28 | null throws ArgumentNull; a duplicate identifier is refused by the primary key; otherwise the card's row is appended |
| CardRepositories.CardRepository.ObterPorIdAsync | Driven.SqlLite/Repositories/CardRepository.cs:30-33 | null when no row has the identifier, otherwise a fresh entity whose state is that row |
| CardRepositories.CardRepository.ObterPorClienteAsync | Driven.SqlLite/Repositories/CardRepository.cs:35-41 | exactly the customer's cards, newest first |
| CardRepositories.CardRepository.ObterPorPropostaAsync | Driven.SqlLite/Repositories/CardRepository.cs:43-49 | exactly the proposal's cards, newest first |
| CardRepositories.CardRepository.AtualizarAsync | Driven.SqlLite/Repositories/CardRepository.cs:51-58 | null throws; a card with no row updates nothing and fails; otherwise only the row with its identifier is replaced |
| CardRepositories.CardRepository.ObterPorChaveIdempotenciaAsync | Driven.SqlLite/Repositories/CardRepository.cs:66-85 | nothing for an unknown key; only stored cards |
| CardRepositories.CardRepository.RegistrarIdempotenciaAsync | Driven.SqlLite/Repositories/CardRepository.cs:87-92 | a blank key throws; an existing key is refused by the unique index; otherwise the record is appended with the serialized identifiers; the outcome and the new table are those of RegistrationError and Registered |
| CardRepositories.ReplayAfterRegistration | Driven.SqlLite/Repositories/CardRepository.cs:66-92 | after a key is registered with identifiers, replaying it returns exactly the stored cards with those identifiers |
| CardRepositories.ReplayInTableOrder | Driven.SqlLite/Repositories/CardRepository.cs:77-82 | replay returns the cards in the order the in-memory table holds them, not registration order (the query has no ORDER BY) |
| CardRepositories.SecondRegistrationRefused | Driven.SqlLite/Data/ApplicationDbContext.cs:164-166 | after one successful registration of a key, a second registration of the same key, whatever its identifiers and drawn identifier, is refused by the unique index and leaves the key table unchanged |
| CardRepositories.FindById | Driven.SqlLite/Repositories/CardRepository.cs:30-33 | the row found has the identifier; none exactly when no row has it |
| CardRepositories.NewestFirst | Driven.SqlLite/Repositories/CardRepository.cs:35-41 | a permutation of its input, sorted by creation instant descending |
| OutboxRepositories.OutboxRepository.AdicionarAsync | Driven.SqlLite/Repositories/OutboxRepository.cs:21-32 | the entity's checks first; then a pending entry with the next identifier is appended, unless that identifier is already in the table |
| OutboxRepositories.OutboxRepository.ObterPendentesAsync | Driven.SqlLite/Repositories/OutboxRepository.cs:34-49 | only pending entries of the table, oldest first, exactly min(limite, number pending) of them, all of them when limite is negative (SQLite reads a negative LIMIT as no limit), none when it is zero, and none taken more often than it is stored |
| OutboxRepositories.PendingBatch | Driven.SqlLite/Repositories/OutboxRepository.cs:34-49 | exactly min(limite, number pending) pending entries, all of them for a negative limite and none for zero, oldest first, a sub-multiset of the pending entries |
| OutboxRepositories.PendingBatchIsOldest | Driven.SqlLite/Repositories/OutboxRepository.cs:34-49 | a pending entry left out is no older than any entry taken; with room for all, or a negative limite, all are taken |
| OutboxRepositories.OlderThanLeftOut | Driven.SqlLite/Repositories/OutboxRepository.cs:37-39 | in rows ordered by creation, anything in the first n is created no later than any row after them |
| OutboxRepositories.Limit | Driven.SqlLite/Repositories/OutboxRepository.cs:39 | Take on the database query becomes LIMIT: a prefix of min(limite, length) entries, or everything for a negative limite |
| OutboxRepositories.OutboxRepository.MarcarComoEnviadoAsync | Driven.SqlLite/Repositories/OutboxRepository.cs:51-60 | stamps exactly the entry with the identifier; an unknown identifier changes nothing |
| OutboxRepositories.OutboxRepository.LimparAntigosAsync | Driven.SqlLite/Repositories/OutboxRepository.cs:62-73 | removes exactly the sent entries created before now minus the retention days, and returns how many went |
| OutboxRepositories.PendingNeverSwept | Driven.SqlLite/Repositories/OutboxRepository.cs:62-73 | pending entries survive retention whatever their age |
| OutboxRepositories.RetentionScenario | Driven.SqlLite/Repositories/OutboxRepository.cs:62-73 | with retention d: a sent entry older than d goes; a younger sent entry stays; a pending one stays |
| OutboxRepositories.KeptKeepsKeys | Driven.SqlLite/Repositories/OutboxRepository.cs:62-73 | retention keeps the identifiers distinct |
| OutboxDispatch.MessagePublisher.PublishAsync | Core.Application/Interfaces/IMessagePublisher.cs:16-19 | one call; the message is recorded exactly when the call succeeds |
| OutboxDispatch.Truncate | Core.Infra/CardIssuance/OutboxDispatcher.cs:126 | the (int) cast truncates toward zero |
| OutboxDispatch.BackoffDelays | Core.Infra/CardIssuance/OutboxDispatcher.cs:118-127 | one delay per failed attempt, the k-th being DelayAt(k) |
| OutboxDispatch.SucceedsIffSomeCallSucceeds | Core.Infra/CardIssuance/OutboxDispatcher.cs:102-134 | publication with retries succeeds exactly when one call within the attempt budget does |
| OutboxDispatch.AttemptsStopAtFirstSuccess | Core.Infra/CardIssuance/OutboxDispatcher.cs:110-117 | a successful publication stops at the first successful call |
| OutboxDispatch.FailedPublicationUsesBudget | Core.Infra/CardIssuance/OutboxDispatcher.cs:118-132 | a failed publication makes all MaximoTentativas calls |
| OutboxDispatch.DelaysCapped | Core.Infra/CardIssuance/OutboxDispatcher.cs:126 | every delay after the first is at most the cap |
| OutboxDispatch.DelayClosedForm | Core.Infra/CardIssuance/OutboxDispatcher.cs:126 | with a whole factor f >= 1, the k-th delay is min(d0 * f^k, cap) |
| OutboxDispatch.PublicarComRetry | Core.Infra/CardIssuance/OutboxDispatcher.cs:102-134 | the calls made within the budget, success iff one of them succeeds, the message delivered once on success, and the waits taken; the last failure is rethrown, and a wait of -1 ms or less ends the retries with the exception of Task.Delay |
| OutboxDispatch.BudgetFrom | Core.Infra/CardIssuance/OutboxDispatcher.cs:110-127 | the attempts left lie between the current one and MaximoTentativas, and are none when no attempt is allowed |
| OutboxDispatch.BudgetFromIff | Core.Infra/CardIssuance/OutboxDispatcher.cs:110-127 | all MaximoTentativas attempts are made iff no wait before the last attempt is -1 ms or less; otherwise the attempts end right after the first failure followed by such a wait |
| OutboxDispatch.NonNegativeSettingsKeepBudget | Core.Infra/CardIssuance/OutboxDispatcher.cs:110-127 | with a non-negative first delay, factor and cap, every publication has its whole MaximoTentativas |
| OutboxDispatch.DelaysNonNegative | Core.Infra/CardIssuance/OutboxDispatcher.cs:124-125 | with non-negative settings no delay is negative |
| OutboxDispatch.DefaultBudget | Core.Application/Options/OutboxDispatcherOptions.cs:8-14 | the defaults allow all five attempts |
| OutboxDispatch.NegativeDelayStopsRetries | Core.Infra/CardIssuance/OutboxDispatcher.cs:118-126 | a negative first delay ends the publication after its first failed call |
| OutboxDispatch.ThreeFailuresThenSuccess | Core.Application/Options/OutboxDispatcherOptions.cs:8-14 | with the defaults, whose budget is the full five attempts, three failures then a success make four calls and wait 500, 1000 and 2000 ms |
| OutboxDispatch.DefaultBackoffReachesCap | Core.Application/Options/OutboxDispatcherOptions.cs:10-13 | with the defaults the delay reaches the 30-second cap at the sixth retry |
| OutboxDispatch.SentIds | Core.Infra/CardIssuance/OutboxDispatcher.cs:76-97 | exactly the identifiers of the batch entries that were published |
| OutboxDispatch.MarkAllStampsSent | Core.Infra/CardIssuance/OutboxDispatcher.cs:76-97 | after the batch, exactly the rows whose identifier was published are stamped |
| OutboxDispatch.ProcessarEventosPendentes | Core.Infra/CardIssuance/OutboxDispatcher.cs:55-100 | without a publisher nothing changes; otherwise the pending batch is published entry by entry, each within the retry budget, and the published ones are marked sent |
| OutboxDispatch.PublicarLote | Core.Infra/CardIssuance/OutboxDispatcher.cs:76-98 | a failed entry does not stop the batch; calls, messages and marks follow the batch functions under the retry budget |
| OutboxDispatch.RunCycle | Core.Infra/CardIssuance/OutboxDispatcher.cs:29-53 | one dispatch pass, then the retention sweep of LimparEventosAntigosAsync; the publisher's calls and published messages are those of the batch, and the count removed is the number of rows the sweep deleted |
| CardIssuanceRules.RequestError | Core.Application/Services/CardIssuanceService.cs:162-190 | no exception exactly for a present, acceptable request; a null request throws ArgumentNull; the others throw ArgumentException |
| CardIssuanceRules.CalcularQuantidadeCartoes | Core.Application/Services/CardIssuanceService.cs:192-196 | the requested count clamped into 1..2 |
| CardIssuanceRules.CardClasses | Core.Application/Services/CardIssuanceService.cs:198-221 | the classes per delivery configuration: one virtual when virtual delivery is accepted; two of each accepted kind, virtual first |
| CardIssuanceRules.BinByProduct | Core.Application/Services/CardIssuanceService.cs:259-269 | the Mastercard BIN exactly for MASTERCARD_GOLD/PLATINUM, the Visa BIN otherwise |
| CardIssuanceRules.DefaultBinsGenerate | Core.Application/Options/CardIssuanceOptions.cs:8-9 | the default BINs are six digits that GerarPan accepts |
| CardIssuanceRules.ValidadeReadsBack | Core.Application/Services/CardIssuanceService.cs:287 | the expiry text is MM/YY and reads back as the month and the year modulo 100 |
| CardIssuanceRules.MaskHidesMiddle | Core.Application/Services/CardIssuanceService.cs:142-160 | the mask of a stored number shows its first four and last four digits around " **** **** " |
| CardIssuanceRules.MaskOfUnknownToken | Core.Application/Services/CardIssuanceService.cs:150-159 | a token the vault does not know is masked by its own last four characters |
| CardIssuanceRules.IssuedEventListsCards | Core.Application/Services/CardIssuanceService.cs:271-295 | the card.issued event names the customer and lists every issued card in issue order |
| CardIssuanceRules.IssuedCardFields | Core.Application/Services/CardIssuanceService.cs:283-290 | each listed card carries its identifier, PAN token and expiry, and never the number or the CVV |
| CardIssuance.IssueError | Core.Application/Services/CardIssuanceService.cs:223-257 | a card can be issued exactly when the BIN is 6..15 digits, the key installs and the validity years are not negative |
| CardIssuance.IssueArgumentsAccepted | Core.Application/Services/CardIssuanceService.cs:239-253 | the factory accepts what EmitirCartao builds exactly when the validity is not negative |
| CardIssuance.IssuedRowShape | Core.Application/Services/CardIssuanceService.cs:223-257 | an issued card copies the request's fields, holds only tokens, expires in the issue month `anos` years later and is ISSUED |
| CardIssuance.MaskOfIssuedCard | Core.Application/Services/CardIssuanceService.cs:142-160 | the mask of an issued card starts with the BIN's first four digits and hides the eight that follow |
| CardIssuance.ReplayReturnsIssued | Core.Application/Services/CardIssuanceService.cs:84-91 | replay by the key registered for new cards returns exactly those cards, in order |
| CardIssuance.CardIssuanceService.EmitirCartao | Core.Application/Services/CardIssuanceService.cs:223-257 | the first failing check's exception, or a fresh ISSUED card built from the next three identifiers, with the number and CVV stored in the vault under its tokens |
| CardIssuance.CardIssuanceService.EmitirComTokens | Core.Application/Services/CardIssuanceService.cs:239-257 | with both tokens stored, a negative validity throws the factory's ArgumentException; otherwise one more identifier gives the ISSUED card holding those tokens, and the vault still reads back the number and CVV |
| CardIssuance.CardIssuanceService.Gerar | Core.Application/Services/CardIssuanceService.cs:228-232 | a Luhn-valid 16-digit number starting with the BIN, and a three-digit CVV, both within the Basic Multilingual Plane |
| CardIssuance.CardIssuanceService.Armazenar | Core.Application/Services/CardIssuanceService.cs:234-236 | the PAN token first, then the CVV token, each reading back its value; a PAN that is not 16 code units long is refused by the vault |
| CardIssuance.CardIssuanceService.EmitirCartoes | Core.Application/Services/CardIssuanceService.cs:45-110 | an invalid request changes nothing; a known key returns its recorded cards and changes nothing; otherwise the cards are issued and inserted, the key is recorded and one card.issued event is queued |
| CardIssuance.CardIssuanceService.EmitirDuasVezes | Core.Application/Services/CardIssuanceService.cs:45-110 | the same request with a key, sent twice, gets the same cards and adds nothing the second time |
| CardIssuance.CardIssuanceService.EmitirLote | Core.Application/Services/CardIssuanceService.cs:66-82 | one issued card per class, inserted in order, or the exception before anything is stored |
| CardIssuance.CardIssuanceService.RegistrarIdempotencia | Core.Application/Services/CardIssuanceService.cs:84-91 | a non-blank key is recorded so that replaying it returns exactly the new cards |
| CardIssuance.CardIssuanceService.PublicarEventoEmissao | Core.Application/Services/CardIssuanceService.cs:271-295 | exactly one card.issued entry with the event payload is appended to the outbox |
| CardIssuance.CardIssuanceService.ObterCartoesPorCliente | Core.Application/Services/CardIssuanceService.cs:115-140 | an empty identifier throws; otherwise one masked view per card of the customer, newest first |
| CardActivation.ValidarRequisicao | Core.Application/Services/CardActivationService.cs:82-98 | no exception exactly for a present request with a code, an APP/OTP channel and a correlation |
| CardActivation.ValidarCredenciais | Core.Application/Services/CardActivationService.cs:100-110 | accepted exactly for three to six decimal digits |
| CardActivation.AcceptedCodeIsBmp | Core.Application/Services/CardActivationService.cs:100-110 | an accepted code is as long in UTF-16 code units as in characters, so the character count agrees with .NET's Length |
| Common.DigitIsBmp | Core.Application/Services/CardActivationService.cs:100-110 | every character char.IsDigit accepts lies inside the Basic Multilingual Plane |
| CardActivation.BlankCredentialUnreachable | Core.Application/Services/CardActivationService.cs:105-106 | after request validation the "inválido ou expirado" branch is never taken |
| CardActivation.ActivationError | Core.Application/Services/CardActivationService.cs:32-80 | the exception in source order: request, lookup (KeyNotFound), state and expiry, credential |
| CardActivation.CardActivationService.AtivarCartao | Core.Application/Services/CardActivationService.cs:32-80 | any exception leaves everything unchanged and draws no identifier; success replaces only that card's row with the ACTIVE one, appends one card.activated entry and echoes card and request |
| CardActivation.CardActivationService.PublicarEventoAtivacao | Core.Application/Services/CardActivationService.cs:112-129 | exactly one card.activated entry for the card as it now stands |
| CardActivation.ActivatedEventFields | Core.Application/Services/CardActivationService.cs:117-125 | the event names the card, the ACTIVE status, the activation instant and the request's channel |
| CardActivation.FirstPurchaseUnreachable | Core.Application/Services/CardActivationService.cs:93-94 | FIRST_PURCHASE is never the channel of a card activated through the service |
| CardActivation.SecondActivationRefused | Core.Application/Services/CardActivationService.cs:47-55 | a second activation of the same card is refused by the state check |
| CardActivation.ActivationTouchesOneCard | Core.Application/Services/CardActivationService.cs:60-62 | activation changes no other card |
| IssuanceEventHandler.ValidarEvento | Core.Application/Handlers/PedidoEmissaoCartaoEventHandler.cs:83-105 | no exception exactly for a message whose ids, product, quantity 1..2, positive limit and correlation pass |
| IssuanceEventHandler.MapearEntrega | Core.Application/Handlers/PedidoEmissaoCartaoEventHandler.cs:54-55 | VIRTUAL is virtual only, AMBOS is both, anything else is physical only |
| IssuanceEventHandler.HandlerAgreesWithService | Core.Application/Handlers/PedidoEmissaoCartaoEventHandler.cs:41-57 | the handler accepts exactly the messages whose mapped request the service accepts |
| IssuanceEventHandler.DeliveryFormClasses | Core.Application/Handlers/PedidoEmissaoCartaoEventHandler.cs:54-55 | the card classes each delivery form leads to |
| IssuanceEventHandler.PedidoEmissaoCartaoEventHandler.HandleAsync | Core.Application/Handlers/PedidoEmissaoCartaoEventHandler.cs:28-78 | an invalid message changes nothing; otherwise the outcome is the service's for the mapped request |
| ApiEventHandler.ValidarEvento | Driving.Api/Handlers/PedidoEmissaoCartaoEventHandler.cs:92-108 | no exception exactly for a customer id, name, CPF and e-mail, and a score of 0..1000 |
| ApiEventHandler.Decidir | Driving.Api/Handlers/PedidoEmissaoCartaoEventHandler.cs:38-87 | accept exactly a valid message with score >= 600; otherwise refuse with the validation message or the low-score reason |
| ApiEventHandler.NoticeFields | Driving.Api/Handlers/PedidoEmissaoCartaoEventHandler.cs:66-71 | the notices name the customer; the success one says PROCESSANDO and the failure one gives the reason |
| ApiEventHandler.PedidoEmissaoCartaoApiHandler.HandleAsync | Driving.Api/Handlers/PedidoEmissaoCartaoEventHandler.cs:38-87 | at most one notice is delivered; a refusal attempts the failure notice once; acceptance attempts the processing notice, then the failure notice with the transport error |
| ApiEventHandler.PedidoEmissaoCartaoApiHandler.PublicarFalha | Driving.Api/Handlers/PedidoEmissaoCartaoEventHandler.cs:113-135 | one attempt to publish the failure notice; a transport error is swallowed |
| ApiEventHandler.NegativeScoreFailsValidation | Driving.Api/Handlers/PedidoEmissaoCartaoEventHandler.cs:106-107 | a negative score is refused by validation, with its message |
| CreditMock.BandOf | Driven.CreditMock/Services/CreditMockService.cs:45-64 | the band boundaries: at most 100, 101..500, 501..750, 751..900, above 900 |
| CreditMock.BandMonotone | Driven.CreditMock/Services/CreditMockService.cs:45-64 | a higher score never falls in a lower band |
| CreditMock.ObterDescricaoAvaliacao | Driven.CreditMock/Services/CreditMockService.cs:45-64 | rejection text up to 100, approval text above |
| CreditMock.LowScoreRejected | Test.XUnit/Infrastructure/CreditMockServiceTests.cs:88-101 | up to 100 the text says Reprovado, very low score, no release |
| CreditMock.MiddleScoreRestricted | Test.XUnit/Infrastructure/CreditMockServiceTests.cs:103-117 | from 101 to 500: approval with restrictions, one card, R$ 1.000 |
| CreditMock.HighScoreTwoCards | Test.XUnit/Infrastructure/CreditMockServiceTests.cs:119-147 | above 500: two cards of R$ 5.000; with advantages from 751 to 900; premium above 900 |
| CreditMock.CreditMockService.GerarScoreAleatorio | Driven.CreditMock/Services/CreditMockService.cs:18-22 | one draw, a score in 0..1000 |
| CreditMock.EveryScoreReachable | Test.XUnit/Infrastructure/CreditMockServiceTests.cs:18-30 | every score of 0..1000 can be produced |

## Left out

- The vault's AES-CBC is replaced by a reversible stand-in cipher with the same key, IV and text interface. The model keeps the key checks (32 characters, 32 UTF-8 bytes) and the IV-first layout, not the cipher's bytes. Base64 encoding of the blob is not modelled.
- JSON: payloads are modelled as a small value tree and writer. String escaping and the exact serializer output are not modelled. DateTime is written in its round-trip UTC form (`CardIssuanceRules.IsoUtc`).
- The year range 1..9999 of DateTime and the column maximum lengths of the database are not modelled.
- Concurrency, logging, cancellation tokens and the background-service host are left out. `Task.Delay` is not slept. `OutboxDispatch.RunCycle` models one pass of the infinite ExecuteAsync loop, and the waits between passes are not modelled.
- OutboxDispatch.PublicarComRetry: a retry wait below -1 ms throws ArgumentOutOfRangeException, and the model ends the retries with that error. A wait of exactly -1 ms lasts until the host cancels it. The model takes that cancellation as coming at once and ends with `Canceled`, leaving the entry pending. What the publisher then does with a cancelled token for later entries of the batch is not modelled.
- TokenVaults.NormalizeKey, PanGenerator.PanArgumentError, PanGenerator.PanGenerator.GerarPan and CardIssuanceRules.MascararPan count characters (Unicode scalars) where .NET's `Length`, `PadRight` and `Substring` count UTF-16 code units. They agree with the source on text inside the Basic Multilingual Plane, and a `Substring` that splits a surrogate pair cannot be represented. `TokenVaults.PanError` and `TokenVaults.CvvError` do count UTF-16 code units (`Common.Utf16Length`). The credential check of card activation agrees for all text, because a character outside the Basic Multilingual Plane is never a digit.
- The retry waits are returned as the list of delays instead of being slept.
- The backoff factor is a `real` standing for the double; the model does not follow floating-point rounding. The closed form is proved for whole factors only.
- The credit mock's GerarScoreComDistribuicaoNormal and GerarGaussiana are left out because they use floating-point Box–Muller sampling.
- Each operation reads the clock once; the `now` parameter stands for every `DateTime.UtcNow` in it.
- BaseEntity.MarcarComoAtualizada's update stamp is not a column of the model.
- ObterCartoesPorClienteAsync's projection reads `card.LimiteCredito` and `card.DataEmissao` (Core.Application/Services/CardIssuanceService.cs:130-131), which the Card entity does not declare (it has `LimiteCreditoAprovado`, and no issue date). The DTO does declare both fields. The model returns the masked number, class, status and activation instant, not the limit and issue date.
- CardRepositories.ReplayInTableOrder: the replay query has no ORDER BY, so the database's row order is unspecified. Returning the rows in insertion order is a choice of the model, not a promise of the source.
- Guids.Unique: results about fresh identifiers assume that `Guid.NewGuid` never repeats a value and never returns Guid.Empty. Then the primary-key and unique-index refusals inside issuance cannot happen, and "cards added earlier stay stored" rests on an oracle that never runs out. The model does not cover a repeated identifier.
- The vault's RecuperarPan, which MascararPan calls, is declared neither by ITokenVault nor by InMemoryTokenVault. The model gives it the meaning its use implies: decrypt what is stored under the token, and fail for an unknown token (`TokenVaults.InMemoryTokenVault.RecuperarPan`).
- The database exception messages are approximations of what SQLite reports.
- Constructor null checks of injected services are not modelled: the classes take non-null references.
- A null Entrega in the integration message would throw NullReferenceException in the application handler. The message's Entrega is never null in the model. The EnderecoEntrega and DataSolicitacao fields are not modelled.
- ApiEventHandler.PedidoEmissaoCartaoApiHandler.HandleAsync: the transport exception's message is the `transportError` parameter. The handler's unused card repository and its logger are not modelled.
- The RabbitMQ publisher is modelled by `OutboxDispatch.MessagePublisher`, a log of delivered messages whose successes are fixed in advance.
- ScoreCredito is taken to be an `int`. IntegrationEvents.cs does not declare it; the API handler reads it.
- Controllers, authentication and Program.cs wiring are not part of this model.
