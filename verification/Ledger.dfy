/** The tables of the ledger and what one whole request does to them: the specification that the
    handlers (LedgerService) and the interleaved transactions (Protocol) are proved against.
    (src/api/accounts.rs, src/api/transfers.rs, src/api/reversals.rs, src/idempotency.rs) */
module Ledger {
  import opened Common
  import opened FxConfig
  import Money
  import Fx

  // A UUID as the number its 16 bytes spell; PostgreSQL orders UUIDs the same way.
  type Id = int

  /* -------------------- tables -------------------- */

  datatype Account = Account(
    owner: string, currency: string, scale: Scale, balance: int, active: bool, version: nat)

  datatype Kind = Plain | Exchange | Reversal

  datatype Transfer = Transfer(
    source: Id, destination: Id, sourceCurrency: string, destinationCurrency: string,
    sourceAmount: int, destinationAmount: int, fee: int, totalDebit: int,
    feeBps: Option<int>, rate: Option<string>, rateId: Option<nat>,
    kind: Kind, reverses: Option<Id>, initiatedBy: string, createdAt: int)

  datatype Direction = Debit | Credit

  datatype Entry = Entry(
    account: Id, transfer: Id, counterparty: Id, direction: Direction, kind: Kind,
    amount: int, currency: string, principal: Option<int>, fee: Option<int>, createdAt: int)

  datatype Operation = AccountCreation | PlainTransfer | FxTransfer | TransferReversal

  datatype RecordKey = RecordKey(client: string, operation: Operation, key: string)

  // What a request asks for; its hash is the stored fingerprint (see Fingerprints).
  datatype Fingerprint =
    | OfAccount(currency: string, balance: int)
    | OfTransfer(source: Id, destination: Id, currency: string, amount: int)
    | OfReversal(original: Id)

  // http_status, response_body and resulting_resource_id are all NULL or all set.
  datatype Completion = Completion(status: int, body: Body, resource: Id)

  datatype Record = Record(fingerprint: Fingerprint, completion: Option<Completion>)

  datatype Db = Db(
    accounts: map<Id, Account>,
    transfers: map<Id, Transfer>,
    entries: map<Id, Entry>,
    records: map<RecordKey, Record>)

  const EMPTY: Db := Db(map[], map[], map[], map[])

  /* -------------------- requests and replies -------------------- */

  datatype Call =
    | CreateAccount(currency: string, initialBalance: string)
    | CreateTransfer(source: Id, destination: Id, amount: string)
    | ReverseTransfer(original: Id)

  // One attempt: who calls, the idempotency key, the transaction timestamp, and the UUIDs drawn.
  datatype Request = Request(
    client: string, key: string, now: int, id: Id, debitId: Id, creditId: Id, call: Call)

  datatype Error =
    | UnsupportedCurrency | MalformedAmount | TooManyFractionalDigits | NegativeInitialBalance
    | AmountOverflow | SameSourceAndDestination | NonPositiveAmount
    | RateMissing | RateConfigurationAmbiguous | FeeRuleMissing | FeeRuleConfigurationAmbiguous
    | DestinationAmountTooSmall | ArithmeticOverflow | InsufficientFunds
    | ReversalOfReversal | TransferAlreadyReversed
    | NotFound | AccountUnavailable | IdempotencyConflict | InternalError

  datatype Body =
    | AccountCreated(id: Id, currency: string, balance: string)
    | TransferCreated(id: Id, source: Id, destination: Id, currency: string, amount: string, createdAt: int)
    | FxTransferCreated(
        id: Id, source: Id, destination: Id, sourceCurrency: string, sourceAmount: string,
        destinationCurrency: string, destinationAmount: string, feeAmount: string,
        totalSourceDebit: string, createdAt: int)
    | ReversalCreated(
        id: Id, original: Id, source: Id, destination: Id, sourceCurrency: string,
        destinationCurrency: string, sourceAmount: string, destinationAmount: string,
        originalFeeAmount: string, totalSourceDebit: string, resultingSourceBalance: string,
        resultingDestinationBalance: string, createdAt: int)

  // Panicked stands for the `expect` and `unreachable!` on an incomplete committed record.
  datatype Reply = Success(status: int, body: Body) | Failure(error: Error) | Panicked

  const CREATED: int := 201

  /* -------------------- before the reservation -------------------- */

  // What the preliminary read of a transfer returns.
  datatype Parties = Parties(
    sourceCurrency: string, sourceScale: Scale, destinationCurrency: string, destinationScale: Scale)

  datatype Job =
    | Open(currency: Money.Currency, balance: int)
    | Move(source: Id, destination: Id, parties: Parties, amount: int)
    | Undo(original: Id)

  datatype Keyed = Keyed(key: RecordKey, fingerprint: Fingerprint, job: Job)

  function PartiesOf(source: Account, destination: Account): Parties {
    Parties(source.currency, source.scale, destination.currency, destination.scale)
  }

  function AmountError(error: Money.MoneyError, negative: Error): Error {
    match error
    case Malformed => MalformedAmount
    case TooManyFractionalDigits => TooManyFractionalDigits
    case Negative => negative
    case Overflow => AmountOverflow
  }

  function ClassifyAccount(req: Request, currencyText: string, balanceText: string): Result<Keyed, Error> {
    match Money.CurrencyOf(currencyText)
    case None => Err(UnsupportedCurrency)
    case Some(currency) =>
      match Money.ParseInitialBalance(balanceText, currency.scale)
      case Err(e) => Err(AmountError(e, NegativeInitialBalance))
      case Ok(balance) =>
        Ok(Keyed(RecordKey(req.client, AccountCreation, req.key),
                 OfAccount(currency.code, balance), Open(currency, balance)))
  }

  function ClassifyTransfer(
      req: Request, source: Id, destination: Id, amountText: string, parties: Option<Parties>): Result<Keyed, Error>
  {
    if source == destination then Err(SameSourceAndDestination)
    else if parties.None? then Err(AccountUnavailable)
    else
      var p := parties.value;
      if p.sourceCurrency == p.destinationCurrency && p.sourceScale != p.destinationScale then Err(InternalError)
      else
        var operation := if p.sourceCurrency == p.destinationCurrency then PlainTransfer else FxTransfer;
        match Money.ParseMinorUnits(amountText, p.sourceScale)
        case Err(e) => Err(AmountError(e, NonPositiveAmount))
        case Ok(amount) =>
          if amount <= 0 then Err(NonPositiveAmount)
          else Ok(Keyed(RecordKey(req.client, operation, req.key),
                        OfTransfer(source, destination, p.sourceCurrency, amount),
                        Move(source, destination, p, amount)))
  }

  // The join of both account rows read before anything is locked.
  function ReadParties(accounts: map<Id, Account>, source: Id, destination: Id): Option<Parties> {
    if source in accounts && destination in accounts
    then Some(PartiesOf(accounts[source], accounts[destination]))
    else None
  }

  // Validation, the preliminary read, and the fingerprint.
  function Classify(accounts: map<Id, Account>, req: Request): Result<Keyed, Error> {
    match req.call
    case CreateAccount(currency, balance) => ClassifyAccount(req, currency, balance)
    case CreateTransfer(source, destination, amount) =>
      ClassifyTransfer(req, source, destination, amount, ReadParties(accounts, source, destination))
    case ReverseTransfer(original) =>
      Ok(Keyed(RecordKey(req.client, TransferReversal, req.key), OfReversal(original), Undo(original)))
  }

  /* -------------------- idempotency -------------------- */

  // `completed_success` and the comparison after it; None lets the request go on.
  function FastReply(records: map<RecordKey, Record>, k: Keyed): Option<Reply> {
    if k.key !in records then None
    else
      match records[k.key].completion
      case None => Some(Panicked)
      case Some(c) =>
        Some(if records[k.key].fingerprint != k.fingerprint then Failure(IdempotencyConflict)
             else Success(c.status, c.body))
  }

  // `reserve` after its insertion found the key taken.
  function TakenReply(record: Record, fingerprint: Fingerprint): Reply {
    if record.fingerprint != fingerprint then Failure(IdempotencyConflict)
    else
      match record.completion
      case None => Panicked
      case Some(c) => Success(c.status, c.body)
  }

  /* -------------------- after the reservation -------------------- */

  datatype Quote = Quote(rate: Row<Rate>, rule: Row<Rule>)

  function ConfigurationFailure(error: ConfigurationError): Error {
    match error
    case RateUnavailable => RateMissing
    case RateAmbiguous => RateConfigurationAmbiguous
    case FeeRuleUnavailable => FeeRuleMissing
    case FeeRuleAmbiguous => FeeRuleConfigurationAmbiguous
  }

  // The rate and the fee rule at the transaction timestamp; None for a same-currency transfer.
  function Configure(config: Config, p: Parties, now: int): Result<Option<Quote>, Error> {
    if p.sourceCurrency == p.destinationCurrency then Ok(None)
    else
      match SelectExchangeRate(config.rates, p.sourceCurrency, p.destinationCurrency, now)
      case Err(e) => Err(ConfigurationFailure(e))
      case Ok(rate) =>
        match SelectFeeRule(config.rules, p.sourceCurrency, p.destinationCurrency, now)
        case Err(e) => Err(ConfigurationFailure(e))
        case Ok(rule) => Ok(Some(Quote(rate, rule)))
  }

  datatype Plan =
    | OpenPlan(id: Id, account: Account, completion: Completion)
    | MovePlan(
        id: Id, transfer: Transfer, sourceBalance: int, destinationBalance: int,
        debitId: Id, creditId: Id, completion: Completion)

  datatype Amounts = Amounts(destinationAmount: int, fee: int, totalDebit: int)

  function ArithmeticFailure(error: Fx.ArithmeticError): Error {
    match error
    case DestinationTooSmall => DestinationAmountTooSmall
    case Overflow => ArithmeticOverflow
    case InvalidRate => InternalError
    case InvalidScale => InternalError
    case InvalidAmount => InternalError
  }

  // The fee comes out of the principal; the principal alone is converted.
  function AmountsOf(quote: Option<Quote>, amount: int, sourceScale: Scale, destinationScale: Scale)
    : Result<Amounts, Error>
  {
    match quote
    case None => Ok(Amounts(amount, 0, amount))
    case Some(q) =>
      match Fx.CalculateFee(amount, q.rule.item.feeBps)
      case Err(e) => Err(ArithmeticFailure(e))
      case Ok(fee) =>
        match Fx.ParseRate(q.rate.item.text)
        case Err(e) => Err(ArithmeticFailure(e))
        case Ok(rate) =>
          match Fx.CalculateDestination(amount, sourceScale, destinationScale, rate)
          case Err(e) => Err(ArithmeticFailure(e))
          case Ok(converted) => Ok(Amounts(converted, fee.fee, fee.totalSourceDebit))
  }

  function PlanOpen(req: Request, currency: Money.Currency, balance: int): Plan {
    OpenPlan(req.id, Account(req.client, currency.code, currency.scale, balance, true, 0),
             Completion(CREATED, AccountCreated(req.id, currency.code, Money.FormatMinorUnits(balance, currency.scale)), req.id))
  }

  function TransferRow(req: Request, job: Job, quote: Option<Quote>, amounts: Amounts): Transfer
    requires job.Move?
  {
    Transfer(job.source, job.destination, job.parties.sourceCurrency, job.parties.destinationCurrency,
             job.amount, amounts.destinationAmount, amounts.fee, amounts.totalDebit,
             if quote.Some? then Some(quote.value.rule.item.feeBps) else None,
             if quote.Some? then Some(quote.value.rate.item.text) else None,
             if quote.Some? then Some(quote.value.rate.id) else None,
             if quote.Some? then Exchange else Plain, None, req.client, req.now)
  }

  function TransferBody(id: Id, t: Transfer, parties: Parties): Body {
    if t.kind == Exchange then
      FxTransferCreated(
        id, t.source, t.destination, t.sourceCurrency, Money.FormatMinorUnits(t.sourceAmount, parties.sourceScale),
        t.destinationCurrency, Money.FormatMinorUnits(t.destinationAmount, parties.destinationScale),
        Money.FormatMinorUnits(t.fee, parties.sourceScale),
        Money.FormatMinorUnits(t.totalDebit, parties.sourceScale), t.createdAt)
    else
      TransferCreated(id, t.source, t.destination, t.sourceCurrency,
                      Money.FormatMinorUnits(t.sourceAmount, parties.sourceScale), t.createdAt)
  }

  // Everything a transfer decides once both account rows are locked.
  function PlanMove(req: Request, job: Job, quote: Option<Quote>, source: Option<Account>, destination: Option<Account>)
    : Result<Plan, Error>
    requires job.Move?
  {
    if source.None? || destination.None? then Err(AccountUnavailable)
    else
      var (s, d) := (source.value, destination.value);
      if s.owner != req.client || !s.active || !d.active then Err(AccountUnavailable)
      else if PartiesOf(s, d) != job.parties then Err(InternalError)
      else
        match AmountsOf(quote, job.amount, s.scale, d.scale)
        case Err(e) => Err(e)
        case Ok(amounts) => PlanAmounts(req, job, quote, amounts, s.balance, d.balance)
  }

  function PlanAmounts(
      req: Request, job: Job, quote: Option<Quote>, amounts: Amounts, sourceBalance: int, destinationBalance: int)
    : Result<Plan, Error>
    requires job.Move?
  {
    if sourceBalance < amounts.totalDebit then Err(InsufficientFunds)
    else if !InI64(sourceBalance - amounts.totalDebit) || !InI64(destinationBalance + amounts.destinationAmount)
    then Err(ArithmeticOverflow)
    else
      var row := TransferRow(req, job, quote, amounts);
      Ok(MovePlan(req.id, row, sourceBalance - amounts.totalDebit, destinationBalance + amounts.destinationAmount,
                  req.debitId, req.creditId,
                  Completion(CREATED, TransferBody(req.id, row, job.parties), req.id)))
  }

  // The original's destination pays back what it received and the original's source gets back its
  // total debit, fee included. The fee column is a copy; the row's total is its source amount.
  function ReversalRow(req: Request, original: Id, t: Transfer): Transfer {
    Transfer(t.destination, t.source, t.destinationCurrency, t.sourceCurrency,
             t.destinationAmount, t.totalDebit, t.fee, t.destinationAmount,
             t.feeBps, t.rate, t.rateId, Reversal, Some(original), req.client, req.now)
  }

  function ReversalBody(id: Id, original: Id, row: Transfer, source: Account, destination: Account): Body {
    ReversalCreated(
      id, original, row.source, row.destination, row.sourceCurrency, row.destinationCurrency,
      Money.FormatMinorUnits(row.sourceAmount, source.scale),
      Money.FormatMinorUnits(row.destinationAmount, destination.scale),
      Money.FormatMinorUnits(row.fee, destination.scale),
      Money.FormatMinorUnits(row.totalDebit, source.scale),
      Money.FormatMinorUnits(source.balance - row.totalDebit, source.scale),
      Money.FormatMinorUnits(destination.balance + row.destinationAmount, destination.scale),
      row.createdAt)
  }

  // Everything a reversal decides once both account rows are locked; `source` is the account that
  // pays back, the original's destination.
  function PlanUndo(req: Request, original: Id, t: Transfer, source: Option<Account>, destination: Option<Account>)
    : Result<Plan, Error>
  {
    if source.None? || destination.None? || t.source == t.destination then Err(AccountUnavailable)
    else
      var (s, d) := (source.value, destination.value);
      if !s.active || !d.active then Err(AccountUnavailable)
      else if s.currency != t.destinationCurrency || d.currency != t.sourceCurrency then Err(InternalError)
      else if !InI64(s.balance - t.destinationAmount) || !InI64(d.balance + t.totalDebit)
      then Err(ArithmeticOverflow)
      else
        var row := ReversalRow(req, original, t);
        Ok(MovePlan(req.id, row, s.balance - t.destinationAmount, d.balance + t.totalDebit,
                    req.debitId, req.creditId,
                    Completion(CREATED, ReversalBody(req.id, original, row, s, d), req.id)))
  }

  predicate Reversed(transfers: map<Id, Transfer>, original: Id) {
    exists r :: r in transfers && transfers[r].reverses == Some(original)
  }

  function Work(config: Config, db: Db, req: Request, job: Job): Result<Plan, Error> {
    match job
    case Open(currency, balance) => Ok(PlanOpen(req, currency, balance))
    case Move(source, destination, parties, _) =>
      (match Configure(config, parties, req.now)
       case Err(e) => Err(e)
       case Ok(quote) =>
         PlanMove(req, job, quote, Lookup(db.accounts, source), Lookup(db.accounts, destination)))
    case Undo(original) =>
      if original !in db.transfers then Err(NotFound)
      else
        var t := db.transfers[original];
        if t.kind == Reversal then Err(ReversalOfReversal)
        else if t.destination !in db.accounts || db.accounts[t.destination].owner != req.client then Err(NotFound)
        else if Reversed(db.transfers, original) then Err(TransferAlreadyReversed)
        else PlanUndo(req, original, t, Lookup(db.accounts, t.destination), Lookup(db.accounts, t.source))
  }

  /* -------------------- writes -------------------- */

  function DebitEntry(id: Id, t: Transfer): Entry {
    Entry(t.source, id, t.destination, Debit, t.kind, t.totalDebit, t.sourceCurrency,
          if t.kind == Exchange then Some(t.sourceAmount) else None,
          if t.kind == Exchange then Some(t.fee) else None, t.createdAt)
  }

  function CreditEntry(id: Id, t: Transfer): Entry {
    Entry(t.destination, id, t.source, Credit, t.kind, t.destinationAmount, t.destinationCurrency,
          if t.kind == Exchange then Some(t.destinationAmount) else None, None, t.createdAt)
  }

  // UPDATE accounts SET balance_minor = balance, version = version + 1
  function Updated(account: Account, balance: int): Account {
    account.(balance := balance, version := account.version + 1)
  }

  // Every primary key the plan inserts is still unused.
  predicate Fresh(db: Db, plan: Plan) {
    match plan
    case OpenPlan(id, _, _) => id !in db.accounts
    case MovePlan(id, _, _, _, debitId, creditId, _) =>
      id !in db.transfers && debitId !in db.entries && creditId !in db.entries && debitId != creditId
  }

  predicate Feasible(db: Db, plan: Plan) {
    plan.MovePlan? ==> plan.transfer.source in db.accounts && plan.transfer.destination in db.accounts
  }

  function Completed(k: Keyed, plan: Plan): Record {
    Record(k.fingerprint, Some(plan.completion))
  }

  // The tables once the plan's statements and the completed record are committed.
  function Commit(db: Db, k: Keyed, plan: Plan): Db
    requires Feasible(db, plan)
  {
    match plan
    case OpenPlan(id, account, _) =>
      db.(accounts := db.accounts[id := account], records := db.records[k.key := Completed(k, plan)])
    case MovePlan(id, t, sourceBalance, destinationBalance, debitId, creditId, _) =>
      var debited := db.accounts[t.source := Updated(db.accounts[t.source], sourceBalance)];
      Db(debited[t.destination := Updated(debited[t.destination], destinationBalance)],
         db.transfers[id := t],
         db.entries[debitId := DebitEntry(id, t)][creditId := CreditEntry(id, t)],
         db.records[k.key := Completed(k, plan)])
  }

  /* -------------------- whole requests -------------------- */

  datatype Outcome = Outcome(db: Db, reply: Reply)

  lemma WorkFeasible(config: Config, db: Db, req: Request, job: Job)
    requires Work(config, db, req, job).Ok?
    ensures Feasible(db, Work(config, db, req, job).value)
  {
  }

  // One request, run alone. A rejected request leaves the tables as they were.
  function Apply(config: Config, db: Db, req: Request): Outcome {
    match Classify(db.accounts, req)
    case Err(e) => Outcome(db, Failure(e))
    case Ok(k) =>
      if k.key in db.records then Outcome(db, TakenReply(db.records[k.key], k.fingerprint))
      else
        match Work(config, db, req, k.job)
        case Err(e) => Outcome(db, Failure(e))
        case Ok(plan) =>
          WorkFeasible(config, db, req, k.job);
          if Fresh(db, plan) then Outcome(Commit(db, k, plan), Success(plan.completion.status, plan.completion.body))
          else Outcome(db, Failure(InternalError))
  }

  // What reaches the tables: a request, or an operator changing an account's status.
  datatype Event = Serve(request: Request) | SetStatus(account: Id, active: bool)

  function WithStatus(db: Db, account: Id, active: bool): Db {
    if account in db.accounts
    then db.(accounts := db.accounts[account := db.accounts[account].(active := active)])
    else db
  }

  function Next(config: Config, db: Db, event: Event): Db {
    match event
    case Serve(req) => Apply(config, db, req).db
    case SetStatus(account, active) => WithStatus(db, account, active)
  }

  // The tables after a run of events, one at a time.
  function Run(config: Config, db: Db, events: seq<Event>): Db {
    if events == [] then db
    else Next(config, Run(config, db, events[..|events| - 1]), events[|events| - 1])
  }
}
