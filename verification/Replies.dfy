/** What the replies of successful requests say, read back from their texts, against the rows the
    requests commit (src/api/accounts.rs, src/api/transfers.rs, src/api/reversals.rs). */
module Replies {
  import opened Common
  import opened Ledger
  import opened LedgerInvariants
  import opened ExactlyOnce
  import Money
  import FxConfig

  // The text of an amount, read as a client would send it, is that amount.
  ghost predicate Reads(text: string, scale: Scale, amount: int) {
    Money.ParseMinorUnits(text, scale) == Ok(amount)
  }

  ghost predicate TellsOpening(body: Body, id: Id, account: Account, balance: int) {
    body.AccountCreated? && body.id == id && body.currency == account.currency
    && Reads(body.balance, account.scale, balance)
  }

  ghost predicate TellsPlain(body: Body, id: Id, t: Transfer, scale: Scale) {
    && body.TransferCreated? && body.id == id && body.createdAt == t.createdAt
    && body.source == t.source && body.destination == t.destination && body.currency == t.sourceCurrency
    && Reads(body.amount, scale, t.sourceAmount)
  }

  ghost predicate TellsExchange(body: Body, id: Id, t: Transfer, sourceScale: Scale, destinationScale: Scale) {
    && body.FxTransferCreated? && body.id == id && body.createdAt == t.createdAt
    && body.source == t.source && body.destination == t.destination
    && body.sourceCurrency == t.sourceCurrency && body.destinationCurrency == t.destinationCurrency
    && Reads(body.sourceAmount, sourceScale, t.sourceAmount)
    && Reads(body.destinationAmount, destinationScale, t.destinationAmount)
    && Reads(body.feeAmount, sourceScale, t.fee) && Reads(body.totalSourceDebit, sourceScale, t.totalDebit)
  }

  // The fee of the original is in the currency its source is paid back in.
  ghost predicate TellsReversal(body: Body, id: Id, t: Transfer, sourceScale: Scale, destinationScale: Scale) {
    && body.ReversalCreated? && body.id == id && body.createdAt == t.createdAt && t.reverses == Some(body.original)
    && body.source == t.source && body.destination == t.destination
    && body.sourceCurrency == t.sourceCurrency && body.destinationCurrency == t.destinationCurrency
    && Reads(body.sourceAmount, sourceScale, t.sourceAmount)
    && Reads(body.destinationAmount, destinationScale, t.destinationAmount)
    && Reads(body.originalFeeAmount, destinationScale, t.fee) && Reads(body.totalSourceDebit, sourceScale, t.totalDebit)
  }

  ghost predicate TellsTransfer(body: Body, id: Id, t: Transfer, sourceScale: Scale, destinationScale: Scale) {
    match t.kind
    case Plain => TellsPlain(body, id, t, sourceScale)
    case Exchange => TellsExchange(body, id, t, sourceScale, destinationScale)
    case Reversal => TellsReversal(body, id, t, sourceScale, destinationScale)
  }

  // The balances a reversal leaves.
  ghost predicate TellsBalances(body: Body, source: Account, destination: Account) {
    && body.ReversalCreated?
    && Reads(body.resultingSourceBalance, source.scale, source.balance)
    && Reads(body.resultingDestinationBalance, destination.scale, destination.balance)
  }

  /* -------------------- what a committed request leaves and says -------------------- */

  lemma OpenPlanTells(req: Request, currency: Money.Currency, balance: int)
    requires InI64(balance)
    ensures var plan := PlanOpen(req, currency, balance);
            && plan.completion.status == 201 && plan.completion.resource == plan.id == req.id
            && plan.account == Account(req.client, currency.code, currency.scale, balance, true, 0)
            && TellsOpening(plan.completion.body, req.id, plan.account, balance)
  {
    Money.FormatThenParse(balance, currency.scale);
  }

  // The row of a transfer between two accounts, as the client asked for it.
  ghost predicate AsAsked(t: Transfer, req: Request, source: Account, destination: Account) {
    && req.call.CreateTransfer? && t.source == req.call.source && t.destination == req.call.destination
    && t.sourceCurrency == source.currency && t.destinationCurrency == destination.currency
    && t.kind == (if source.currency == destination.currency then Plain else Exchange)
    && Reads(req.call.amount, source.scale, t.sourceAmount)
    && t.reverses == None && t.initiatedBy == req.client && t.createdAt == req.now
    && (t.kind == Plain ==> t.rate == None && t.rateId == None && t.feeBps == None)
  }

  lemma AmountsRead(t: Transfer, sourceScale: Scale, destinationScale: Scale)
    requires 0 < t.sourceAmount <= I64_MAX && 0 < t.destinationAmount <= I64_MAX
    requires 0 <= t.fee <= I64_MAX && 0 < t.totalDebit <= I64_MAX
    ensures Reads(Money.FormatMinorUnits(t.sourceAmount, sourceScale), sourceScale, t.sourceAmount)
    ensures Reads(Money.FormatMinorUnits(t.destinationAmount, destinationScale), destinationScale, t.destinationAmount)
    ensures Reads(Money.FormatMinorUnits(t.fee, sourceScale), sourceScale, t.fee)
    ensures Reads(Money.FormatMinorUnits(t.fee, destinationScale), destinationScale, t.fee)
    ensures Reads(Money.FormatMinorUnits(t.totalDebit, sourceScale), sourceScale, t.totalDebit)
  {
    Money.FormatThenParse(t.sourceAmount, sourceScale);
    Money.FormatThenParse(t.destinationAmount, destinationScale);
    Money.FormatThenParse(t.fee, sourceScale);
    Money.FormatThenParse(t.fee, destinationScale);
    Money.FormatThenParse(t.totalDebit, sourceScale);
  }

  lemma MovePlanTells(
      req: Request, job: Job, quote: Option<Quote>, source: Account, destination: Account)
    requires job.Move? && 0 < job.amount <= I64_MAX
    requires PlanMove(req, job, quote, Some(source), Some(destination)).Ok?
    ensures var plan := PlanMove(req, job, quote, Some(source), Some(destination)).value;
            && plan.MovePlan? && plan.completion.status == 201 && plan.completion.resource == plan.id == req.id
            && plan.transfer.kind != Reversal
            && TellsTransfer(plan.completion.body, req.id, plan.transfer, source.scale, destination.scale)
  {
    var plan := PlanMove(req, job, quote, Some(source), Some(destination)).value;
    AmountsArePositive(quote, job.amount, source.scale, destination.scale);
    AmountsRead(plan.transfer, source.scale, destination.scale);
  }

  // The row of a reversal: the original's with its sides exchanged, and all that was debited, fee
  // included, given back.
  ghost predicate AsUndone(t: Transfer, req: Request, original: Transfer) {
    && req.call.ReverseTransfer? && t.kind == Reversal && t.reverses == Some(req.call.original)
    && t.source == original.destination && t.destination == original.source
    && t.sourceCurrency == original.destinationCurrency && t.destinationCurrency == original.sourceCurrency
    && t.sourceAmount == t.totalDebit == original.destinationAmount && t.destinationAmount == original.totalDebit
    && t.fee == original.fee && t.feeBps == original.feeBps && t.rate == original.rate && t.rateId == original.rateId
    && t.initiatedBy == req.client && t.createdAt == req.now
  }

  lemma ReversalRowTold(id: Id, original: Id, row: Transfer, source: Account, destination: Account)
    requires row.kind == Reversal && row.reverses == Some(original)
    requires 0 < row.sourceAmount <= I64_MAX && 0 < row.destinationAmount <= I64_MAX
    requires 0 <= row.fee <= I64_MAX && 0 < row.totalDebit <= I64_MAX
    ensures TellsReversal(ReversalBody(id, original, row, source, destination), id, row, source.scale, destination.scale)
  {
    AmountsRead(row, source.scale, destination.scale);
  }

  lemma ReversalBalancesTold(
      id: Id, original: Id, row: Transfer, source: Account, destination: Account, after: Account, destinationAfter: Account)
    requires after == source.(balance := source.balance - row.totalDebit) && InI64(after.balance)
    requires destinationAfter == destination.(balance := destination.balance + row.destinationAmount)
    requires InI64(destinationAfter.balance)
    ensures TellsBalances(ReversalBody(id, original, row, source, destination), after, destinationAfter)
  {
    Money.FormatThenParse(after.balance, source.scale);
    Money.FormatThenParse(destinationAfter.balance, destination.scale);
  }

  lemma UndoPlanned(req: Request, o: Transfer, source: Account, destination: Account) returns (plan: Plan)
    requires req.call.ReverseTransfer?
    requires PlanUndo(req, req.call.original, o, Some(source), Some(destination)).Ok?
    ensures PlanUndo(req, req.call.original, o, Some(source), Some(destination)) == Ok(plan) && plan.MovePlan?
    ensures plan.completion.status == 201 && plan.completion.resource == plan.id == req.id
    ensures AsUndone(plan.transfer, req, o)
    ensures plan.completion.body == ReversalBody(req.id, req.call.original, plan.transfer, source, destination)
    ensures plan.sourceBalance == source.balance - plan.transfer.totalDebit && InI64(plan.sourceBalance)
    ensures plan.destinationBalance == destination.balance + plan.transfer.destinationAmount && InI64(plan.destinationBalance)
  {
    plan := PlanUndo(req, req.call.original, o, Some(source), Some(destination)).value;
  }

  lemma UndoPlanTells(req: Request, o: Transfer, source: Account, destination: Account)
    requires req.call.ReverseTransfer?
    requires 0 < o.destinationAmount <= I64_MAX && 0 < o.totalDebit <= I64_MAX && 0 <= o.fee <= I64_MAX
    requires PlanUndo(req, req.call.original, o, Some(source), Some(destination)).Ok?
    ensures var plan := PlanUndo(req, req.call.original, o, Some(source), Some(destination)).value;
            && plan.MovePlan? && plan.completion.status == 201 && plan.completion.resource == plan.id == req.id
            && AsUndone(plan.transfer, req, o)
            && TellsTransfer(plan.completion.body, req.id, plan.transfer, source.scale, destination.scale)
            && TellsBalances(plan.completion.body, source.(balance := plan.sourceBalance),
                             destination.(balance := plan.destinationBalance))
  {
    var plan := UndoPlanned(req, o, source, destination);
    ReversalRowTold(req.id, req.call.original, plan.transfer, source, destination);
    ReversalBalancesTold(req.id, req.call.original, plan.transfer, source, destination,
                         source.(balance := plan.sourceBalance), destination.(balance := plan.destinationBalance));
  }

  // The created account's row, and the reply that says so.
  lemma OpeningReply(config: FxConfig.Config, db: Db, req: Request)
    requires req.call.CreateAccount? && Apply(config, db, req).db != db
    ensures var after := Apply(config, db, req);
            && after.reply.Success? && after.reply.status == 201
            && req.id !in db.accounts && req.id in after.db.accounts
            && var a := after.db.accounts[req.id];
            && a.owner == req.client && a.active && a.version == 0
            && Money.CurrencyOf(req.call.currency) == Some(Money.Currency(a.currency, a.scale))
            && Reads(req.call.initialBalance, a.scale, a.balance)
            && TellsOpening(after.reply.body, req.id, a, a.balance)
  {
    ApplyCommits(config, db, req);
    var k := Classify(db.accounts, req).value;
    OpenPlanTells(req, k.job.currency, k.job.balance);
  }

  lemma MoveCommitted(config: FxConfig.Config, db: Db, req: Request) returns (k: Keyed, quote: Option<Quote>, plan: Plan)
    requires req.call.CreateTransfer? && Apply(config, db, req).db != db
    ensures Classify(db.accounts, req) == Ok(k) && k.job.Move? && 0 < k.job.amount <= I64_MAX
    ensures k.job.source == req.call.source && k.job.destination == req.call.destination
    ensures req.call.source in db.accounts && req.call.destination in db.accounts
    ensures Configure(config, k.job.parties, req.now) == Ok(quote)
    ensures PlanMove(req, k.job, quote, Some(db.accounts[req.call.source]), Some(db.accounts[req.call.destination])) == Ok(plan)
    ensures Fresh(db, plan) && Feasible(db, plan) && req.call.source != req.call.destination
    ensures Reads(req.call.amount, db.accounts[req.call.source].scale, k.job.amount)
    ensures Apply(config, db, req) ==
            Outcome(Commit(db, k, plan), Success(plan.completion.status, plan.completion.body))
  {
    ApplyCommits(config, db, req);
    k := Classify(db.accounts, req).value;
    quote := Configure(config, k.job.parties, req.now).value;
    plan := Work(config, db, req, k.job).value;
  }

  // The committed transfer is the one asked for, and the reply spells out its row.
  lemma TransferReply(config: FxConfig.Config, db: Db, req: Request)
    requires req.call.CreateTransfer? && Apply(config, db, req).db != db
    ensures req.call.source in db.accounts && req.call.destination in db.accounts
    ensures var after, s, d := Apply(config, db, req), db.accounts[req.call.source], db.accounts[req.call.destination];
            && after.reply.Success? && after.reply.status == 201
            && req.id !in db.transfers && req.id in after.db.transfers
            && AsAsked(after.db.transfers[req.id], req, s, d)
            && TellsTransfer(after.reply.body, req.id, after.db.transfers[req.id], s.scale, d.scale)
  {
    var k, quote, plan := MoveCommitted(config, db, req);
    MovePlanTells(req, k.job, quote, db.accounts[req.call.source], db.accounts[req.call.destination]);
    MoveIsAsAsked(config, req, k.job, quote, db.accounts[req.call.source], db.accounts[req.call.destination]);
  }

  lemma MoveIsAsAsked(
      config: FxConfig.Config, req: Request, job: Job, quote: Option<Quote>, source: Account, destination: Account)
    requires job.Move? && req.call.CreateTransfer?
    requires job.source == req.call.source && job.destination == req.call.destination
    requires Configure(config, job.parties, req.now) == Ok(quote) && Reads(req.call.amount, source.scale, job.amount)
    requires PlanMove(req, job, quote, Some(source), Some(destination)).Ok?
    ensures var plan := PlanMove(req, job, quote, Some(source), Some(destination)).value;
            plan.MovePlan? && AsAsked(plan.transfer, req, source, destination)
  {
  }

  // The committed reversal undoes its original, and the reply spells out its row and the balances
  // it leaves, each account's at its own side.
  lemma ReversalReply(config: FxConfig.Config, db: Db, req: Request)
    requires req.call.ReverseTransfer? && Apply(config, db, req).db != db && TransfersSound(db)
    ensures req.call.original in db.transfers
    ensures var after, o := Apply(config, db, req), db.transfers[req.call.original];
            && after.reply.Success? && after.reply.status == 201
            && req.id !in db.transfers && req.id in after.db.transfers
            && var t := after.db.transfers[req.id];
            && AsUndone(t, req, o)
            && t.source in after.db.accounts && t.destination in after.db.accounts
            && var (s, d) := (after.db.accounts[t.source], after.db.accounts[t.destination]);
            && TellsTransfer(after.reply.body, req.id, t, s.scale, d.scale)
            && TellsBalances(after.reply.body, s, d)
  {
    var k, plan := UndoCommitted(config, db, req);
    var o := db.transfers[req.call.original];
    assert TransferSound(db, o);
    UndoPlanTells(req, o, db.accounts[o.destination], db.accounts[o.source]);
    CommitSetsBalances(db, k, plan);
  }

  lemma UndoCommitted(config: FxConfig.Config, db: Db, req: Request) returns (k: Keyed, plan: Plan)
    requires req.call.ReverseTransfer? && Apply(config, db, req).db != db
    ensures req.call.original in db.transfers
    ensures var o := db.transfers[req.call.original];
            && o.source in db.accounts && o.destination in db.accounts && o.source != o.destination
            && PlanUndo(req, req.call.original, o, Some(db.accounts[o.destination]), Some(db.accounts[o.source])) == Ok(plan)
    ensures Fresh(db, plan) && Feasible(db, plan)
    ensures Apply(config, db, req) ==
            Outcome(Commit(db, k, plan), Success(plan.completion.status, plan.completion.body))
  {
    ApplyCommits(config, db, req);
    k := Classify(db.accounts, req).value;
    plan := Work(config, db, req, k.job).value;
  }

  lemma CommitSetsBalances(db: Db, k: Keyed, plan: Plan)
    requires plan.MovePlan? && Feasible(db, plan) && plan.transfer.source != plan.transfer.destination
    ensures var after, t := Commit(db, k, plan), plan.transfer;
            && t.source in after.accounts && t.destination in after.accounts
            && after.accounts[t.source].balance == plan.sourceBalance
            && after.accounts[t.source].scale == db.accounts[t.source].scale
            && after.accounts[t.destination].balance == plan.destinationBalance
            && after.accounts[t.destination].scale == db.accounts[t.destination].scale
            && plan.id in after.transfers && after.transfers[plan.id] == t
  {
  }

  /* -------------------- every stored reply, and every reply at all -------------------- */

  // A reply that tells of an account or a transfer that exists: an account by what it opened with,
  // a transfer by its row.
  ghost predicate Tells(db: Db, openings: Openings, status: int, body: Body) {
    status == 201 &&
    if body.AccountCreated? then
      && body.id in db.accounts && body.id in openings
      && TellsOpening(body, body.id, db.accounts[body.id], openings[body.id])
    else
      body.id in db.transfers &&
      var t := db.transfers[body.id];
      && t.source in db.accounts && t.destination in db.accounts
      && TellsTransfer(body, body.id, t, db.accounts[t.source].scale, db.accounts[t.destination].scale)
  }

  ghost predicate TellsAt(db: Db, openings: Openings, k: RecordKey) {
    k in db.records && (db.records[k].completion.Some? ==>
      var c := db.records[k].completion.value;
      c.resource == c.body.id && (c.body.AccountCreated? <==> k.operation == AccountCreation)
      && Tells(db, openings, c.status, c.body))
  }

  ghost predicate RecordsTell(db: Db, openings: Openings) {
    forall k :: k in db.records ==> TellsAt(db, openings, k)
  }

  ghost predicate Continues(openings: Openings, later: Openings) {
    forall a :: a in openings ==> a in later && later[a] == openings[a]
  }

  lemma TellsStays(db: Db, openings: Openings, after: Db, later: Openings, status: int, body: Body)
    requires Tells(db, openings, status, body) && Grows(db, after) && Continues(openings, later)
    ensures Tells(after, later, status, body)
  {
  }

  // A committed request stores its own reply, and no other record changes.
  lemma ReplyIsStored(config: FxConfig.Config, db: Db, req: Request)
    requires Apply(config, db, req).db != db
    ensures Classify(db.accounts, req).Ok?
    ensures var k, after := Classify(db.accounts, req).value, Apply(config, db, req);
            && (k.key.operation == AccountCreation <==> req.call.CreateAccount?)
            && after.reply.Success?
            && after.db.records == db.records[k.key := Record(
                 k.fingerprint, Some(Completion(after.reply.status, after.reply.body, req.id)))]
  {
    ApplyCommits(config, db, req);
    var k := Classify(db.accounts, req).value;
    PlanResource(config, db, req, k);
  }

  lemma PlanResource(config: FxConfig.Config, db: Db, req: Request, k: Keyed)
    requires Classify(db.accounts, req) == Ok(k) && Work(config, db, req, k.job).Ok?
    ensures Work(config, db, req, k.job).value.completion.resource == req.id
    ensures k.key.operation == AccountCreation <==> req.call.CreateAccount?
  {
  }

  lemma CommittedReplyTells(config: FxConfig.Config, db: Db, openings: Openings, req: Request)
    requires Sound(db, openings) && Apply(config, db, req).db != db
    ensures var after := Apply(config, db, req);
            && after.reply.Success? && after.reply.body.id == req.id
            && (after.reply.body.AccountCreated? <==> req.call.CreateAccount?)
            && Tells(after.db, Opened(openings, after.db), after.reply.status, after.reply.body)
  {
    match req.call {
      case CreateAccount(_, _) => OpeningReply(config, db, req);
      case CreateTransfer(_, _, _) =>
        TransferReply(config, db, req);
        NextGrows(config, db, Serve(req));
      case ReverseTransfer(_) => ReversalReply(config, db, req);
    }
  }

  lemma OtherRecordTells(db: Db, openings: Openings, after: Db, later: Openings, k: RecordKey)
    requires TellsAt(db, openings, k) && Grows(db, after) && Continues(openings, later)
    ensures TellsAt(after, later, k)
  {
    if db.records[k].completion.Some? {
      var c := db.records[k].completion.value;
      TellsStays(db, openings, after, later, c.status, c.body);
    }
  }

  lemma NewRecordTells(config: FxConfig.Config, db: Db, openings: Openings, req: Request)
    requires Sound(db, openings) && Apply(config, db, req).db != db
    ensures var after := Apply(config, db, req).db;
            forall k :: k in after.records && k !in db.records ==> TellsAt(after, Opened(openings, after), k)
  {
    ReplyIsStored(config, db, req);
    CommittedReplyTells(config, db, openings, req);
  }

  lemma GrownRecordsTell(db: Db, openings: Openings, after: Db, later: Openings)
    requires RecordsTell(db, openings) && Grows(db, after) && Continues(openings, later)
    requires forall k :: k in after.records && k !in db.records ==> TellsAt(after, later, k)
    ensures RecordsTell(after, later)
  {
    forall k | k in after.records ensures TellsAt(after, later, k) {
      if k in db.records {
        OtherRecordTells(db, openings, after, later, k);
      }
    }
  }

  lemma ServeKeepsTelling(config: FxConfig.Config, db: Db, openings: Openings, req: Request)
    requires Sound(db, openings) && RecordsTell(db, openings)
    ensures var after := Apply(config, db, req).db; RecordsTell(after, Opened(openings, after))
  {
    var after := Apply(config, db, req).db;
    if after != db {
      NewRecordTells(config, db, openings, req);
    }
    NextGrows(config, db, Serve(req));
    GrownRecordsTell(db, openings, after, Opened(openings, after));
  }

  lemma StatusKeepsTelling(db: Db, openings: Openings, account: Id, active: bool)
    requires RecordsTell(db, openings)
    ensures var after := WithStatus(db, account, active); RecordsTell(after, Opened(openings, after))
  {
    var after := WithStatus(db, account, active);
    StatusShape(db, account, active);
    GrownRecordsTell(db, openings, after, Opened(openings, after));
  }

  lemma {:induction false} RunKeepsTelling(config: FxConfig.Config, db: Db, openings: Openings, events: seq<Event>)
    requires Sound(db, openings) && RecordsTell(db, openings)
    ensures RecordsTell(Run(config, db, events), OpeningsAfter(config, db, openings, events))
  {
    if events != [] {
      var n := |events| - 1;
      RunKeepsTelling(config, db, openings, events[..n]);
      RunKeepsSound(config, db, openings, events[..n]);
      var before, known := Run(config, db, events[..n]), OpeningsAfter(config, db, openings, events[..n]);
      match events[n] {
        case Serve(req) => ServeKeepsTelling(config, before, known, req);
        case SetStatus(account, active) => StatusKeepsTelling(before, known, account, active);
      }
    }
  }

  // Every reply of success, replays included, tells of what is there: in every run from empty tables
  // its body reads back to the account or the transfer it names.
  lemma EveryReplyTells(config: FxConfig.Config, events: seq<Event>, req: Request)
    requires Apply(config, Run(config, EMPTY, events), req).reply.Success?
    ensures var reply, all := Apply(config, Run(config, EMPTY, events), req).reply, events + [Serve(req)];
            Tells(Run(config, EMPTY, all), OpeningsAfter(config, EMPTY, map[], all), reply.status, reply.body)
  {
    var all := events + [Serve(req)];
    EmptyIsSound();
    RunKeepsTelling(config, EMPTY, map[], all);
    RunOneMore(config, EMPTY, events, Serve(req));
    SuccessIsRecorded(config, Run(config, EMPTY, events), req);
    var k := Classify(Run(config, EMPTY, events).accounts, req).value;
    assert TellsAt(Run(config, EMPTY, all), OpeningsAfter(config, EMPTY, map[], all), k.key);
  }
}
