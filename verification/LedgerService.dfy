/** The three request handlers, statement by statement over mutable tables, each proved to do what
    the whole-request specification says (src/api/accounts.rs, src/api/transfers.rs,
    src/api/reversals.rs, src/idempotency.rs). */
module LedgerService {
  import opened Common
  import opened Ledger
  import opened LedgerInvariants
  import Money
  import Fx
  import FxConfig

  class Service {
    const config: FxConfig.Config
    var accounts: map<Id, Account>
    var transfers: map<Id, Transfer>
    var entries: map<Id, Entry>
    var records: map<RecordKey, Record>

    // Between requests no reservation is incomplete.
    ghost predicate Valid()
      reads this
    {
      RecordsComplete(records)
    }

    constructor (config: FxConfig.Config)
      ensures this.config == config && Tables() == EMPTY && Valid()
    {
      this.config := config;
      accounts, transfers, entries, records := map[], map[], map[], map[];
    }

    function Tables(): Db
      reads this
    {
      Db(accounts, transfers, entries, records)
    }

    // ROLLBACK to the tables the transaction began with.
    method Rollback(begun: Db)
      modifies this
      ensures Tables() == begun
    {
      accounts, transfers, entries, records := begun.accounts, begun.transfers, begun.entries, begun.records;
    }

    /* -------------------- idempotency records -------------------- */

    method CompletedSuccess(k: Keyed) returns (reply: Option<Reply>)
      ensures reply == FastReply(records, k)
    {
      if k.key !in records {
        return None;
      }
      var record := records[k.key];
      if record.completion.None? {
        return Some(Panicked);
      }
      if record.fingerprint != k.fingerprint {
        return Some(Failure(IdempotencyConflict));
      }
      return Some(Success(record.completion.value.status, record.completion.value.body));
    }

    // None means that the reservation is owned.
    method Reserve(k: Keyed) returns (reply: Option<Reply>)
      modifies this`records
      ensures k.key !in old(records) ==>
                reply == None && records == old(records)[k.key := Record(k.fingerprint, None)]
      ensures k.key in old(records) ==>
                reply == Some(TakenReply(old(records)[k.key], k.fingerprint)) && records == old(records)
    {
      if k.key !in records {
        records := records[k.key := Record(k.fingerprint, None)];
        return None;
      }
      return Some(TakenReply(records[k.key], k.fingerprint));
    }

    method StoreSuccess(key: RecordKey, completion: Completion)
      modifies this`records
      ensures key in old(records) ==>
                records == old(records)[key := old(records)[key].(completion := Some(completion))]
      ensures key !in old(records) ==> records == old(records)
    {
      if key in records {
        records := records[key := records[key].(completion := Some(completion))];
      }
    }

    /* -------------------- the writes of a movement -------------------- */

    method UpdateBalances(updates: seq<(Id, int)>)
      requires |updates| == 2 && updates[0].0 in accounts && updates[1].0 in accounts
      modifies this`accounts
      ensures var debited := old(accounts)[updates[0].0 := Updated(old(accounts)[updates[0].0], updates[0].1)];
              accounts == debited[updates[1].0 := Updated(debited[updates[1].0], updates[1].1)]
    {
      ghost var debited := accounts[updates[0].0 := Updated(accounts[updates[0].0], updates[0].1)];
      for i := 0 to 2
        invariant i == 0 ==> accounts == old(accounts)
        invariant i == 1 ==> accounts == debited
        invariant i == 2 ==> accounts == debited[updates[1].0 := Updated(debited[updates[1].0], updates[1].1)]
      {
        var (id, balance) := updates[i];
        accounts := accounts[id := Updated(accounts[id], balance)];
      }
    }

    // False when a primary key is taken; the caller then rolls back.
    method InsertEntries(rows: seq<(Id, Entry)>) returns (ok: bool)
      requires |rows| == 2
      modifies this`entries
      ensures ok <==> rows[0].0 !in old(entries) && rows[1].0 !in old(entries) && rows[0].0 != rows[1].0
      ensures ok ==> entries == old(entries)[rows[0].0 := rows[0].1][rows[1].0 := rows[1].1]
    {
      for i := 0 to 2
        invariant i == 0 ==> entries == old(entries)
        invariant i >= 1 ==> rows[0].0 !in old(entries)
        invariant i == 1 ==> entries == old(entries)[rows[0].0 := rows[0].1]
        invariant i == 2 ==> rows[1].0 !in old(entries) && rows[0].0 != rows[1].0
        invariant i == 2 ==> entries == old(entries)[rows[0].0 := rows[0].1][rows[1].0 := rows[1].1]
      {
        var (id, row) := rows[i];
        if id in entries {
          return false;
        }
        entries := entries[id := row];
      }
      return true;
    }

    method Post(k: Keyed, plan: Plan) returns (ok: bool)
      requires plan.MovePlan? && Feasible(Tables(), plan)
      requires k.key in records && records[k.key].fingerprint == k.fingerprint
      modifies this
      ensures ok <==> Fresh(old(Tables()), plan)
      ensures ok ==> Tables() == Commit(old(Tables()), k, plan)
    {
      var t := plan.transfer;
      if plan.id in transfers {
        return false;
      }
      transfers := transfers[plan.id := t];
      UpdateBalances([(t.source, plan.sourceBalance), (t.destination, plan.destinationBalance)]);
      ok := InsertEntries([(plan.debitId, DebitEntry(plan.id, t)), (plan.creditId, CreditEntry(plan.id, t))]);
      if ok {
        StoreSuccess(k.key, plan.completion);
      }
    }

    /* -------------------- create_account -------------------- */

    method CreateAccount(req: Request) returns (reply: Reply)
      requires Valid() && req.call.CreateAccount?
      modifies this
      ensures Valid() && reply != Panicked
      ensures Outcome(Tables(), reply) == Apply(config, old(Tables()), req)
    {
      var currency := Money.CurrencyOf(req.call.currency);
      if currency.None? {
        return Failure(UnsupportedCurrency);
      }
      var balance := Money.ParseInitialBalance(req.call.initialBalance, currency.value.scale);
      if balance.Err? {
        return Failure(AmountError(balance.error, NegativeInitialBalance));
      }
      var k := Keyed(RecordKey(req.client, AccountCreation, req.key),
                     OfAccount(currency.value.code, balance.value), Open(currency.value, balance.value));
      ClassifiedAccount(accounts, req, k);
      var begun := Tables();
      var reserved := Reserve(k);
      if reserved.Some? {
        return reserved.value;
      }
      reply := Perform(req, k, begun);
      if !reply.Success? {
        Rollback(begun);
      }
    }

    // After the reservation: one row.
    method OpenAccount(req: Request, k: Keyed) returns (done: Result<Completion, Error>)
      requires k.job.Open? && k.key in records && records[k.key].fingerprint == k.fingerprint
      modifies this
      ensures Done(old(Tables()), k, Work(config, old(Tables()), req, k.job), done)
    {
      var currency, balance := k.job.currency, k.job.balance;
      if req.id in accounts {
        return Err(InternalError);
      }
      accounts := accounts[req.id := Account(req.client, currency.code, currency.scale, balance, true, 0)];
      var completion := Completion(
        CREATED, AccountCreated(req.id, currency.code, Money.FormatMinorUnits(balance, currency.scale)), req.id);
      StoreSuccess(k.key, completion);
      return Ok(completion);
    }

    // The owned reservation's work, and its reply.
    method Perform(req: Request, k: Keyed, ghost before: Db) returns (reply: Reply)
      requires Classify(before.accounts, req) == Ok(k) && k.key !in before.records
      requires RecordsComplete(before.records) && Tables() == Reserved(before, k)
      modifies this
      ensures reply == Apply(config, before, req).reply != Panicked
      ensures reply.Success? ==> Valid() && Tables() == Apply(config, before, req).db
    {
      ApplyReserved(config, before, req, k);
      var done;
      match k.job {
        case Open(_, _) => done := OpenAccount(req, k);
        case Move(_, _, _, _) => done := Transfer(req, k);
        case Undo(_) => done := Reverse(req, k);
      }
      if done.Err? {
        return Failure(done.error);
      }
      return Success(done.value.status, done.value.body);
    }

    /* -------------------- create_transfer -------------------- */

    method CreateTransfer(req: Request) returns (reply: Reply)
      requires Valid() && req.call.CreateTransfer?
      modifies this
      ensures Valid() && reply != Panicked
      ensures Outcome(Tables(), reply) == Apply(config, old(Tables()), req)
    {
      var source, destination := req.call.source, req.call.destination;
      if source == destination {
        return Failure(SameSourceAndDestination);
      }
      var begun := Tables();
      if source !in accounts || destination !in accounts {
        return Failure(AccountUnavailable);
      }
      var parties := PartiesOf(accounts[source], accounts[destination]);
      if parties.sourceCurrency == parties.destinationCurrency && parties.sourceScale != parties.destinationScale {
        return Failure(InternalError);
      }
      reply := TransferWithin(req, parties);
      if !reply.Success? {
        Rollback(begun);
      }
    }

    // The part whose failure rolls the transaction back.
    method TransferWithin(req: Request, parties: Parties) returns (reply: Reply)
      requires Valid() && req.call.CreateTransfer? && req.call.source != req.call.destination
      requires ReadParties(accounts, req.call.source, req.call.destination) == Some(parties)
      requires parties.sourceCurrency == parties.destinationCurrency ==> parties.sourceScale == parties.destinationScale
      modifies this
      ensures reply == Apply(config, old(Tables()), req).reply != Panicked
      ensures reply.Success? ==> Valid() && Tables() == Apply(config, old(Tables()), req).db
    {
      var operation := if parties.sourceCurrency == parties.destinationCurrency then PlainTransfer else FxTransfer;
      var amount := Money.ParseMinorUnits(req.call.amount, parties.sourceScale);
      if amount.Err? {
        return Failure(AmountError(amount.error, NonPositiveAmount));
      }
      if amount.value <= 0 {
        return Failure(NonPositiveAmount);
      }
      var job := Move(req.call.source, req.call.destination, parties, amount.value);
      var k := Keyed(RecordKey(req.client, operation, req.key),
                     OfTransfer(job.source, job.destination, parties.sourceCurrency, amount.value), job);
      reply := Idempotently(req, k);
    }

    // Replay, conflict, or reservation and work.
    method Idempotently(req: Request, k: Keyed) returns (reply: Reply)
      requires Valid() && Classify(accounts, req) == Ok(k) && !k.job.Open?
      modifies this
      ensures reply == Apply(config, old(Tables()), req).reply != Panicked
      ensures reply.Success? ==> Valid() && Tables() == Apply(config, old(Tables()), req).db
    {
      var fast := CompletedSuccess(k);
      if fast.Some? {
        return fast.value;
      }
      // Alone in the database, a request that passed the fast path finds its key free.
      ghost var before := Tables();
      var reserved := Reserve(k);
      match reserved {
        case Some(taken) => return taken;
        case None =>
      }
      reply := Perform(req, k, before);
    }

    // After the reservation: configuration, both row locks, the checks and the writes.
    method Transfer(req: Request, k: Keyed) returns (done: Result<Completion, Error>)
      requires k.job.Move? && k.key in records && records[k.key].fingerprint == k.fingerprint
      modifies this
      ensures Done(old(Tables()), k, Work(config, old(Tables()), req, k.job), done)
    {
      var quote := ReadConfiguration(k.job.parties, req.now);
      if quote.Err? {
        return Err(quote.error);
      }
      var plan := DecideTransfer(req, k.job, quote.value);
      if plan.Err? {
        return Err(plan.error);
      }
      var ok := Post(k, plan.value);
      done := if ok then Ok(plan.value.completion) else Err(InternalError);
    }

    // The rate and the fee rule in force, for an exchange.
    method ReadConfiguration(parties: Parties, now: int) returns (quote: Result<Option<Quote>, Error>)
      ensures quote == Configure(config, parties, now)
    {
      if parties.sourceCurrency == parties.destinationCurrency {
        return Ok(None);
      }
      var rate := FxConfig.SelectExchangeRate(config.rates, parties.sourceCurrency, parties.destinationCurrency, now);
      if rate.Err? {
        return Err(ConfigurationFailure(rate.error));
      }
      var rule := FxConfig.SelectFeeRule(config.rules, parties.sourceCurrency, parties.destinationCurrency, now);
      if rule.Err? {
        return Err(ConfigurationFailure(rule.error));
      }
      return Ok(Some(Quote(rate.value, rule.value)));
    }

    method ComputeAmounts(quote: Option<Quote>, amount: int, sourceScale: Scale, destinationScale: Scale)
      returns (amounts: Result<Amounts, Error>)
      ensures amounts == AmountsOf(quote, amount, sourceScale, destinationScale)
    {
      if quote.None? {
        return Ok(Amounts(amount, 0, amount));
      }
      var fee := Fx.CalculateFee(amount, quote.value.rule.item.feeBps);
      if fee.Err? {
        return Err(ArithmeticFailure(fee.error));
      }
      var rate := Fx.ParseRate(quote.value.rate.item.text);
      if rate.Err? {
        return Err(ArithmeticFailure(rate.error));
      }
      var converted := Fx.CalculateDestination(amount, sourceScale, destinationScale, rate.value);
      if converted.Err? {
        return Err(ArithmeticFailure(converted.error));
      }
      return Ok(Amounts(converted.value, fee.value.fee, fee.value.totalSourceDebit));
    }

    // The checks and the amounts once both account rows are locked.
    method DecideTransfer(req: Request, job: Job, quote: Option<Quote>) returns (plan: Result<Plan, Error>)
      requires job.Move?
      ensures plan == PlanMove(req, job, quote, Lookup(accounts, job.source), Lookup(accounts, job.destination))
    {
      if job.source !in accounts || job.destination !in accounts {
        return Err(AccountUnavailable);
      }
      var source, destination := accounts[job.source], accounts[job.destination];
      if source.owner != req.client || !source.active || !destination.active {
        return Err(AccountUnavailable);
      }
      if PartiesOf(source, destination) != job.parties {
        return Err(InternalError);
      }
      var amounts := ComputeAmounts(quote, job.amount, source.scale, destination.scale);
      if amounts.Err? {
        return Err(amounts.error);
      }
      plan := DecideBalances(req, job, quote, amounts.value, source.balance, destination.balance);
    }

    method DecideBalances(
        req: Request, job: Job, quote: Option<Quote>, amounts: Amounts, sourceBefore: int, destinationBefore: int)
      returns (plan: Result<Plan, Error>)
      requires job.Move?
      ensures plan == PlanAmounts(req, job, quote, amounts, sourceBefore, destinationBefore)
    {
      if sourceBefore < amounts.totalDebit {
        return Err(InsufficientFunds);
      }
      var sourceBalance := sourceBefore - amounts.totalDebit;
      if !InI64(sourceBalance) {
        return Err(ArithmeticOverflow);
      }
      var destinationBalance := destinationBefore + amounts.destinationAmount;
      if !InI64(destinationBalance) {
        return Err(ArithmeticOverflow);
      }
      var row := TransferRow(req, job, quote, amounts);
      return Ok(MovePlan(req.id, row, sourceBalance, destinationBalance, req.debitId, req.creditId,
                         Completion(CREATED, TransferBody(req.id, row, job.parties), req.id)));
    }

    // What the tables and the result are once the work after a reservation is done.
    ghost predicate Done(
        before: Db, k: Keyed, plan: Result<Plan, Error>, done: Result<Completion, Error>)
      reads this
    {
      match plan
      case Err(e) => done == Err(e)
      case Ok(p) =>
        if Fresh(before, p) then done == Ok(p.completion) && Feasible(before, p) && Tables() == Commit(before, k, p)
        else done == Err(InternalError)
    }

    /* -------------------- reverse_transfer -------------------- */

    method ReverseTransfer(req: Request) returns (reply: Reply)
      requires Valid() && req.call.ReverseTransfer?
      modifies this
      ensures Valid() && reply != Panicked
      ensures Outcome(Tables(), reply) == Apply(config, old(Tables()), req)
    {
      var begun := Tables();
      var id := req.call.original;
      reply := Idempotently(req, Keyed(RecordKey(req.client, TransferReversal, req.key), OfReversal(id), Undo(id)));
      if !reply.Success? {
        Rollback(begun);
      }
    }

    // After the reservation: the original's row lock, the checks, both row locks and the writes.
    method Reverse(req: Request, k: Keyed) returns (done: Result<Completion, Error>)
      requires k.job.Undo? && k.key in records && records[k.key].fingerprint == k.fingerprint
      modifies this
      ensures Done(old(Tables()), k, Work(config, old(Tables()), req, k.job), done)
    {
      var id := k.job.original;
      if id !in transfers {
        return Err(NotFound);
      }
      var original := transfers[id];
      if original.kind == Reversal {
        return Err(ReversalOfReversal);
      }
      if original.destination !in accounts || accounts[original.destination].owner != req.client {
        return Err(NotFound);
      }
      var alreadyReversed := Reversed(transfers, id);
      if alreadyReversed {
        return Err(TransferAlreadyReversed);
      }
      var plan := DecideReversal(req, id, original);
      if plan.Err? {
        return Err(plan.error);
      }
      var ok := Post(k, plan.value);
      done := if ok then Ok(plan.value.completion) else Err(InternalError);
    }

    // The checks and the balances once both account rows are locked; the original's destination pays.
    method DecideReversal(req: Request, original: Id, t: Transfer) returns (plan: Result<Plan, Error>)
      ensures plan == PlanUndo(req, original, t, Lookup(accounts, t.destination), Lookup(accounts, t.source))
    {
      if t.destination !in accounts || t.source !in accounts || t.source == t.destination {
        return Err(AccountUnavailable);
      }
      var source, destination := accounts[t.destination], accounts[t.source];
      if !source.active || !destination.active {
        return Err(AccountUnavailable);
      }
      if source.currency != t.destinationCurrency || destination.currency != t.sourceCurrency {
        return Err(InternalError);
      }
      var sourceBalance := source.balance - t.destinationAmount;
      if !InI64(sourceBalance) {
        return Err(ArithmeticOverflow);
      }
      var destinationBalance := destination.balance + t.totalDebit;
      if !InI64(destinationBalance) {
        return Err(ArithmeticOverflow);
      }
      var row := ReversalRow(req, original, t);
      return Ok(MovePlan(req.id, row, sourceBalance, destinationBalance, req.debitId, req.creditId,
                         Completion(CREATED, ReversalBody(req.id, original, row, source, destination), req.id)));
    }
  }

  // The tables as the owner of a reservation sees them.
  ghost function Reserved(db: Db, k: Keyed): Db {
    db.(records := db.records[k.key := Record(k.fingerprint, None)])
  }

  // What remains of the specification once the key is reserved. The completed record replaces the
  // reservation, so the commit is that of the tables before it.
  lemma ApplyReserved(config: FxConfig.Config, db: Db, req: Request, k: Keyed)
    requires Classify(db.accounts, req) == Ok(k) && k.key !in db.records
    ensures var plan := Work(config, db, req, k.job);
            && plan == Work(config, Reserved(db, k), req, k.job)
            && match plan
               case Err(e) => Apply(config, db, req) == Outcome(db, Failure(e))
               case Ok(p) =>
                 && Feasible(db, p) && Feasible(Reserved(db, k), p)
                 && Commit(Reserved(db, k), k, p) == Commit(db, k, p)
                 && Fresh(Reserved(db, k), p) == Fresh(db, p)
                 && Apply(config, db, req) ==
                    if Fresh(db, p) then Outcome(Commit(db, k, p), Success(p.completion.status, p.completion.body))
                    else Outcome(db, Failure(InternalError))
  {
    var plan := Work(config, db, req, k.job);
    if plan.Ok? {
      CommitForgetsReservation(db, k, plan.value);
    }
  }

  lemma CommitForgetsReservation(db: Db, k: Keyed, plan: Plan)
    requires Feasible(db, plan)
    ensures Commit(Reserved(db, k), k, plan) == Commit(db, k, plan)
  {
  }

  lemma ClassifiedAccount(accounts: map<Id, Account>, req: Request, k: Keyed)
    requires req.call.CreateAccount?
    requires ClassifyAccount(req, req.call.currency, req.call.initialBalance) == Ok(k)
    ensures Classify(accounts, req) == Ok(k)
  {
  }
}
