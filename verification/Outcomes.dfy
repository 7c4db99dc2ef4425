/** What a client gets from a transfer or a reversal, from its text to the balances: the parsers, the
    configuration, the arithmetic and the tables taken together. */
module Outcomes {
  import opened Common
  import opened Ledger
  import opened LedgerInvariants
  import Money
  import Fx
  import FxConfig

  // Both parties exist, the client owns the active source and the destination is active.
  predicate Usable(db: Db, req: Request) {
    req.call.CreateTransfer? &&
    var s, d := req.call.source, req.call.destination;
    && s != d && s in db.accounts && d in db.accounts
    && db.accounts[s].owner == req.client && db.accounts[s].active && db.accounts[d].active
  }

  predicate Unseen(db: Db, req: Request, operation: Operation) {
    && RecordKey(req.client, operation, req.key) !in db.records
    && req.id !in db.transfers && req.debitId !in db.entries && req.creditId !in db.entries && req.debitId != req.creditId
  }

  // The balances of two accounts move by the given amounts and those of all others stay.
  ghost predicate BalancesMoved(db: Db, after: Db, source: Id, debit: int, destination: Id, credit: int) {
    && after.accounts.Keys == db.accounts.Keys
    && forall a :: a in db.accounts ==>
         after.accounts[a].balance ==
         db.accounts[a].balance - (if a == source then debit else 0) + (if a == destination then credit else 0)
  }

  lemma OpenApplied(config: FxConfig.Config, db: Db, req: Request, k: Keyed)
    requires Classify(db.accounts, req) == Ok(k) && k.job.Open? && k.key !in db.records && req.id !in db.accounts
    ensures var after, currency := Apply(config, db, req), k.job.currency;
            && after.reply.Success? && after.db.transfers == db.transfers && after.db.entries == db.entries
            && after.db.accounts ==
               db.accounts[req.id := Account(req.client, currency.code, currency.scale, k.job.balance, true, 0)]
  {
  }

  lemma ClassifiedOpening(req: Request, currency: Money.Currency, balance: int)
    requires req.call.CreateAccount? && Money.CurrencyOf(req.call.currency) == Some(currency)
    requires Money.ParseInitialBalance(req.call.initialBalance, currency.scale) == Ok(balance)
    ensures ClassifyAccount(req, req.call.currency, req.call.initialBalance) ==
            Ok(Keyed(RecordKey(req.client, AccountCreation, req.key), OfAccount(currency.code, balance), Open(currency, balance)))
  {
  }

  lemma AcceptedOpening(config: FxConfig.Config, db: Db, req: Request, currency: Money.Currency, balance: int)
    requires req.call.CreateAccount? && Money.CurrencyOf(req.call.currency) == Some(currency)
    requires Money.ParseInitialBalance(req.call.initialBalance, currency.scale) == Ok(balance)
    requires RecordKey(req.client, AccountCreation, req.key) !in db.records && req.id !in db.accounts
    ensures var after := Apply(config, db, req);
            && after.reply.Success? && after.db.transfers == db.transfers && after.db.entries == db.entries
            && after.db.accounts ==
               db.accounts[req.id := Account(req.client, currency.code, currency.scale, balance, true, 0)]
  {
    ClassifiedOpening(req, currency, balance);
    OpenApplied(config, db, req, Classify(db.accounts, req).value);
  }

  lemma RefusedOpening(config: FxConfig.Config, db: Db, req: Request, currency: Money.Currency, e: Money.MoneyError)
    requires req.call.CreateAccount? && Money.CurrencyOf(req.call.currency) == Some(currency)
    requires Money.ParseInitialBalance(req.call.initialBalance, currency.scale) == Err(e)
    ensures e == Money.Malformed ==> Apply(config, db, req) == Outcome(db, Failure(MalformedAmount))
    ensures e == Money.TooManyFractionalDigits ==> Apply(config, db, req) == Outcome(db, Failure(TooManyFractionalDigits))
    ensures e == Money.Overflow ==> Apply(config, db, req) == Outcome(db, Failure(AmountOverflow))
    ensures e == Money.Negative ==> Apply(config, db, req) == Outcome(db, Failure(NegativeInitialBalance))
  {
  }

  // An account opens with exactly the amount its text denotes, or is refused for the one thing that
  // is wrong with the text.
  lemma AccountOutcome(
      config: FxConfig.Config, db: Db, req: Request, currency: Money.Currency,
      negative: bool, whole: string, fraction: string)
    requires req.call.CreateAccount? && Money.CurrencyOf(req.call.currency) == Some(currency)
    requires Money.Grammatical(req.call.initialBalance, negative, whole, fraction)
    requires RecordKey(req.client, AccountCreation, req.key) !in db.records && req.id !in db.accounts
    ensures var after := Apply(config, db, req);
            if |fraction| > currency.scale then after == Outcome(db, Failure(TooManyFractionalDigits))
            else
              var balance := Money.Denoted(negative, whole, fraction, currency.scale);
              if !(I64_MIN <= balance <= I64_MAX) then after == Outcome(db, Failure(AmountOverflow))
              else if balance < 0 then after == Outcome(db, Failure(NegativeInitialBalance))
              else
                && after.reply.Success? && after.db.transfers == db.transfers && after.db.entries == db.entries
                && after.db.accounts ==
                   db.accounts[req.id := Account(req.client, currency.code, currency.scale, balance, true, 0)]
  {
    var expected := Money.ParseInitialBalance(req.call.initialBalance, currency.scale);
    Money.InitialBalanceCharacterised(req.call.initialBalance, currency.scale, negative, whole, fraction);
    match expected {
      case Err(e) => RefusedOpening(config, db, req, currency, e);
      case Ok(balance) => AcceptedOpening(config, db, req, currency, balance);
    }
  }

  // The texts that are no currency of ours, or no amount at all.
  lemma SenselessOpening(config: FxConfig.Config, db: Db, req: Request)
    requires req.call.CreateAccount?
    ensures Money.CurrencyOf(req.call.currency).None? ==> Apply(config, db, req) == Outcome(db, Failure(UnsupportedCurrency))
    ensures Money.CurrencyOf(req.call.currency).Some?
            && !(exists negative, whole, fraction :: Money.Grammatical(req.call.initialBalance, negative, whole, fraction)) ==>
              Apply(config, db, req) == Outcome(db, Failure(MalformedAmount))
  {
    if Money.CurrencyOf(req.call.currency).Some? {
      var currency := Money.CurrencyOf(req.call.currency).value;
      Money.ParseMalformed(req.call.initialBalance, currency.scale);
      if Money.ParseMinorUnits(req.call.initialBalance, currency.scale) == Err(Money.Malformed) {
        RefusedOpening(config, db, req, currency, Money.Malformed);
      }
    }
  }

  /* -------------------- a transfer before its key is looked up -------------------- */

  // Two different accounts that exist; those of one currency have one scale.
  predicate Meets(db: Db, req: Request) {
    req.call.CreateTransfer? &&
    var s, d := req.call.source, req.call.destination;
    && s != d && s in db.accounts && d in db.accounts
    && (db.accounts[s].currency == db.accounts[d].currency ==> db.accounts[s].scale == db.accounts[d].scale)
  }

  // Which accounts a transfer names is looked at first.
  lemma SenselessTransfer(config: FxConfig.Config, db: Db, req: Request)
    requires req.call.CreateTransfer?
    ensures req.call.source == req.call.destination ==>
              Apply(config, db, req) == Outcome(db, Failure(SameSourceAndDestination))
    ensures req.call.source != req.call.destination
            && (req.call.source !in db.accounts || req.call.destination !in db.accounts) ==>
              Apply(config, db, req) == Outcome(db, Failure(AccountUnavailable))
    ensures Meets(db, req)
            && !(exists negative, whole, fraction :: Money.Grammatical(req.call.amount, negative, whole, fraction)) ==>
              Apply(config, db, req) == Outcome(db, Failure(MalformedAmount))
  {
    if Meets(db, req) {
      Money.ParseMalformed(req.call.amount, db.accounts[req.call.source].scale);
      if Money.ParseMinorUnits(req.call.amount, db.accounts[req.call.source].scale) == Err(Money.Malformed) {
        RefusedText(config, db, req, Money.Malformed);
      }
    }
  }

  lemma RefusedText(config: FxConfig.Config, db: Db, req: Request, e: Money.MoneyError)
    requires Meets(db, req) && Money.ParseMinorUnits(req.call.amount, db.accounts[req.call.source].scale) == Err(e)
    ensures e == Money.Malformed ==> Apply(config, db, req) == Outcome(db, Failure(MalformedAmount))
    ensures e == Money.TooManyFractionalDigits ==> Apply(config, db, req) == Outcome(db, Failure(TooManyFractionalDigits))
    ensures e == Money.Overflow ==> Apply(config, db, req) == Outcome(db, Failure(AmountOverflow))
  {
  }

  predicate BlamesText(e: Error) {
    e.MalformedAmount? || e.TooManyFractionalDigits? || e.AmountOverflow? || e.NonPositiveAmount?
  }

  lemma AcceptedText(config: FxConfig.Config, db: Db, req: Request, amount: int)
    requires Meets(db, req) && Money.ParseMinorUnits(req.call.amount, db.accounts[req.call.source].scale) == Ok(amount)
    ensures var after := Apply(config, db, req);
            if amount <= 0 then after == Outcome(db, Failure(NonPositiveAmount))
            else after.reply.Failure? ==> !BlamesText(after.reply.error)
  {
    if amount > 0 {
      var k := Classified(db, req, amount);
      if Work(config, db, req, k.job).Err? {
        WorkBlamesNoText(config, db, req, k.job);
      }
      AppliedBlames(config, db, req, k);
    }
  }

  lemma AppliedBlames(config: FxConfig.Config, db: Db, req: Request, k: Keyed)
    requires Classify(db.accounts, req) == Ok(k)
    requires Work(config, db, req, k.job).Err? ==> !BlamesText(Work(config, db, req, k.job).error)
    ensures Apply(config, db, req).reply.Failure? ==> !BlamesText(Apply(config, db, req).reply.error)
  {
  }

  lemma ConfigureBlamesNoText(config: FxConfig.Config, p: Parties, now: int)
    ensures Configure(config, p, now).Err? ==> !BlamesText(Configure(config, p, now).error)
  {
  }

  lemma AmountsBlameNoText(quote: Option<Quote>, amount: int, sourceScale: Scale, destinationScale: Scale)
    ensures var r := AmountsOf(quote, amount, sourceScale, destinationScale); r.Err? ==> !BlamesText(r.error)
  {
  }

  lemma PlanBlamesNoText(
      req: Request, job: Job, quote: Option<Quote>, source: Option<Account>, destination: Option<Account>)
    requires job.Move?
    ensures var r := PlanMove(req, job, quote, source, destination); r.Err? ==> !BlamesText(r.error)
  {
    if source.Some? && destination.Some? {
      AmountsBlameNoText(quote, job.amount, source.value.scale, destination.value.scale);
    }
  }

  lemma WorkBlamesNoText(config: FxConfig.Config, db: Db, req: Request, job: Job)
    requires job.Move? && Work(config, db, req, job).Err?
    ensures !BlamesText(Work(config, db, req, job).error)
  {
    ConfigureBlamesNoText(config, job.parties, req.now);
    if Configure(config, job.parties, req.now).Ok? {
      PlanBlamesNoText(req, job, Configure(config, job.parties, req.now).value,
                       Lookup(db.accounts, job.source), Lookup(db.accounts, job.destination));
    }
  }

  // The text of an amount names its fault by its decimals and its exact value alone, whoever sends
  // it and under whatever key; a positive amount in range is never blamed on its text.
  lemma AmountOutcome(
      config: FxConfig.Config, db: Db, req: Request, negative: bool, whole: string, fraction: string)
    requires Meets(db, req) && Money.Grammatical(req.call.amount, negative, whole, fraction)
    ensures var after, scale := Apply(config, db, req), db.accounts[req.call.source].scale;
            if |fraction| > scale then after == Outcome(db, Failure(TooManyFractionalDigits))
            else
              var amount := Money.Denoted(negative, whole, fraction, scale);
              if !(I64_MIN <= amount <= I64_MAX) then after == Outcome(db, Failure(AmountOverflow))
              else if amount <= 0 then after == Outcome(db, Failure(NonPositiveAmount))
              else after.reply.Failure? ==> !BlamesText(after.reply.error)
  {
    var scale := db.accounts[req.call.source].scale;
    Money.ParseCharacterised(req.call.amount, scale, negative, whole, fraction);
    if Money.ParseMinorUnits(req.call.amount, scale).Err? {
      RefusedText(config, db, req, Money.ParseMinorUnits(req.call.amount, scale).error);
    } else {
      AcceptedText(config, db, req, Money.ParseMinorUnits(req.call.amount, scale).value);
    }
  }

  // Two accounts that meet, and a text that reads as a positive amount.
  predicate Payable(db: Db, req: Request, amount: int) {
    && Meets(db, req) && amount > 0
    && Money.ParseMinorUnits(req.call.amount, db.accounts[req.call.source].scale) == Ok(amount)
  }

  function KeyOf(db: Db, req: Request): RecordKey
    requires Meets(db, req)
  {
    var same := db.accounts[req.call.source].currency == db.accounts[req.call.destination].currency;
    RecordKey(req.client, if same then PlainTransfer else FxTransfer, req.key)
  }

  lemma Classified(db: Db, req: Request, amount: int) returns (k: Keyed)
    requires Payable(db, req, amount)
    ensures Classify(db.accounts, req) == Ok(k) && k.key == KeyOf(db, req)
    ensures k.job == Move(req.call.source, req.call.destination,
                          PartiesOf(db.accounts[req.call.source], db.accounts[req.call.destination]), amount)
  {
    k := Classify(db.accounts, req).value;
  }

  // What is left to decide once the key is known.
  lemma Applied(config: FxConfig.Config, db: Db, req: Request, k: Keyed)
    requires Classify(db.accounts, req) == Ok(k)
    ensures var after, r := Apply(config, db, req), Work(config, db, req, k.job);
            if k.key in db.records then after == Outcome(db, TakenReply(db.records[k.key], k.fingerprint))
            else if r.Err? then after == Outcome(db, Failure(r.error))
            else
              && Feasible(db, r.value)
              && after == if Fresh(db, r.value)
                          then Outcome(Commit(db, k, r.value), Success(r.value.completion.status, r.value.completion.body))
                          else Outcome(db, Failure(InternalError))
  {
  }

  /* -------------------- a transfer under a free key -------------------- */

  // One rate and one fee rule are in force, for a pair of different currencies.
  predicate Quoted(config: FxConfig.Config, db: Db, req: Request)
    requires Meets(db, req)
  {
    var a, b := db.accounts[req.call.source].currency, db.accounts[req.call.destination].currency;
    a != b ==>
      && FxConfig.SelectExchangeRate(config.rates, a, b, req.now).Ok?
      && FxConfig.SelectFeeRule(config.rules, a, b, req.now).Ok?
  }

  lemma MoveWork(config: FxConfig.Config, db: Db, req: Request, job: Job)
    requires job.Move? && Configure(config, job.parties, req.now).Ok?
    ensures Work(config, db, req, job) ==
            PlanMove(req, job, Configure(config, job.parties, req.now).value,
                     Lookup(db.accounts, job.source), Lookup(db.accounts, job.destination))
  {
  }

  lemma QuotedConfigures(config: FxConfig.Config, db: Db, req: Request)
    requires Meets(db, req) && Quoted(config, db, req)
    ensures Configure(config, PartiesOf(db.accounts[req.call.source], db.accounts[req.call.destination]), req.now).Ok?
  {
  }

  // Nobody moves money out of another client's account, or between accounts one of which is not
  // active: whatever the amount and the balances, the answer is "account unavailable".
  lemma UnauthorisedTransfer(config: FxConfig.Config, db: Db, req: Request, amount: int)
    requires Payable(db, req, amount) && KeyOf(db, req) !in db.records && Quoted(config, db, req)
    requires || db.accounts[req.call.source].owner != req.client
             || !db.accounts[req.call.source].active || !db.accounts[req.call.destination].active
    ensures Apply(config, db, req) == Outcome(db, Failure(AccountUnavailable))
  {
    var k := Classified(db, req, amount);
    QuotedConfigures(config, db, req);
    MoveWork(config, db, req, k.job);
    Applied(config, db, req, k);
  }

  lemma ConfigureFails(config: FxConfig.Config, p: Parties, now: int)
    requires p.sourceCurrency != p.destinationCurrency
    ensures var rate := FxConfig.SelectExchangeRate(config.rates, p.sourceCurrency, p.destinationCurrency, now);
            var rule := FxConfig.SelectFeeRule(config.rules, p.sourceCurrency, p.destinationCurrency, now);
            var r := Configure(config, p, now);
            && (rate == Err(FxConfig.RateUnavailable) ==> r == Err(RateMissing))
            && (rate == Err(FxConfig.RateAmbiguous) ==> r == Err(RateConfigurationAmbiguous))
            && (rate.Ok? && rule == Err(FxConfig.FeeRuleUnavailable) ==> r == Err(FeeRuleMissing))
            && (rate.Ok? && rule == Err(FxConfig.FeeRuleAmbiguous) ==> r == Err(FeeRuleConfigurationAmbiguous))
  {
  }

  lemma UnconfiguredIsRefused(config: FxConfig.Config, db: Db, req: Request, k: Keyed)
    requires Classify(db.accounts, req) == Ok(k) && k.job.Move? && k.key !in db.records
    requires Configure(config, k.job.parties, req.now).Err?
    ensures Apply(config, db, req) == Outcome(db, Failure(Configure(config, k.job.parties, req.now).error))
  {
  }

  // An exchange without exactly one rate, or without exactly one fee rule at the level that decides,
  // is refused for that before its accounts are looked at.
  lemma UnquotedExchange(config: FxConfig.Config, db: Db, req: Request, amount: int)
    requires Payable(db, req, amount) && KeyOf(db, req) !in db.records
    requires db.accounts[req.call.source].currency != db.accounts[req.call.destination].currency
    ensures var a, b := db.accounts[req.call.source].currency, db.accounts[req.call.destination].currency;
            var pair := Some((a, b));
            var level := if FxConfig.NoRule(config.rules, pair, req.now) then None else pair;
            var after := Apply(config, db, req);
            if forall i: nat :: !FxConfig.RateAt(config.rates, a, b, req.now, i) then
              after == Outcome(db, Failure(RateMissing))
            else if !exists i: nat :: FxConfig.OnlyRate(config.rates, a, b, req.now, i) then
              after == Outcome(db, Failure(RateConfigurationAmbiguous))
            else if FxConfig.NoRule(config.rules, level, req.now) then after == Outcome(db, Failure(FeeRuleMissing))
            else if FxConfig.SeveralRules(config.rules, level, req.now) then
              after == Outcome(db, Failure(FeeRuleConfigurationAmbiguous))
            else Quoted(config, db, req)
  {
    var a, b := db.accounts[req.call.source].currency, db.accounts[req.call.destination].currency;
    FxConfig.RateSelection(config.rates, a, b, req.now);
    FxConfig.FeeSelection(config.rules, a, b, req.now);
    var k := Classified(db, req, amount);
    ConfigureFails(config, k.job.parties, req.now);
    if Configure(config, k.job.parties, req.now).Err? {
      UnconfiguredIsRefused(config, db, req, k);
    }
  }

  // A transfer within a currency moves its amount exactly when the source has it and the
  // destination can hold it.
  lemma PlainTransferOutcome(config: FxConfig.Config, db: Db, req: Request, amount: int)
    requires Usable(db, req) && Unseen(db, req, PlainTransfer)
    requires var s, d := db.accounts[req.call.source], db.accounts[req.call.destination];
             && s.currency == d.currency && s.scale == d.scale && InI64(s.balance) && InI64(d.balance)
             && Money.ParseMinorUnits(req.call.amount, s.scale) == Ok(amount) && amount > 0
    ensures var after, s, d := Apply(config, db, req), req.call.source, req.call.destination;
            if amount > db.accounts[s].balance then after == Outcome(db, Failure(InsufficientFunds))
            else if db.accounts[d].balance > I64_MAX - amount then after == Outcome(db, Failure(ArithmeticOverflow))
            else after.reply.Success? && BalancesMoved(db, after.db, s, amount, d, amount)
  {
    var k := Classify(db.accounts, req).value;
    assert Configure(config, k.job.parties, req.now) == Ok(None);
    var plan := Work(config, db, req, k.job);
    if plan.Ok? {
      CommitMoves(db, k, plan.value);
    }
  }

  lemma CommitMoves(db: Db, k: Keyed, plan: Plan)
    requires plan.MovePlan? && Feasible(db, plan) && plan.transfer.source != plan.transfer.destination
    ensures BalancesMoved(db, Commit(db, k, plan),
                          plan.transfer.source, db.accounts[plan.transfer.source].balance - plan.sourceBalance,
                          plan.transfer.destination, plan.destinationBalance - db.accounts[plan.transfer.destination].balance)
  {
  }

  // The two account rows as an authorised transfer finds them.
  lemma UsablePlan(config: FxConfig.Config, db: Db, req: Request, amount: int) returns (k: Keyed)
    requires Usable(db, req) && Payable(db, req, amount) && Quoted(config, db, req)
    ensures Classify(db.accounts, req) == Ok(k) && k.key == KeyOf(db, req) && k.job.Move?
    ensures k.job.source == req.call.source && k.job.destination == req.call.destination && k.job.amount == amount
    ensures Configure(config, k.job.parties, req.now).Ok?
    ensures var s, d := db.accounts[req.call.source], db.accounts[req.call.destination];
            && k.job.parties == PartiesOf(s, d)
            && Work(config, db, req, k.job) ==
               PlanMove(req, k.job, Configure(config, k.job.parties, req.now).value, Some(s), Some(d))
  {
    k := Classified(db, req, amount);
    QuotedConfigures(config, db, req);
    MoveWork(config, db, req, k.job);
  }

  // The answers of the exchange arithmetic, by the fee and the converted amount before any range check.
  lemma ExchangeAmounts(
      quote: Quote, amount: int, sourceScale: Scale, destinationScale: Scale, rate: Fx.ExactRate, fee: int, converted: int)
    requires 0 < amount <= I64_MAX && 0 <= quote.rule.item.feeBps <= 10_000
    requires Fx.ParseRate(quote.rate.item.text) == Ok(rate)
    requires Fx.RoundsHalfUp(amount * quote.rule.item.feeBps, 10_000, fee)
    requires Fx.ConvertsTo(amount, sourceScale, destinationScale, rate, converted)
    ensures AmountsOf(Some(quote), amount, sourceScale, destinationScale) ==
            if amount + fee > I64_MAX then Err(ArithmeticOverflow)
            else if converted == 0 then Err(DestinationAmountTooSmall)
            else if converted > I64_MAX then Err(ArithmeticOverflow)
            else Ok(Amounts(converted, fee, amount + fee))
  {
    var bps := quote.rule.item.feeBps;
    Fx.FeeExact(amount, bps);
    var rounded := Fx.HalfUpDivide(amount * bps, 10_000).value;
    Fx.RoundingMonotone(amount * bps, 10_000, fee, amount * bps, 10_000, rounded);
    Fx.RoundingMonotone(amount * bps, 10_000, rounded, amount * bps, 10_000, fee);
    Fx.DestinationUnique(amount, sourceScale, destinationScale, rate, converted);
  }

  // Row i of the rates and row j of the fee rules are the ones in force from currency a to currency b.
  ghost predicate QuotedBy(config: FxConfig.Config, a: string, b: string, now: int, i: nat, j: nat) {
    && FxConfig.OnlyRate(config.rates, a, b, now, i)
    && FxConfig.OnlyRule(config.rules, if FxConfig.NoRule(config.rules, Some((a, b)), now) then None else Some((a, b)), now, j)
  }

  lemma QuotedRows(config: FxConfig.Config, db: Db, req: Request, i: nat, j: nat)
    requires Meets(db, req)
    requires var a, b := db.accounts[req.call.source].currency, db.accounts[req.call.destination].currency;
             a != b && QuotedBy(config, a, b, req.now, i, j)
    ensures Quoted(config, db, req)
    ensures Configure(config, PartiesOf(db.accounts[req.call.source], db.accounts[req.call.destination]), req.now) ==
            Ok(Some(Quote(config.rates[i], config.rules[j])))
  {
    var a, b := db.accounts[req.call.source].currency, db.accounts[req.call.destination].currency;
    FxConfig.RateSelection(config.rates, a, b, req.now);
    FxConfig.FeeSelection(config.rules, a, b, req.now);
  }

  // What an exchange of an amount between usable accounts answers, once priced.
  lemma ExchangePlanned(
      config: FxConfig.Config, db: Db, req: Request, amount: int, i: nat, j: nat, amounts: Result<Amounts, Error>)
    requires Usable(db, req) && Payable(db, req, amount) && Unseen(db, req, FxTransfer)
    requires var a, b := db.accounts[req.call.source].currency, db.accounts[req.call.destination].currency;
             a != b && QuotedBy(config, a, b, req.now, i, j)
    requires var s, d := db.accounts[req.call.source], db.accounts[req.call.destination];
             && InI64(s.balance) && InI64(d.balance)
             && amounts == AmountsOf(Some(Quote(config.rates[i], config.rules[j])), amount, s.scale, d.scale)
             && (amounts.Ok? ==> 0 < amounts.value.totalDebit && 0 < amounts.value.destinationAmount)
    ensures var after, s, d := Apply(config, db, req), req.call.source, req.call.destination;
            match amounts
            case Err(e) => after == Outcome(db, Failure(e))
            case Ok(r) =>
              if r.totalDebit > db.accounts[s].balance then after == Outcome(db, Failure(InsufficientFunds))
              else if db.accounts[d].balance > I64_MAX - r.destinationAmount then
                after == Outcome(db, Failure(ArithmeticOverflow))
              else after.reply.Success? && BalancesMoved(db, after.db, s, r.totalDebit, d, r.destinationAmount)
  {
    QuotedRows(config, db, req, i, j);
    var k := UsablePlan(config, db, req, amount);
    Applied(config, db, req, k);
    var plan := Work(config, db, req, k.job);
    if plan.Ok? {
      CommitMoves(db, k, plan.value);
    }
  }

  // An exchange succeeds exactly when the amount and its fee fit, the amount converts to at least
  // half a unit and fits, the source has the amount and the fee, and the destination can hold what
  // it converts to; then exactly these move. Else the first of these that fails is the answer.
  lemma ExchangeOutcome(
      config: FxConfig.Config, db: Db, req: Request, amount: int, i: nat, j: nat,
      rate: Fx.ExactRate, fee: int, converted: int)
    requires Usable(db, req) && Payable(db, req, amount) && Unseen(db, req, FxTransfer)
    requires var a, b := db.accounts[req.call.source].currency, db.accounts[req.call.destination].currency;
             a != b && QuotedBy(config, a, b, req.now, i, j)
    requires Fx.ParseRate(config.rates[i].item.text) == Ok(rate) && 0 <= config.rules[j].item.feeBps <= 10_000
    requires var s, d := db.accounts[req.call.source], db.accounts[req.call.destination];
             && InI64(s.balance) && InI64(d.balance)
             && Fx.RoundsHalfUp(amount * config.rules[j].item.feeBps, 10_000, fee)
             && Fx.ConvertsTo(amount, s.scale, d.scale, rate, converted)
    ensures var after, s, d := Apply(config, db, req), req.call.source, req.call.destination;
            if amount + fee > I64_MAX then after == Outcome(db, Failure(ArithmeticOverflow))
            else if converted == 0 then after == Outcome(db, Failure(DestinationAmountTooSmall))
            else if converted > I64_MAX then after == Outcome(db, Failure(ArithmeticOverflow))
            else if amount + fee > db.accounts[s].balance then after == Outcome(db, Failure(InsufficientFunds))
            else if db.accounts[d].balance > I64_MAX - converted then after == Outcome(db, Failure(ArithmeticOverflow))
            else after.reply.Success? && BalancesMoved(db, after.db, s, amount + fee, d, converted)
  {
    var s, d := db.accounts[req.call.source], db.accounts[req.call.destination];
    var quote := Quote(config.rates[i], config.rules[j]);
    ExchangeAmounts(quote, amount, s.scale, d.scale, rate, fee, converted);
    var amounts := AmountsOf(Some(quote), amount, s.scale, d.scale);
    if amounts.Ok? {
      AmountsArePositive(Some(quote), amount, s.scale, d.scale);
    }
    ExchangePlanned(config, db, req, amount, i, j, amounts);
  }

  // The price of an exchange: the principal converted at the rate, and the fee on the principal.
  ghost predicate Priced(t: Transfer, sourceScale: Scale, destinationScale: Scale) {
    && t.rate.Some? && t.feeBps.Some? && Fx.ParseRate(t.rate.value).Ok?
    && Fx.ConvertsTo(t.sourceAmount, sourceScale, destinationScale, Fx.ParseRate(t.rate.value).value, t.destinationAmount)
    && Fx.RoundsHalfUp(t.sourceAmount * t.feeBps.value, 10_000, t.fee)
    && t.totalDebit == t.sourceAmount + t.fee
  }

  lemma AmountsArePriced(quote: Quote, amount: int, sourceScale: Scale, destinationScale: Scale)
    requires 0 < amount <= I64_MAX && AmountsOf(Some(quote), amount, sourceScale, destinationScale).Ok?
    ensures var r := AmountsOf(Some(quote), amount, sourceScale, destinationScale).value;
            && Fx.ParseRate(quote.rate.item.text).Ok?
            && Fx.ConvertsTo(amount, sourceScale, destinationScale, Fx.ParseRate(quote.rate.item.text).value, r.destinationAmount)
            && Fx.RoundsHalfUp(amount * quote.rule.item.feeBps, 10_000, r.fee)
            && r.totalDebit == amount + r.fee
  {
    Fx.FeeExact(amount, quote.rule.item.feeBps);
    Fx.DestinationExact(amount, sourceScale, destinationScale, Fx.ParseRate(quote.rate.item.text).value);
  }

  // Rates and rules outside what the tables' own checks admit are an internal error.
  lemma BrokenConfiguration(
      config: FxConfig.Config, db: Db, req: Request, amount: int, i: nat, j: nat, fee: int)
    requires Usable(db, req) && Payable(db, req, amount) && Unseen(db, req, FxTransfer)
    requires var a, b := db.accounts[req.call.source].currency, db.accounts[req.call.destination].currency;
             a != b && QuotedBy(config, a, b, req.now, i, j)
    requires InI64(db.accounts[req.call.source].balance) && InI64(db.accounts[req.call.destination].balance)
    requires var bps := config.rules[j].item.feeBps;
             || !(0 <= bps <= 10_000)
             || (Fx.RoundsHalfUp(amount * bps, 10_000, fee) && amount + fee <= I64_MAX
                 && Fx.ParseRate(config.rates[i].item.text).Err?)
    ensures Apply(config, db, req) == Outcome(db, Failure(InternalError))
  {
    var s, d := db.accounts[req.call.source], db.accounts[req.call.destination];
    var bps := config.rules[j].item.feeBps;
    if 0 <= bps <= 10_000 {
      Fx.FeeExact(amount, bps);
      var rounded := Fx.HalfUpDivide(amount * bps, 10_000).value;
      Fx.RoundingMonotone(amount * bps, 10_000, rounded, amount * bps, 10_000, fee);
    }
    BrokenAmounts(Quote(config.rates[i], config.rules[j]), amount, s.scale, d.scale);
    ExchangePlanned(config, db, req, amount, i, j, Err(InternalError));
  }

  lemma BrokenAmounts(quote: Quote, amount: int, sourceScale: Scale, destinationScale: Scale)
    requires 0 < amount <= I64_MAX
    requires || !(0 <= quote.rule.item.feeBps <= 10_000)
             || (Fx.CalculateFee(amount, quote.rule.item.feeBps).Ok? && Fx.ParseRate(quote.rate.item.text).Err?)
    ensures AmountsOf(Some(quote), amount, sourceScale, destinationScale) == Err(InternalError)
  {
  }

  // A committed exchange converts the principal its text spells and charges a fee on it, and moves
  // the total debit and the converted amount.
  lemma CommittedExchange(config: FxConfig.Config, db: Db, req: Request)
    requires Apply(config, db, req).db != db && req.call.CreateTransfer?
    requires req.call.source in db.accounts && req.call.destination in db.accounts
    requires db.accounts[req.call.source].currency != db.accounts[req.call.destination].currency
    ensures var after, s, d := Apply(config, db, req).db, req.call.source, req.call.destination;
            && req.id in after.transfers
            && var t := after.transfers[req.id];
            && t.kind == Exchange && t.source == s && t.destination == d
            && Money.ParseMinorUnits(req.call.amount, db.accounts[s].scale) == Ok(t.sourceAmount)
            && Priced(t, db.accounts[s].scale, db.accounts[d].scale)
            && BalancesMoved(db, after, s, t.totalDebit, d, t.destinationAmount)
  {
    ApplyCommits(config, db, req);
    var k := Classify(db.accounts, req).value;
    var plan := Work(config, db, req, k.job).value;
    MovePosts(config, db, req, k);
    CommitMoves(db, k, plan);
    var quote := Configure(config, k.job.parties, req.now).value.value;
    AmountsArePriced(quote, k.job.amount, db.accounts[req.call.source].scale, db.accounts[req.call.destination].scale);
  }

  // Its rate and fee are those of the one rate in force from its source's currency to its
  // destination's at its timestamp, and of the one fee rule that decides.
  lemma ExchangeTerms(config: FxConfig.Config, db: Db, req: Request)
    requires Apply(config, db, req).db != db && req.call.CreateTransfer?
    requires req.call.source in db.accounts && req.call.destination in db.accounts
    requires db.accounts[req.call.source].currency != db.accounts[req.call.destination].currency
    ensures var after, s, d := Apply(config, db, req).db, req.call.source, req.call.destination;
            && req.id in after.transfers
            && exists i: nat, j: nat ::
                 && QuotedBy(config, db.accounts[s].currency, db.accounts[d].currency, req.now, i, j)
                 && HasTerms(after.transfers[req.id], config, i, j)
  {
    var parties, quote, t := ExchangeRow(config, db, req);
    var i, j := RowsOfQuote(config, parties, req.now, quote);
    assert QuotedBy(config, parties.sourceCurrency, parties.destinationCurrency, req.now, i, j) && HasTerms(t, config, i, j);
  }

  lemma ExchangeRow(config: FxConfig.Config, db: Db, req: Request) returns (parties: Parties, quote: Quote, t: Transfer)
    requires Apply(config, db, req).db != db && req.call.CreateTransfer?
    requires req.call.source in db.accounts && req.call.destination in db.accounts
    requires db.accounts[req.call.source].currency != db.accounts[req.call.destination].currency
    ensures parties == PartiesOf(db.accounts[req.call.source], db.accounts[req.call.destination])
    ensures Configure(config, parties, req.now) == Ok(Some(quote))
    ensures req.id in Apply(config, db, req).db.transfers && t == Apply(config, db, req).db.transfers[req.id]
    ensures t.rate == Some(quote.rate.item.text) && t.rateId == Some(quote.rate.id) && t.feeBps == Some(quote.rule.item.feeBps)
  {
    ApplyCommits(config, db, req);
    var k := Classify(db.accounts, req).value;
    parties := k.job.parties;
    quote := Configure(config, parties, req.now).value.value;
    t := Work(config, db, req, k.job).value.transfer;
  }

  ghost predicate HasTerms(t: Transfer, config: FxConfig.Config, i: nat, j: nat) {
    && i < |config.rates| && j < |config.rules|
    && t.rate == Some(config.rates[i].item.text) && t.rateId == Some(config.rates[i].id)
    && t.feeBps == Some(config.rules[j].item.feeBps)
  }

  lemma RowsOfQuote(config: FxConfig.Config, p: Parties, now: int, quote: Quote) returns (i: nat, j: nat)
    requires p.sourceCurrency != p.destinationCurrency && Configure(config, p, now) == Ok(Some(quote))
    ensures QuotedBy(config, p.sourceCurrency, p.destinationCurrency, now, i, j)
    ensures quote == Quote(config.rates[i], config.rules[j])
  {
    var a, b := p.sourceCurrency, p.destinationCurrency;
    FxConfig.RateSelection(config.rates, a, b, now);
    FxConfig.FeeSelection(config.rules, a, b, now);
    var level := if FxConfig.NoRule(config.rules, Some((a, b)), now) then None else Some((a, b));
    i :| FxConfig.OnlyRate(config.rates, a, b, now, i);
    j :| FxConfig.OnlyRule(config.rules, level, now, j);
  }

  // What a reversal needs of the tables.
  ghost predicate Reversible(db: Db, req: Request) {
    req.call.ReverseTransfer? && req.call.original in db.transfers &&
    var t := db.transfers[req.call.original];
    && t.kind != Reversal
    && (forall r :: r in db.transfers ==> db.transfers[r].reverses != Some(req.call.original))
    && t.source in db.accounts && t.destination in db.accounts
    && db.accounts[t.destination].owner == req.client
    && db.accounts[t.source].active && db.accounts[t.destination].active
  }

  predicate OutOfRange(db: Db, t: Transfer)
    requires t.source in db.accounts && t.destination in db.accounts
  {
    || db.accounts[t.destination].balance < I64_MIN + t.destinationAmount
    || db.accounts[t.source].balance > I64_MAX - t.totalDebit
  }

  lemma UndoPlanned(config: FxConfig.Config, db: Db, req: Request)
    requires Reversible(db, req) && TransferSound(db, db.transfers[req.call.original])
    requires var t := db.transfers[req.call.original];
             InI64(db.accounts[t.source].balance) && InI64(db.accounts[t.destination].balance)
    ensures var t, r := db.transfers[req.call.original], Work(config, db, req, Undo(req.call.original));
            if OutOfRange(db, t) then r == Err(ArithmeticOverflow)
            else
              && r.Ok? && r.value.MovePlan? && r.value.id == req.id
              && r.value.debitId == req.debitId && r.value.creditId == req.creditId
              && r.value.transfer.reverses == Some(req.call.original)
              && r.value.transfer.source == t.destination && r.value.transfer.destination == t.source
              && r.value.sourceBalance == db.accounts[t.destination].balance - t.destinationAmount
              && r.value.destinationBalance == db.accounts[t.source].balance + t.totalDebit
  {
  }

  lemma ReversalApplied(config: FxConfig.Config, db: Db, req: Request)
    requires req.call.ReverseTransfer? && Unseen(db, req, TransferReversal)
    ensures var k := Keyed(RecordKey(req.client, TransferReversal, req.key), OfReversal(req.call.original), Undo(req.call.original));
            var r := Work(config, db, req, k.job);
            if r.Err? then Apply(config, db, req) == Outcome(db, Failure(r.error))
            else Feasible(db, r.value) && (Fresh(db, r.value) ==>
              Apply(config, db, req) ==
              Outcome(Commit(db, k, r.value), Success(r.value.completion.status, r.value.completion.body)))
  {
    assert Classify(db.accounts, req).value.job == Undo(req.call.original);
  }

  // A reversal under a free key is refused for the first of these that applies: no such transfer, a
  // reversal, an account credited that is not the client's (as if there were no such transfer), a
  // transfer reversed already, an account that is not active.
  lemma ReversalRefused(config: FxConfig.Config, db: Db, req: Request)
    requires req.call.ReverseTransfer? && RecordKey(req.client, TransferReversal, req.key) !in db.records
    ensures var after, o := Apply(config, db, req), req.call.original;
            if o !in db.transfers then after == Outcome(db, Failure(NotFound))
            else
              var t := db.transfers[o];
              if t.kind == Reversal then after == Outcome(db, Failure(ReversalOfReversal))
              else if t.destination !in db.accounts || db.accounts[t.destination].owner != req.client then
                after == Outcome(db, Failure(NotFound))
              else if exists r :: r in db.transfers && db.transfers[r].reverses == Some(o) then
                after == Outcome(db, Failure(TransferAlreadyReversed))
              else if t.source !in db.accounts || !db.accounts[t.source].active || !db.accounts[t.destination].active then
                after == Outcome(db, Failure(AccountUnavailable))
              else Reversible(db, req)
  {
    var k := Keyed(RecordKey(req.client, TransferReversal, req.key), OfReversal(req.call.original), Undo(req.call.original));
    UndoRefused(config, db, req);
    Applied(config, db, req, k);
  }

  lemma UndoRefused(config: FxConfig.Config, db: Db, req: Request)
    requires req.call.ReverseTransfer?
    ensures var r, o := Work(config, db, req, Undo(req.call.original)), req.call.original;
            if o !in db.transfers then r == Err(NotFound)
            else
              var t := db.transfers[o];
              if t.kind == Reversal then r == Err(ReversalOfReversal)
              else if t.destination !in db.accounts || db.accounts[t.destination].owner != req.client then r == Err(NotFound)
              else if exists r :: r in db.transfers && db.transfers[r].reverses == Some(o) then
                r == Err(TransferAlreadyReversed)
              else if t.source !in db.accounts || !db.accounts[t.source].active || !db.accounts[t.destination].active then
                r == Err(AccountUnavailable)
              else Reversible(db, req)
  {
  }

  // The owner of the account that was credited can reverse an unreversed transfer exactly when both
  // balances stay in range; what was credited goes back, and all that was debited, fee included.
  lemma ReversalOutcome(config: FxConfig.Config, db: Db, openings: Openings, req: Request)
    requires Sound(db, openings) && Reversible(db, req) && Unseen(db, req, TransferReversal)
    ensures var t, after := db.transfers[req.call.original], Apply(config, db, req);
            if OutOfRange(db, t) then after == Outcome(db, Failure(ArithmeticOverflow))
            else after.reply.Success? && req.id in after.db.transfers
                 && after.db.transfers[req.id].reverses == Some(req.call.original)
                 && BalancesMoved(db, after.db, t.destination, t.destinationAmount, t.source, t.totalDebit)
  {
    var t := db.transfers[req.call.original];
    assert TransferSound(db, t) && OverdraftBoundedAt(db, t.source) && OverdraftBoundedAt(db, t.destination);
    UndoPlanned(config, db, req);
    ReversalApplied(config, db, req);
    if !OutOfRange(db, t) {
      var k := Keyed(RecordKey(req.client, TransferReversal, req.key), OfReversal(req.call.original), Undo(req.call.original));
      var plan := Work(config, db, req, k.job).value;
      CommitMoves(db, k, plan);
      assert Commit(db, k, plan).transfers[req.id].reverses == Some(req.call.original);
    }
  }
}
