/** Which answers can be out of date before their transactions have ended: those that rest on a
    missing row, and always those; other requests can always make them so. */
module Outdated {
  import opened Common
  import opened Sums
  import opened Decimal
  import opened Ledger
  import opened LedgerInvariants
  import opened ExactlyOnce
  import opened Outcomes
  import opened Protocol
  import opened ProtocolSafety
  import opened Serializability
  import opened Finishing
  import opened Alone
  import FxConfig
  import Money

  /* -------------------- accounts hold supported currencies -------------------- */

  function CurrencyOf(account: Account): Money.Currency {
    Money.Currency(account.currency, account.scale)
  }

  predicate Listed(accounts: map<Id, Account>) {
    forall a :: a in accounts ==> CurrencyOf(accounts[a]) in Money.CURRENCIES
  }

  lemma OpensListed(accounts: map<Id, Account>, req: Request)
    requires Classify(accounts, req).Ok? && Classify(accounts, req).value.job.Open?
    ensures Classify(accounts, req).value.job.currency in Money.CURRENCIES
  {
    Money.FoundIsListed(Money.ToAsciiUppercase(Money.Trim(req.call.currency)), Money.CURRENCIES);
  }

  lemma CommitKeepsListed(db: Db, k: Keyed, plan: Plan)
    requires Listed(db.accounts) && Feasible(db, plan)
    requires plan.OpenPlan? ==> CurrencyOf(plan.account) in Money.CURRENCIES
    ensures Listed(Commit(db, k, plan).accounts)
  {
  }

  lemma ApplyKeepsListed(config: FxConfig.Config, db: Db, req: Request)
    requires Listed(db.accounts)
    ensures Listed(Apply(config, db, req).db.accounts)
  {
    if Apply(config, db, req).db != db {
      ApplyCommits(config, db, req);
      var k := Classify(db.accounts, req).value;
      if k.job.Open? {
        OpensListed(db.accounts, req);
      }
      CommitKeepsListed(db, k, Work(config, db, req, k.job).value);
    }
  }

  lemma {:induction false} RunKeepsListed(config: FxConfig.Config, db: Db, events: seq<Event>)
    requires Listed(db.accounts)
    ensures Listed(Run(config, db, events).accounts)
  {
    if events != [] {
      var n := |events| - 1;
      RunKeepsListed(config, db, events[..n]);
      if events[n].Serve? {
        ApplyKeepsListed(config, Run(config, db, events[..n]), events[n].request);
      }
    }
  }

  // In every state reachable from empty tables, accounts of one currency have one scale.
  lemma OneScalePerCurrency(config: FxConfig.Config, events: seq<Event>, a: Id, b: Id)
    requires var accounts := Run(config, EMPTY, events).accounts;
             a in accounts && b in accounts && accounts[a].currency == accounts[b].currency
    ensures Listed(Run(config, EMPTY, events).accounts)
    ensures Run(config, EMPTY, events).accounts[a].scale == Run(config, EMPTY, events).accounts[b].scale
  {
    RunKeepsListed(config, EMPTY, events);
    SameScale(Run(config, EMPTY, events).accounts, a, b);
  }

  lemma SameScale(accounts: map<Id, Account>, a: Id, b: Id)
    requires Listed(accounts) && a in accounts && b in accounts && accounts[a].currency == accounts[b].currency
    ensures accounts[a].scale == accounts[b].scale
  {
    Money.CodeTellsScale(CurrencyOf(accounts[a]), CurrencyOf(accounts[b]));
  }

  /* -------------------- requests that create what was missing -------------------- */

  function Creation(client: string, n: nat, id: Id, code: string, balance: string, draw: Id): Request {
    Request(client, Zeros(n), 0, id, draw, draw + 1, CreateAccount(code, balance))
  }

  function CreationKey(client: string, n: nat): RecordKey {
    RecordKey(client, AccountCreation, Zeros(n))
  }

  // The keys a request leaves behind are keys it may reserve.
  lemma ApplyAddsKey(config: FxConfig.Config, db: Db, req: Request, key: RecordKey)
    requires key in Apply(config, db, req).db.records && key !in db.records
    ensures MayReserve(req, key)
  {
    ApplyCommits(config, db, req);
    ClassifiedKey(db.accounts, req);
  }

  lemma ZeroOrOne(text: string, scale: Scale)
    requires text == "0" || text == "1"
    ensures Money.Grammatical(text, false, text, "")
    ensures Money.Denoted(false, text, "", scale) == (if text == "0" then 0 else Pow10(scale))
  {
    assert text + "" == text && text[..0] == "";
    assert Value(text) == if text == "0" then 0 else 1;
  }

  lemma ZeroOrOneParsed(text: string, scale: Scale)
    requires text == "0" || text == "1"
    ensures Money.ParseInitialBalance(text, scale) == Ok(if text == "0" then 0 else Pow10(scale))
    ensures Money.ParseMinorUnits(text, scale) == Ok(if text == "0" then 0 else Pow10(scale))
  {
    ZeroOrOne(text, scale);
    PowerMonotone(scale, 18);
    Money.PowersOfTen();
    Money.ParseCharacterised(text, scale, false, text, "");
    Money.InitialBalanceCharacterised(text, scale, false, text, "");
  }

  lemma Created(
      config: FxConfig.Config, db: Db, client: string, n: nat, id: Id, currency: Money.Currency, text: string, draw: Id)
    requires currency in Money.CURRENCIES && (text == "0" || text == "1")
    requires CreationKey(client, n) !in db.records && id !in db.accounts
    ensures var after := Apply(config, db, Creation(client, n, id, currency.code, text, draw)).db;
            && after.transfers == db.transfers && after.entries == db.entries
            && after.accounts ==
               db.accounts[id := Account(client, currency.code, currency.scale,
                                         if text == "0" then 0 else Pow10(currency.scale), true, 0)]
            && after.records.Keys <= db.records.Keys + {CreationKey(client, n)}
  {
    var req := Creation(client, n, id, currency.code, text, draw);
    Money.NamesItself(currency);
    ZeroOrOneParsed(text, currency.scale);
    AcceptedOpening(config, db, req, currency, if text == "0" then 0 else Pow10(currency.scale));
    forall key | key in Apply(config, db, req).db.records && key !in db.records ensures key == CreationKey(client, n) {
      ApplyAddsKey(config, db, req, key);
    }
  }

  // The creation of an account that is missing.
  function Missing(db: Db, client: string, n: nat, id: Id, code: string, draw: Id): seq<Request> {
    if id in db.accounts then [] else [Creation(client, n, id, code, "0", draw)]
  }

  lemma ServedOne(config: FxConfig.Config, db: Db, req: Request)
    ensures Run(config, db, ServeAll([req])) == Apply(config, db, req).db
  {
    assert ServeAll([req]) == [Serve(req)];
    assert [Serve(req)][..0] == [];
  }

  lemma ServedTwo(config: FxConfig.Config, db: Db, first: seq<Request>, second: seq<Request>)
    ensures Run(config, db, ServeAll(first + second)) == Run(config, Run(config, db, ServeAll(first)), ServeAll(second))
  {
    assert ServeAll(first + second) == ServeAll(first) + ServeAll(second);
    RunConcat(config, db, ServeAll(first), ServeAll(second));
  }

  // Only accounts are added: at most this one, under at most this key.
  ghost predicate Adds(db: Db, after: Db, ids: set<Id>, keys: set<RecordKey>) {
    && after.transfers == db.transfers && after.entries == db.entries
    && after.accounts.Keys <= db.accounts.Keys + ids && after.records.Keys <= db.records.Keys + keys
  }

  lemma MissingCreated(
      config: FxConfig.Config, db: Db, client: string, n: nat, id: Id, currency: Money.Currency, draw: Id)
    requires currency in Money.CURRENCIES && CreationKey(client, n) !in db.records
    ensures var after := Run(config, db, ServeAll(Missing(db, client, n, id, currency.code, draw)));
            && Grows(db, after) && Adds(db, after, {id}, {CreationKey(client, n)})
            && id in after.accounts && (id !in db.accounts ==> CurrencyOf(after.accounts[id]) == currency)
  {
    RunGrows(config, db, ServeAll(Missing(db, client, n, id, currency.code, draw)));
    if id !in db.accounts {
      Created(config, db, client, n, id, currency, "0", draw);
      ServedOne(config, db, Creation(client, n, id, currency.code, "0", draw));
    }
  }

  const ZLOTY: Money.Currency := Money.Currency("PLN", 2)

  // The currency in which missing parties are opened: that of the other party, if it is there.
  function SharedCurrency(accounts: map<Id, Account>, source: Id, destination: Id): Money.Currency {
    if source in accounts then CurrencyOf(accounts[source])
    else if destination in accounts then CurrencyOf(accounts[destination])
    else ZLOTY
  }

  function BothParties(db: Db, client: string, n: nat, source: Id, destination: Id, draw: Id): seq<Request> {
    var code := SharedCurrency(db.accounts, source, destination).code;
    Missing(db, client, n, source, code, draw) + Missing(db, client, n + 1, destination, code, draw + 2)
  }

  lemma SharedIsListed(accounts: map<Id, Account>, source: Id, destination: Id)
    requires Listed(accounts)
    ensures SharedCurrency(accounts, source, destination) in Money.CURRENCIES
  {
    assert ZLOTY == Money.CURRENCIES[0];
  }

  lemma KeysDiffer(client: string, n: nat)
    ensures CreationKey(client, n) != CreationKey(client, n + 1)
  {
    assert |Zeros(n)| != |Zeros(n + 1)|;
  }

  // The first party is there; the second one follows in its currency.
  lemma SecondParty(
      config: FxConfig.Config, db: Db, mid: Db, client: string, n: nat, source: Id, destination: Id,
      currency: Money.Currency, draw: Id) returns (after: Db)
    requires source != destination && !(source in db.accounts && destination in db.accounts)
    requires currency == SharedCurrency(db.accounts, source, destination) && currency in Money.CURRENCIES
    requires CreationKey(client, n) !in mid.records
    requires Grows(db, mid) && mid.accounts.Keys <= db.accounts.Keys + {source}
    requires source in mid.accounts && (source !in db.accounts ==> CurrencyOf(mid.accounts[source]) == currency)
    ensures after == Run(config, mid, ServeAll(Missing(db, client, n, destination, currency.code, draw)))
    ensures Grows(mid, after) && source in after.accounts && destination in after.accounts
    ensures CurrencyOf(after.accounts[source]) == CurrencyOf(after.accounts[destination])
    ensures Adds(mid, after, {destination}, {CreationKey(client, n)})
  {
    assert Missing(mid, client, n, destination, currency.code, draw) == Missing(db, client, n, destination, currency.code, draw);
    after := Run(config, mid, ServeAll(Missing(db, client, n, destination, currency.code, draw)));
    MissingCreated(config, mid, client, n, destination, currency, draw);
  }

  lemma AddsTwice(a: Db, b: Db, c: Db, ids: set<Id>, more: set<Id>, keys: set<RecordKey>, others: set<RecordKey>)
    requires Adds(a, b, ids, keys) && Adds(b, c, more, others)
    ensures Adds(a, c, ids + more, keys + others)
  {
  }

  lemma FirstParty(
      config: FxConfig.Config, db: Db, client: string, n: nat, id: Id, currency: Money.Currency, draw: Id)
    returns (mid: Db)
    requires currency in Money.CURRENCIES && CreationKey(client, n) !in db.records
    ensures mid == Run(config, db, ServeAll(Missing(db, client, n, id, currency.code, draw)))
    ensures Grows(db, mid) && Adds(db, mid, {id}, {CreationKey(client, n)})
    ensures id in mid.accounts && (id !in db.accounts ==> CurrencyOf(mid.accounts[id]) == currency)
  {
    mid := Run(config, db, ServeAll(Missing(db, client, n, id, currency.code, draw)));
    MissingCreated(config, db, client, n, id, currency, draw);
  }

  lemma PartiesInTurn(
      config: FxConfig.Config, db: Db, client: string, n: nat, source: Id, destination: Id, draw: Id)
    returns (mid: Db, after: Db)
    requires Listed(db.accounts) && source != destination && !(source in db.accounts && destination in db.accounts)
    requires CreationKey(client, n) !in db.records && CreationKey(client, n + 1) !in db.records
    ensures var code := SharedCurrency(db.accounts, source, destination).code;
            && mid == Run(config, db, ServeAll(Missing(db, client, n, source, code, draw)))
            && after == Run(config, mid, ServeAll(Missing(db, client, n + 1, destination, code, draw + 2)))
    ensures Grows(db, mid) && Adds(db, mid, {source}, {CreationKey(client, n)})
    ensures Grows(mid, after) && Adds(mid, after, {destination}, {CreationKey(client, n + 1)})
    ensures source in after.accounts && destination in after.accounts
    ensures CurrencyOf(after.accounts[source]) == CurrencyOf(after.accounts[destination])
  {
    var currency := SharedCurrency(db.accounts, source, destination);
    SharedIsListed(db.accounts, source, destination);
    KeysDiffer(client, n);
    mid := FirstParty(config, db, client, n, source, currency, draw);
    after := SecondParty(config, db, mid, client, n + 1, source, destination, currency, draw + 2);
  }

  lemma GrowsAndAdds(a: Db, b: Db, c: Db, ids: set<Id>, more: set<Id>, keys: set<RecordKey>, others: set<RecordKey>)
    requires Grows(a, b) && Grows(b, c) && Adds(a, b, ids, keys) && Adds(b, c, more, others)
    ensures Grows(a, c) && Adds(a, c, ids + more, keys + others)
  {
    GrowsTransitive(a, b, c);
    AddsTwice(a, b, c, ids, more, keys, others);
  }

  lemma PartiesCreated(
      config: FxConfig.Config, db: Db, client: string, n: nat, source: Id, destination: Id, draw: Id)
    returns (after: Db)
    requires Listed(db.accounts) && source != destination && !(source in db.accounts && destination in db.accounts)
    requires CreationKey(client, n) !in db.records && CreationKey(client, n + 1) !in db.records
    ensures after == Run(config, db, ServeAll(BothParties(db, client, n, source, destination, draw)))
    ensures Grows(db, after) && source in after.accounts && destination in after.accounts
    ensures CurrencyOf(after.accounts[source]) == CurrencyOf(after.accounts[destination])
    ensures Adds(db, after, {source} + {destination}, {CreationKey(client, n)} + {CreationKey(client, n + 1)})
  {
    var mid;
    mid, after := PartiesInTurn(config, db, client, n, source, destination, draw);
    GrowsAndAdds(db, mid, after, {source}, {destination}, {CreationKey(client, n)}, {CreationKey(client, n + 1)});
    var code := SharedCurrency(db.accounts, source, destination).code;
    ServedTwo(config, db, Missing(db, client, n, source, code, draw),
              Missing(db, client, n + 1, destination, code, draw + 2));
  }

  // Two new accounts of a client's and a transfer between them under a key of the client's choice.
  function Payment(client: string, key: string, n: nat, x: Id, id: Id, draw: Id): seq<Request> {
    Purses(client, n, x, draw) + [Paying(client, key, x, id, draw + 4)]
  }

  function Purses(client: string, n: nat, x: Id, draw: Id): seq<Request> {
    [Creation(client, n, x, "PLN", "1", draw)] + [Creation(client, n + 1, x + 1, "PLN", "0", draw + 2)]
  }

  function Paying(client: string, key: string, x: Id, id: Id, draw: Id): Request {
    Request(client, key, 0, id, draw, draw + 1, CreateTransfer(x, x + 1, "1"))
  }

  function Purse(client: string, balance: int): Account {
    Account(client, "PLN", 2, balance, true, 0)
  }

  // The tables are ready for it.
  ghost predicate PaymentDrawn(db: Db, client: string, n: nat, x: Id, draw: Id) {
    && x !in db.accounts && x + 1 !in db.accounts && draw + 4 !in db.entries && draw + 5 !in db.entries
    && CreationKey(client, n) !in db.records && CreationKey(client, n + 1) !in db.records
  }

  lemma PursesCreated(config: FxConfig.Config, db: Db, client: string, n: nat, x: Id, draw: Id)
    requires PaymentDrawn(db, client, n, x, draw)
    ensures var after := Run(config, db, ServeAll(Purses(client, n, x, draw)));
            && after.accounts == db.accounts[x := Purse(client, Pow10(2))][x + 1 := Purse(client, 0)]
            && Adds(db, after, {x} + {x + 1}, {CreationKey(client, n)} + {CreationKey(client, n + 1)})
  {
    assert ZLOTY == Money.CURRENCIES[0];
    var first, second := Creation(client, n, x, "PLN", "1", draw), Creation(client, n + 1, x + 1, "PLN", "0", draw + 2);
    Created(config, db, client, n, x, ZLOTY, "1", draw);
    ServedOne(config, db, first);
    var mid := Apply(config, db, first).db;
    assert CreationKey(client, n).key != CreationKey(client, n + 1).key;
    Created(config, mid, client, n + 1, x + 1, ZLOTY, "0", draw + 2);
    ServedOne(config, mid, second);
    ServedTwo(config, db, [first], [second]);
  }

  // A transfer request under a key of plain transfers leaves the key taken.
  lemma PayingTakesKey(config: FxConfig.Config, db: Db, client: string, key: string, x: Id, id: Id, draw: Id)
    requires x in db.accounts && db.accounts[x] == Purse(client, Pow10(2))
    requires x + 1 in db.accounts && db.accounts[x + 1] == Purse(client, 0)
    requires id !in db.transfers && draw !in db.entries && draw + 1 !in db.entries
    ensures var after := Apply(config, db, Paying(client, key, x, id, draw));
            && RecordKey(client, PlainTransfer, key) in after.db.records
            && (RecordKey(client, PlainTransfer, key) !in db.records ==>
                  after.reply.Success? && after.db != db)
  {
    var req := Paying(client, key, x, id, draw);
    ZeroOrOneParsed("1", 2);
    assert Pow10(2) == 100 by { assert Pow10(1) == 10; }
    if RecordKey(client, PlainTransfer, key) !in db.records {
      PlainTransferOutcome(config, db, req, Pow10(2));
      SuccessIsRecorded(config, db, req);
      assert Apply(config, db, req).db.accounts[x].balance == 0;
    }
  }

  lemma CommittedTransferRow(config: FxConfig.Config, db: Db, req: Request)
    requires Apply(config, db, req).db != db && req.call.CreateTransfer?
    ensures var after := Apply(config, db, req).db;
            && req.id in after.transfers && after.transfers[req.id].destination == req.call.destination
  {
    ApplyCommits(config, db, req);
    var k := Classify(db.accounts, req).value;
    WorkShape(config, db, req, k);
    PlanDraws(config, db, req, k.job);
  }

  lemma TwoPurses(config: FxConfig.Config, db: Db, client: string, n: nat, x: Id, draw: Id) returns (mid: Db)
    requires PaymentDrawn(db, client, n, x, draw)
    ensures mid == Run(config, db, ServeAll(Purses(client, n, x, draw)))
    ensures Grows(db, mid) && Adds(db, mid, {x} + {x + 1}, {CreationKey(client, n)} + {CreationKey(client, n + 1)})
    ensures x in mid.accounts && mid.accounts[x] == Purse(client, Pow10(2))
    ensures x + 1 in mid.accounts && mid.accounts[x + 1] == Purse(client, 0)
  {
    mid := Run(config, db, ServeAll(Purses(client, n, x, draw)));
    PursesCreated(config, db, client, n, x, draw);
    RunGrows(config, db, ServeAll(Purses(client, n, x, draw)));
  }

  lemma PaymentMade(config: FxConfig.Config, db: Db, client: string, key: string, n: nat, x: Id, id: Id, draw: Id)
    returns (after: Db)
    requires PaymentDrawn(db, client, n, x, draw) && id !in db.transfers
    ensures after == Run(config, db, ServeAll(Payment(client, key, n, x, id, draw)))
    ensures Grows(db, after) && RecordKey(client, PlainTransfer, key) in after.records
    ensures RecordKey(client, PlainTransfer, key) !in db.records ==>
              && id in after.transfers && after.transfers[id].destination == x + 1
              && x + 1 in after.accounts && after.accounts[x + 1].owner == client
  {
    var paying := Paying(client, key, x, id, draw + 4);
    var mid := TwoPurses(config, db, client, n, x, draw);
    after := Apply(config, mid, paying).db;
    PayingTakesKey(config, mid, client, key, x, id, draw + 4);
    NextGrows(config, mid, Serve(paying));
    GrowsTransitive(db, mid, after);
    ServedOne(config, mid, paying);
    ServedTwo(config, db, Purses(client, n, x, draw), [paying]);
    if RecordKey(client, PlainTransfer, key) !in db.records {
      CommittedTransferRow(config, mid, paying);
    }
  }

  /* -------------------- the answers that can change -------------------- */

  // What other requests can bring about, within rows that the transaction has not locked.
  ghost predicate MayFollow(config: FxConfig.Config, db: Db, events: seq<Event>, changed: set<Resource>, tx: Tx) {
    Spares(db, Run(config, db, events), changed) && Holds(tx.pc) !! changed
  }

  // All rows that a transaction could rely on.
  function Touched(db: Db): set<Resource> {
    (set key | key in db.records :: KeyOf(key)) + (set a | a in db.accounts :: AccountRow(a))
    + (set r | r in db.transfers && db.transfers[r].reverses.Some? :: TransferRow(db.transfers[r].reverses.value))
  }

  lemma GrowthSpares(db: Db, after: Db)
    requires Grows(db, after)
    ensures Spares(db, after, Touched(after))
  {
    forall o | Reversed(after.transfers, o) ensures TransferRow(o) in Touched(after) {
      var r :| r in after.transfers && after.transfers[r].reverses == Some(o);
      assert after.transfers[r].reverses.value == o;
    }
    forall a | a in db.accounts ensures AccountRow(a) in Touched(after) {
      assert a in after.accounts;
    }
    forall key | key in after.records ensures KeyOf(key) in Touched(after) {
    }
  }

  // Numbers above all that are in use, and above those a request names and draws.
  ghost predicate Choice(db: Db, req: Request, f: Id, n: nat) {
    && (forall a :: a in db.accounts ==> a < f) && (forall t :: t in db.transfers ==> t < f)
    && (forall e :: e in db.entries ==> e < f)
    && req.id < f && req.debitId < f && req.creditId < f
    && (req.call.CreateTransfer? ==> req.call.source < f && req.call.destination < f)
    && (req.call.ReverseTransfer? ==> req.call.original < f)
    && (forall k :: k in db.records ==> |k.key| < n) && |req.key| < n
  }

  function LengthOf(key: RecordKey): int {
    |key.key|
  }

  function Itself(id: Id): int {
    id
  }

  lemma Above(ids: set<Id>) returns (n: Id)
    ensures forall id :: id in ids ==> id < n
  {
    n := UpperBound(ids, Itself);
    forall id | id in ids ensures id < n {
      assert Itself(id) < n;
    }
  }

  lemma Choose(db: Db, req: Request) returns (f: Id, n: nat)
    ensures Choice(db, req, f, n)
  {
    var named := if req.call.CreateTransfer? then {req.call.source, req.call.destination}
                 else if req.call.ReverseTransfer? then {req.call.original} else {};
    var used := db.accounts.Keys + db.transfers.Keys + db.entries.Keys + {req.id, req.debitId, req.creditId} + named;
    f := Above(used);
    var m := UpperBound(db.records.Keys, LengthOf);
    forall k | k in db.records ensures |k.key| < m {
      assert LengthOf(k) < m;
    }
    n := if m > |req.key| then m else |req.key| + 1;
  }

  // The requests after which a transfer that misses an account is answered otherwise: its accounts
  // are created, and its client uses its key for another transfer.
  function AfterTransfer(db: Db, req: Request, f: Id, n: nat): seq<Request>
    requires req.call.CreateTransfer?
  {
    BothParties(db, req.client, n, req.call.source, req.call.destination, f)
    + Payment(req.client, req.key, n + 2, f, f + 2, f + 4)
  }

  lemma FreshKeys(db: Db, client: string, n: nat, m: nat)
    requires forall k :: k in db.records ==> |k.key| < n
    requires n <= m
    ensures CreationKey(client, m) !in db.records
  {
  }

  lemma PartiesLeaveDrawn(db: Db, mid: Db, client: string, n: nat, f: Id, ids: set<Id>)
    requires Adds(db, mid, ids, {CreationKey(client, n)} + {CreationKey(client, n + 1)})
    requires (forall a :: a in db.accounts ==> a < f) && (forall a :: a in ids ==> a < f)
    requires (forall t :: t in db.transfers ==> t < f) && (forall e :: e in db.entries ==> e < f)
    requires forall k :: k in db.records ==> |k.key| < n
    ensures PaymentDrawn(mid, client, n + 2, f, f + 4) && f + 2 !in mid.transfers
  {
    assert |Zeros(n + 2)| != |Zeros(n)| && |Zeros(n + 2)| != |Zeros(n + 1)|;
    assert |Zeros(n + 3)| != |Zeros(n)| && |Zeros(n + 3)| != |Zeros(n + 1)|;
  }

  // The key is taken and the accounts are there: whatever the answer, it is not that one is missing.
  lemma TakenAnswers(config: FxConfig.Config, db: Db, req: Request)
    requires req.call.CreateTransfer? && req.call.source != req.call.destination
    requires req.call.source in db.accounts && req.call.destination in db.accounts
    requires CurrencyOf(db.accounts[req.call.source]) == CurrencyOf(db.accounts[req.call.destination])
    requires RecordKey(req.client, PlainTransfer, req.key) in db.records
    ensures Apply(config, db, req).reply != Failure(AccountUnavailable)
  {
  }

  ghost predicate MissesParty(db: Db, req: Request) {
    && req.call.CreateTransfer? && req.call.source != req.call.destination
    && !(req.call.source in db.accounts && req.call.destination in db.accounts)
  }

  lemma PartiesThere(config: FxConfig.Config, db: Db, req: Request, f: Id, n: nat) returns (mid: Db)
    requires Listed(db.accounts) && Choice(db, req, f, n) && MissesParty(db, req)
    ensures mid == Run(config, db, ServeAll(BothParties(db, req.client, n, req.call.source, req.call.destination, f)))
    ensures Grows(db, mid) && PaymentDrawn(mid, req.client, n + 2, f, f + 4) && f + 2 !in mid.transfers
    ensures req.call.source in mid.accounts && req.call.destination in mid.accounts
    ensures CurrencyOf(mid.accounts[req.call.source]) == CurrencyOf(mid.accounts[req.call.destination])
  {
    FreshKeys(db, req.client, n, n);
    FreshKeys(db, req.client, n, n + 1);
    mid := PartiesCreated(config, db, req.client, n, req.call.source, req.call.destination, f);
    PartiesLeaveDrawn(db, mid, req.client, n, f, {req.call.source} + {req.call.destination});
  }

  lemma PartiesStay(mid: Db, after: Db, source: Id, destination: Id)
    requires Grows(mid, after) && source in mid.accounts && destination in mid.accounts
    requires CurrencyOf(mid.accounts[source]) == CurrencyOf(mid.accounts[destination])
    ensures source in after.accounts && destination in after.accounts
    ensures CurrencyOf(after.accounts[source]) == CurrencyOf(after.accounts[destination])
  {
  }

  lemma KeyThenTaken(config: FxConfig.Config, mid: Db, req: Request, f: Id, n: nat) returns (after: Db)
    requires req.call.CreateTransfer? && req.call.source != req.call.destination
    requires PaymentDrawn(mid, req.client, n + 2, f, f + 4) && f + 2 !in mid.transfers
    requires req.call.source in mid.accounts && req.call.destination in mid.accounts
    requires CurrencyOf(mid.accounts[req.call.source]) == CurrencyOf(mid.accounts[req.call.destination])
    ensures after == Run(config, mid, ServeAll(Payment(req.client, req.key, n + 2, f, f + 2, f + 4)))
    ensures Grows(mid, after) && Apply(config, after, req).reply != Failure(AccountUnavailable)
  {
    after := PaymentMade(config, mid, req.client, req.key, n + 2, f, f + 2, f + 4);
    PartiesStay(mid, after, req.call.source, req.call.destination);
    TakenAnswers(config, after, req);
  }

  lemma TransferAnsweredOtherwise(config: FxConfig.Config, db: Db, req: Request, f: Id, n: nat) returns (after: Db)
    requires Listed(db.accounts) && Choice(db, req, f, n) && MissesParty(db, req)
    ensures after == Run(config, db, ServeAll(AfterTransfer(db, req, f, n)))
    ensures Grows(db, after) && Apply(config, after, req).reply != Failure(AccountUnavailable)
  {
    var mid := PartiesThere(config, db, req, f, n);
    after := KeyThenTaken(config, mid, req, f, n);
    GrowsTransitive(db, mid, after);
    ServedTwo(config, db, BothParties(db, req.client, n, req.call.source, req.call.destination, f),
              Payment(req.client, req.key, n + 2, f, f + 2, f + 4));
  }

  // The requests after which a reversal that misses its original is answered otherwise.
  function AfterReversal(req: Request, f: Id, n: nat): seq<Request>
    requires req.call.ReverseTransfer?
  {
    Payment(req.client, Zeros(n), n, f, req.call.original, f)
  }

  lemma FoundAnswers(config: FxConfig.Config, db: Db, req: Request)
    requires req.call.ReverseTransfer? && req.call.original in db.transfers
    requires var d := db.transfers[req.call.original].destination;
             d in db.accounts && db.accounts[d].owner == req.client
    ensures Apply(config, db, req).reply != Failure(NotFound)
  {
  }

  lemma ReversalAnsweredOtherwise(config: FxConfig.Config, db: Db, req: Request, f: Id, n: nat) returns (after: Db)
    requires Choice(db, req, f, n) && req.call.ReverseTransfer? && req.call.original !in db.transfers
    ensures after == Run(config, db, ServeAll(AfterReversal(req, f, n)))
    ensures Grows(db, after) && Apply(config, after, req).reply != Failure(NotFound)
  {
    FreshKeys(db, req.client, n, n);
    FreshKeys(db, req.client, n, n + 1);
    assert RecordKey(req.client, PlainTransfer, Zeros(n)) !in db.records;
    after := PaymentMade(config, db, req.client, Zeros(n), n, f, req.call.original, f);
    FoundAnswers(config, after, req);
  }

  // No request but a reversal leaves a reversal's key behind.
  lemma {:induction false} KeysOfOthers(config: FxConfig.Config, db: Db, requests: seq<Request>, key: RecordKey)
    requires forall i :: 0 <= i < |requests| ==> !MayReserve(requests[i], key)
    requires key !in db.records
    ensures key !in Run(config, db, ServeAll(requests)).records
  {
    if requests != [] {
      var n := |requests| - 1;
      var before := Run(config, db, ServeAll(requests[..n]));
      KeysOfOthers(config, db, requests[..n], key);
      assert ServeAll(requests)[..n] == ServeAll(requests[..n]);
      if key in Apply(config, before, requests[n]).db.records {
        ApplyAddsKey(config, before, requests[n], key);
      }
    }
  }

  lemma MissingAccountSettles(config: FxConfig.Config, db: Db, tx: Tx)
    requires tx.pc.Begin? && tx.own == EMPTY && MissesRow(db, tx)
    ensures Local(config, db, tx) == Settle(Failure(AccountUnavailable))
  {
    OverlayNothing(db);
  }

  lemma TransferOutdated(config: FxConfig.Config, db: Db, tx: Tx) returns (events: seq<Event>, changed: set<Resource>)
    requires Listed(db.accounts) && tx.pc.Begin? && tx.own == EMPTY && MissesRow(db, tx)
    ensures MayFollow(config, db, events, changed, tx)
    ensures Local(config, db, tx) == Settle(Failure(AccountUnavailable))
    ensures Apply(config, Run(config, db, events), tx.request).reply != Failure(AccountUnavailable)
  {
    MissingAccountSettles(config, db, tx);
    var f, n := Choose(db, tx.request);
    events := ServeAll(AfterTransfer(db, tx.request, f, n));
    var after := TransferAnsweredOtherwise(config, db, tx.request, f, n);
    changed := Touched(after);
    GrowthSpares(db, after);
  }

  // A reversal that has reserved its key and does not find its original.
  ghost predicate Unfound(db: Db, tx: Tx) {
    && tx.pc.LockOriginal? && tx.request.call.ReverseTransfer? && tx.request.call.original !in db.transfers
    && tx.pc.k.key == RecordKey(tx.request.client, TransferReversal, tx.request.key) && tx.pc.k.key !in db.records
  }

  lemma MissingOriginalSettles(config: FxConfig.Config, db: Db, tx: Tx)
    requires tx.pc.LockOriginal? && Knows(config, db, tx) && MissesRow(db, tx)
    ensures Local(config, db, tx) == Settle(Failure(NotFound)) && Unfound(db, tx)
  {
    OverlayReserved(db, tx.pc.k);
    ClassifiedReversal(db.accounts, tx.request, tx.pc.k);
  }

  lemma ClassifiedReversal(accounts: map<Id, Account>, req: Request, k: Keyed)
    requires Classify(accounts, req) == Ok(k) && k.job.Undo?
    ensures req.call.ReverseTransfer? && k.job.original == req.call.original
    ensures k.key == RecordKey(req.client, TransferReversal, req.key)
  {
  }

  lemma PaymentReservesOthers(req: Request, f: Id, n: nat)
    requires req.call.ReverseTransfer?
    ensures forall i :: 0 <= i < |AfterReversal(req, f, n)| ==>
              !MayReserve(AfterReversal(req, f, n)[i], RecordKey(req.client, TransferReversal, req.key))
  {
  }

  lemma KeyUntouched(config: FxConfig.Config, db: Db, req: Request, f: Id, n: nat)
    requires req.call.ReverseTransfer? && RecordKey(req.client, TransferReversal, req.key) !in db.records
    ensures KeyOf(RecordKey(req.client, TransferReversal, req.key)) !in
            Touched(Run(config, db, ServeAll(AfterReversal(req, f, n))))
  {
    PaymentReservesOthers(req, f, n);
    KeysOfOthers(config, db, AfterReversal(req, f, n), RecordKey(req.client, TransferReversal, req.key));
  }

  lemma ReversalOutdated(config: FxConfig.Config, db: Db, tx: Tx) returns (events: seq<Event>, changed: set<Resource>)
    requires Unfound(db, tx)
    ensures MayFollow(config, db, events, changed, tx)
    ensures Apply(config, Run(config, db, events), tx.request).reply != Failure(NotFound)
  {
    var f, n := Choose(db, tx.request);
    events := ServeAll(AfterReversal(tx.request, f, n));
    var after := ReversalAnsweredOtherwise(config, db, tx.request, f, n);
    changed := Touched(after);
    GrowthSpares(db, after);
    KeyUntouched(config, db, tx.request, f, n);
    assert Holds(tx.pc) == {KeyOf(tx.pc.k.key)};
  }

  // An answer holds up to the release of the locks, whatever requests and status changes within the
  // rows left unlocked come in between, exactly when no row was missing.
  lemma HoldsExactly(config: FxConfig.Config, db: Db, openings: Openings, tx: Tx)
    requires Sound(db, openings) && Listed(db.accounts)
    requires Knows(config, db, tx) && Local(config, db, tx).Settle?
    ensures !MissesRow(db, tx) <==>
            forall events, changed :: MayFollow(config, db, events, changed, tx) ==>
              Apply(config, Run(config, db, events), tx.request) ==
              Outcome(Run(config, db, events), Local(config, db, tx).reply)
  {
    if MissesRow(db, tx) {
      var events, changed;
      if tx.pc.Begin? {
        events, changed := TransferOutdated(config, db, tx);
      } else {
        MissingOriginalSettles(config, db, tx);
        events, changed := ReversalOutdated(config, db, tx);
      }
      assert MayFollow(config, db, events, changed, tx);
    } else {
      forall events, changed | MayFollow(config, db, events, changed, tx)
        ensures Apply(config, Run(config, db, events), tx.request) ==
                Outcome(Run(config, db, events), Local(config, db, tx).reply)
      {
        HoldsMeanwhile(config, db, openings, tx, events, changed);
      }
    }
  }

  lemma HoldsMeanwhile(
      config: FxConfig.Config, db: Db, openings: Openings, tx: Tx, events: seq<Event>, changed: set<Resource>)
    requires Sound(db, openings) && Knows(config, db, tx) && Local(config, db, tx).Settle? && !MissesRow(db, tx)
    requires MayFollow(config, db, events, changed, tx)
    ensures Apply(config, Run(config, db, events), tx.request) ==
            Outcome(Run(config, db, events), Local(config, db, tx).reply)
  {
    var after := Run(config, db, events);
    RunKeepsSound(config, db, openings, events);
    KnowsStable(config, db, after, changed, tx);
    AnswerStays(config, db, after, tx);
  }

  // So it is in every execution, wherever a transaction decides.
  lemma HoldsExactlyInExecutions(
      config: FxConfig.Config, start: Db, openings: Openings, requests: seq<Request>,
      states: seq<Sys>, actions: seq<Action>, i: nat, t: nat)
    requires IsExecution(config, start, openings, requests, states, actions) && SettlesAt(config, states, actions, i, t)
    requires Listed(start.accounts)
    ensures var db, tx := states[i].db, states[i].txs[t];
            !MissesRow(db, tx) <==>
            forall events, changed :: MayFollow(config, db, events, changed, tx) ==>
              Apply(config, Run(config, db, events), tx.request) ==
              Outcome(Run(config, db, events), Local(config, db, tx).reply)
  {
    ExecutionKeeps(config, start, openings, requests, states, actions, i);
    TablesSound(config, start, openings, states[i]);
    RunKeepsListed(config, start, Events(states[i].order));
    HoldsExactly(config, states[i].db, OpeningsAfter(config, start, openings, Events(states[i].order)), states[i].txs[t]);
  }
}
