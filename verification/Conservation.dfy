/** Money is conserved per currency, and what reversals and currency exchange do to that. */
module Conservation {
  import opened Common
  import opened Sums
  import opened Ledger
  import opened LedgerInvariants
  import FxConfig

  ghost function AccountsIn(db: Db, currency: string): set<Id> {
    set a | a in db.accounts && db.accounts[a].currency == currency
  }

  function Balances(accounts: map<Id, Account>): Id -> int {
    (a: Id) => if a in accounts then accounts[a].balance else 0
  }

  function OpeningBalances(openings: Openings): Id -> int {
    (a: Id) => if a in openings then openings[a] else 0
  }

  // What a transfer brings into a currency, less what it takes out of it.
  function Flow(t: Transfer, currency: string): int {
    (if t.destinationCurrency == currency then t.destinationAmount else 0)
    - (if t.sourceCurrency == currency then t.totalDebit else 0)
  }

  function Flows(transfers: map<Id, Transfer>, currency: string): Id -> int {
    (id: Id) => if id in transfers then Flow(transfers[id], currency) else 0
  }

  ghost function LiveExchanges(transfers: map<Id, Transfer>): set<Id> {
    set id | id in Live(transfers) && transfers[id].kind == Exchange
  }

  // One transfer's effects, account by account.
  function EffectsOf(transfers: map<Id, Transfer>, id: Id): Id -> int {
    (a: Id) => if id in transfers then Effect(transfers[id], a) else 0
  }

  // The effect of all unreversed transfers, account by account.
  ghost function NetEffects(transfers: map<Id, Transfer>): Id -> int {
    (a: Id) => Sum(Live(transfers), Effects(transfers, a))
  }

  function Credits(t: Transfer): Id -> int {
    (a: Id) => if a == t.destination then t.destinationAmount else 0
  }

  function Debits(t: Transfer): Id -> int {
    (a: Id) => if a == t.source then -t.totalDebit else 0
  }

  // A transfer's effects on all accounts of a currency add up to its flow.
  lemma EffectsAddUp(db: Db, id: Id, currency: string)
    requires id in db.transfers && PartiesSound(db.accounts, db.transfers[id])
    ensures Sum(AccountsIn(db, currency), EffectsOf(db.transfers, id)) == Flow(db.transfers[id], currency)
  {
    var s, t := AccountsIn(db, currency), db.transfers[id];
    SumPoint(s, t.destination, t.destinationAmount, Credits(t));
    SumPoint(s, t.source, -t.totalDebit, Debits(t));
    SumAdd(s, Credits(t), Debits(t), EffectsOf(db.transfers, id));
  }

  lemma EffectsExchanged(db: Db, currency: string)
    requires TransfersSound(db)
    ensures Sum(AccountsIn(db, currency), NetEffects(db.transfers)) == Sum(Live(db.transfers), Flows(db.transfers, currency))
  {
    var accounts, live := AccountsIn(db, currency), Live(db.transfers);
    forall id | id in live ensures Flows(db.transfers, currency)(id) == Sum(accounts, EffectsOf(db.transfers, id)) {
      assert TransferSound(db, db.transfers[id]);
      EffectsAddUp(db, id, currency);
    }
    SumExchange(accounts, live, (a: Id) => Effects(db.transfers, a), (id: Id) => EffectsOf(db.transfers, id),
                NetEffects(db.transfers), Flows(db.transfers, currency));
  }

  // The balances in a currency add up to the opening balances in it plus the flows of the
  // unreversed exchanges alone: same-currency transfers and completed reversals net to zero.
  lemma CurrencyConserved(db: Db, openings: Openings, currency: string)
    requires Sound(db, openings)
    ensures Sum(AccountsIn(db, currency), Balances(db.accounts)) ==
            Sum(AccountsIn(db, currency), OpeningBalances(openings))
            + Sum(LiveExchanges(db.transfers), Flows(db.transfers, currency))
  {
    BalancesAddUp(db, openings, currency);
    EffectsExchanged(db, currency);
    PlainTransfersNetToZero(db, currency);
  }

  lemma BalancesAddUp(db: Db, openings: Openings, currency: string)
    requires LiveAgree(db, openings)
    ensures Sum(AccountsIn(db, currency), Balances(db.accounts)) ==
            Sum(AccountsIn(db, currency), OpeningBalances(openings)) + Sum(AccountsIn(db, currency), NetEffects(db.transfers))
  {
    var s := AccountsIn(db, currency);
    forall a | a in s
      ensures Balances(db.accounts)(a) == OpeningBalances(openings)(a) + NetEffects(db.transfers)(a)
    {
      assert LiveAgreeAt(db, openings, a);
    }
    SumAdd(s, OpeningBalances(openings), NetEffects(db.transfers), Balances(db.accounts));
  }

  lemma PlainTransfersNetToZero(db: Db, currency: string)
    requires TransfersSound(db)
    ensures Sum(Live(db.transfers), Flows(db.transfers, currency)) ==
            Sum(LiveExchanges(db.transfers), Flows(db.transfers, currency))
  {
    var live, exchanges := Live(db.transfers), LiveExchanges(db.transfers);
    forall id | id in live && id !in exchanges ensures Flows(db.transfers, currency)(id) == 0 {
      assert TransferSound(db, db.transfers[id]);
    }
    SumSupport(live, exchanges, Flows(db.transfers, currency));
  }

  // A transfer and its reversal cancel on every account, fee included.
  lemma ReversalCancels(db: Db, r: Id, a: Id)
    requires TransfersSound(db) && r in db.transfers && db.transfers[r].kind == Reversal
    ensures db.transfers[r].reverses.Some? && db.transfers[r].reverses.value in db.transfers
    ensures Effect(db.transfers[r], a) + Effect(db.transfers[db.transfers[r].reverses.value], a) == 0
  {
    assert TransferSound(db, db.transfers[r]);
  }

  // An account that never paid back a reversed transfer is never overdrawn.
  lemma NotOverdrawn(db: Db, openings: Openings, a: Id)
    requires Sound(db, openings) && a in db.accounts
    requires forall r :: r in db.transfers && db.transfers[r].kind == Reversal ==> db.transfers[r].source != a
    ensures db.accounts[a].balance >= 0
  {
    assert OverdraftBoundedAt(db, a);
    var debits := ReversalDebits(db.transfers, a);
    forall id | id in db.transfers.Keys ensures debits(id) == 0 {
    }
    SumZero(db.transfers.Keys, debits);
  }

  // A transfer that commits leaves its source with no less than zero.
  lemma CommittedTransferCovered(config: FxConfig.Config, db: Db, req: Request)
    requires req.call.CreateTransfer? && Apply(config, db, req).db != db
    ensures req.call.source in Apply(config, db, req).db.accounts
    ensures Apply(config, db, req).db.accounts[req.call.source].balance >= 0
  {
    ApplyCommits(config, db, req);
    var k := Classify(db.accounts, req).value;
    var plan := Work(config, db, req, k.job).value;
    MovePosts(config, db, req, k);
    MoveChangesAccount(db, k, plan, req.call.source);
  }
}
