/** What every run of requests keeps true of the ledger tables, starting from empty tables:
    well-formed transfers, at most one reversal each, agreement of balances with entries and with
    the unreversed transfers, conservation per currency, the overdraft bound, and the one-to-one
    correspondence of idempotency records with created resources. */
module LedgerInvariants {
  import opened Common
  import opened Sums
  import opened Ledger
  import FxConfig
  import Fx

  // Balances at account creation; a history variable, no table holds it.
  type Openings = map<Id, int>

  /* -------------------- the invariants -------------------- */

  ghost predicate PartiesSound(accounts: map<Id, Account>, t: Transfer) {
    && t.source != t.destination && t.source in accounts && t.destination in accounts
    && accounts[t.source].currency == t.sourceCurrency
    && accounts[t.destination].currency == t.destinationCurrency
  }

  // r undoes o: it swaps the parties, debits what o credited, and credits all that o debited.
  ghost predicate Undoes(r: Transfer, o: Transfer) {
    && o.kind != Reversal
    && r.source == o.destination && r.destination == o.source
    && r.sourceCurrency == o.destinationCurrency && r.destinationCurrency == o.sourceCurrency
    && r.totalDebit == o.destinationAmount && r.destinationAmount == o.totalDebit
    && r.sourceAmount == r.totalDebit && r.fee == o.fee
  }

  ghost predicate KindSound(transfers: map<Id, Transfer>, t: Transfer) {
    match t.kind
    case Plain =>
      t.reverses.None? && t.sourceCurrency == t.destinationCurrency && t.fee == 0
      && t.sourceAmount == t.destinationAmount == t.totalDebit
    case Exchange =>
      t.reverses.None? && t.sourceCurrency != t.destinationCurrency && t.totalDebit == t.sourceAmount + t.fee
    case Reversal =>
      t.reverses.Some? && t.reverses.value in transfers && Undoes(t, transfers[t.reverses.value])
  }

  ghost predicate TransferSound(db: Db, t: Transfer) {
    PartiesSound(db.accounts, t) && KindSound(db.transfers, t)
    && 0 < t.sourceAmount <= I64_MAX && 0 < t.destinationAmount <= I64_MAX
    && 0 <= t.fee && 0 < t.totalDebit <= I64_MAX
  }

  ghost predicate TransfersSound(db: Db) {
    forall id :: id in db.transfers ==> TransferSound(db, db.transfers[id])
  }

  ghost predicate SingleReversal(transfers: map<Id, Transfer>) {
    forall r, s | r in transfers && s in transfers && transfers[r].reverses == transfers[s].reverses ::
      transfers[r].reverses.Some? ==> r == s
  }

  // A transfer has its debit entry and its credit entry and no other.
  ghost predicate Posted(transfers: map<Id, Transfer>, entries: map<Id, Entry>, id: Id, debit: Id, credit: Id) {
    && id in transfers && debit in entries && credit in entries
    && entries[debit] == DebitEntry(id, transfers[id])
    && entries[credit] == CreditEntry(id, transfers[id])
    && forall e :: e in entries && entries[e].transfer == id ==> e == debit || e == credit
  }

  ghost predicate EntriesSound(transfers: map<Id, Transfer>, entries: map<Id, Entry>) {
    && (forall id :: id in transfers ==> exists debit, credit :: Posted(transfers, entries, id, debit, credit))
    && (forall e :: e in entries ==> entries[e].transfer in transfers)
  }

  function Signed(e: Entry, account: Id): int {
    if e.account != account then 0 else if e.direction == Credit then e.amount else -e.amount
  }

  function SignedEntries(entries: map<Id, Entry>, account: Id): Id -> int {
    (e: Id) => if e in entries then Signed(entries[e], account) else 0
  }

  function EntryCounts(entries: map<Id, Entry>, account: Id): Id -> int {
    (e: Id) => if e in entries && entries[e].account == account then 1 else 0
  }

  // The balance is the opening balance plus credits minus debits; the version counts the entries.
  ghost predicate EntriesAgreeAt(db: Db, openings: Openings, a: Id)
    requires a in db.accounts && a in openings
  {
    && db.accounts[a].balance == openings[a] + Sum(db.entries.Keys, SignedEntries(db.entries, a))
    && db.accounts[a].version == Sum(db.entries.Keys, EntryCounts(db.entries, a))
  }

  ghost predicate EntriesAgree(db: Db, openings: Openings) {
    && db.accounts.Keys == openings.Keys
    && forall a :: a in db.accounts ==> EntriesAgreeAt(db, openings, a)
  }

  // What a transfer adds to an account's balance.
  function Effect(t: Transfer, account: Id): int {
    (if t.destination == account then t.destinationAmount else 0) - (if t.source == account then t.totalDebit else 0)
  }

  function Effects(transfers: map<Id, Transfer>, account: Id): Id -> int {
    (id: Id) => if id in transfers then Effect(transfers[id], account) else 0
  }

  // The transfers that are no reversals and have not been reversed.
  ghost function Live(transfers: map<Id, Transfer>): set<Id> {
    set id | id in transfers && transfers[id].kind != Reversal && !Reversed(transfers, id)
  }

  // Reversed transfers and their reversals leave no trace in a balance.
  ghost predicate LiveAgreeAt(db: Db, openings: Openings, a: Id)
    requires a in db.accounts && a in openings
  {
    db.accounts[a].balance == openings[a] + Sum(Live(db.transfers), Effects(db.transfers, a))
  }

  ghost predicate LiveAgree(db: Db, openings: Openings) {
    && db.accounts.Keys == openings.Keys
    && forall a :: a in db.accounts ==> LiveAgreeAt(db, openings, a)
  }

  function ReversalDebits(transfers: map<Id, Transfer>, account: Id): Id -> int {
    (id: Id) =>
      if id in transfers && transfers[id].kind == Reversal && transfers[id].source == account
      then transfers[id].totalDebit else 0
  }

  // Only reversals can take a balance below zero, and by no more than they debit.
  ghost predicate OverdraftBoundedAt(db: Db, a: Id)
    requires a in db.accounts
  {
    && InI64(db.accounts[a].balance)
    && db.accounts[a].balance >= -Sum(db.transfers.Keys, ReversalDebits(db.transfers, a))
  }

  ghost predicate OverdraftBounded(db: Db) {
    forall a :: a in db.accounts ==> OverdraftBoundedAt(db, a)
  }

  // The record of a created resource, accounts and transfers apart.
  ghost predicate Records(records: map<RecordKey, Record>, k: RecordKey, isAccount: bool, resource: Id) {
    && k in records && records[k].completion.Some?
    && (k.operation == AccountCreation <==> isAccount)
    && records[k].completion.value.resource == resource
  }

  ghost predicate RecordsComplete(records: map<RecordKey, Record>) {
    forall k :: k in records ==> records[k].completion.Some?
  }

  // Every record is complete, and records and created resources correspond one to one.
  ghost predicate RecordsSound(records: map<RecordKey, Record>, accounts: set<Id>, transfers: set<Id>) {
    && RecordsComplete(records)
    && (forall k, isAccount, id :: Records(records, k, isAccount, id) ==>
                                     id in (if isAccount then accounts else transfers))
    && (forall id :: id in accounts ==> exists k :: Records(records, k, true, id))
    && (forall id :: id in transfers ==> exists k :: Records(records, k, false, id))
    && (forall k, m, isAccount, id ::
          Records(records, k, isAccount, id) && Records(records, m, isAccount, id) ==> k == m)
  }

  ghost predicate Sound(db: Db, openings: Openings) {
    && TransfersSound(db) && SingleReversal(db.transfers) && EntriesSound(db.transfers, db.entries)
    && EntriesAgree(db, openings) && LiveAgree(db, openings) && OverdraftBounded(db)
    && RecordsSound(db.records, db.accounts.Keys, db.transfers.Keys)
  }

  // Accounts that appear are entered with the balance they are created with.
  function Opened(openings: Openings, db: Db): Openings {
    openings + map a | a in db.accounts && a !in openings :: db.accounts[a].balance
  }

  /* -------------------- what a committed movement guarantees -------------------- */

  ghost predicate Posting(db: Db, plan: Plan) {
    plan.MovePlan? &&
    var t := plan.transfer;
    && Fresh(db, plan) && Feasible(db, plan) && TransferSound(db, t)
    && plan.sourceBalance == db.accounts[t.source].balance - t.totalDebit
    && plan.destinationBalance == db.accounts[t.destination].balance + t.destinationAmount
    && InI64(plan.sourceBalance) && InI64(plan.destinationBalance)
    && (t.kind != Reversal ==> plan.sourceBalance >= 0)
    && (t.kind == Reversal ==> !Reversed(db.transfers, t.reverses.value))
    && plan.completion.resource == plan.id
  }

  lemma AmountsArePositive(quote: Option<Quote>, amount: int, sourceScale: Scale, destinationScale: Scale)
    requires 0 < amount <= I64_MAX
    requires AmountsOf(quote, amount, sourceScale, destinationScale).Ok?
    ensures var r := AmountsOf(quote, amount, sourceScale, destinationScale).value;
            && 0 < r.destinationAmount <= I64_MAX && 0 <= r.fee && r.totalDebit == amount + r.fee <= I64_MAX
            && (quote.None? ==> r.destinationAmount == amount && r.fee == 0)
  {
    if quote.Some? {
      var bps := quote.value.rule.item.feeBps;
      var rate := Fx.ParseRate(quote.value.rate.item.text).value;
      Fx.FeeExact(amount, bps);
      Fx.DestinationExact(amount, sourceScale, destinationScale, rate);
    }
  }

  lemma MovePosts(config: FxConfig.Config, db: Db, req: Request, k: Keyed)
    requires Classify(db.accounts, req) == Ok(k) && k.job.Move?
    requires Work(config, db, req, k.job).Ok? && Fresh(db, Work(config, db, req, k.job).value)
    ensures Posting(db, Work(config, db, req, k.job).value)
    ensures Work(config, db, req, k.job).value.transfer.kind != Reversal
  {
    var quote := Configure(config, k.job.parties, req.now).value;
    var s, d := db.accounts[k.job.source], db.accounts[k.job.destination];
    AmountsArePositive(quote, k.job.amount, s.scale, d.scale);
  }

  lemma UndoPosts(config: FxConfig.Config, db: Db, req: Request, k: Keyed)
    requires TransfersSound(db) && k.job.Undo?
    requires Work(config, db, req, k.job).Ok? && Fresh(db, Work(config, db, req, k.job).value)
    ensures Posting(db, Work(config, db, req, k.job).value)
  {
    var o := db.transfers[k.job.original];
    assert TransferSound(db, o);
    assert Undoes(Work(config, db, req, k.job).value.transfer, o);
  }

  /* -------------------- a committed movement keeps the invariants -------------------- */

  lemma MoveKeepsTransfers(db: Db, k: Keyed, plan: Plan)
    requires TransfersSound(db) && Posting(db, plan)
    ensures TransfersSound(Commit(db, k, plan))
  {
    var after := Commit(db, k, plan);
    forall id | id in after.transfers ensures TransferSound(after, after.transfers[id]) {
      if id != plan.id {
        assert TransferSound(db, db.transfers[id]);
      }
    }
  }

  lemma MoveKeepsSingleReversal(db: Db, k: Keyed, plan: Plan)
    requires SingleReversal(db.transfers) && Posting(db, plan)
    ensures SingleReversal(Commit(db, k, plan).transfers)
  {
  }

  lemma PostingKeepsEntries(
      transfers: map<Id, Transfer>, entries: map<Id, Entry>, id: Id, t: Transfer, debit: Id, credit: Id)
    requires EntriesSound(transfers, entries)
    requires id !in transfers && debit !in entries && credit !in entries && debit != credit
    ensures EntriesSound(transfers[id := t], entries[debit := DebitEntry(id, t)][credit := CreditEntry(id, t)])
  {
    var transfers', entries' := transfers[id := t], entries[debit := DebitEntry(id, t)][credit := CreditEntry(id, t)];
    forall x | x in transfers' ensures exists d, c :: Posted(transfers', entries', x, d, c) {
      if x == id {
        assert Posted(transfers', entries', x, debit, credit);
      } else {
        var d, c :| Posted(transfers, entries, x, d, c);
        assert Posted(transfers', entries', x, d, c);
      }
    }
  }

  lemma MoveChangesAccount(db: Db, k: Keyed, plan: Plan, a: Id)
    requires Posting(db, plan) && a in db.accounts
    ensures var after, t := Commit(db, k, plan), plan.transfer;
            && after.accounts.Keys == db.accounts.Keys
            && after.accounts[a].balance == db.accounts[a].balance + Effect(t, a)
            && after.accounts[a].version ==
               db.accounts[a].version + (if a == t.source || a == t.destination then 1 else 0)
            && (a == t.source ==> after.accounts[a].balance == plan.sourceBalance)
            && (a == t.destination ==> after.accounts[a].balance == plan.destinationBalance)
  {
  }

  lemma SumTwoMore(s: set<Id>, f: Id -> int, g: Id -> int, x: Id, y: Id)
    requires x !in s && y !in s && x != y
    requires forall e :: e in s ==> f(e) == g(e)
    ensures Sum(s + {x, y}, g) == Sum(s, f) + g(x) + g(y)
  {
    SumInsert(s, g, x);
    var more := s + {x};
    SumInsert(more, g, y);
    assert more + {y} == s + {x, y};
    forall e | e in s ensures f(e) == g(e) {
    }
    SumCongruence(s, f, g);
  }

  // The entry sums of one account after the two entries of a transfer.
  lemma EntrySumsAfter(entries: map<Id, Entry>, id: Id, t: Transfer, debit: Id, credit: Id, a: Id)
    requires debit !in entries && credit !in entries && debit != credit && t.source != t.destination
    ensures var after := entries[debit := DebitEntry(id, t)][credit := CreditEntry(id, t)];
            && Sum(after.Keys, SignedEntries(after, a)) == Sum(entries.Keys, SignedEntries(entries, a)) + Effect(t, a)
            && Sum(after.Keys, EntryCounts(after, a)) ==
               Sum(entries.Keys, EntryCounts(entries, a)) + (if a == t.source || a == t.destination then 1 else 0)
  {
    var after := entries[debit := DebitEntry(id, t)][credit := CreditEntry(id, t)];
    assert after.Keys == entries.Keys + {debit, credit};
    SumTwoMore(entries.Keys, SignedEntries(entries, a), SignedEntries(after, a), debit, credit);
    SumTwoMore(entries.Keys, EntryCounts(entries, a), EntryCounts(after, a), debit, credit);
  }

  lemma MoveKeepsEntrySum(db: Db, openings: Openings, k: Keyed, plan: Plan, a: Id)
    requires Posting(db, plan) && a in db.accounts && a in openings && EntriesAgreeAt(db, openings, a)
    ensures a in Commit(db, k, plan).accounts && EntriesAgreeAt(Commit(db, k, plan), openings, a)
  {
    MoveChangesAccount(db, k, plan, a);
    EntrySumsAfter(db.entries, plan.id, plan.transfer, plan.debitId, plan.creditId, a);
  }

  lemma MoveKeepsEntrySums(db: Db, openings: Openings, k: Keyed, plan: Plan)
    requires EntriesAgree(db, openings) && Posting(db, plan)
    ensures EntriesAgree(Commit(db, k, plan), openings)
  {
    forall a | a in Commit(db, k, plan).accounts ensures EntriesAgreeAt(Commit(db, k, plan), openings, a) {
      MoveKeepsEntrySum(db, openings, k, plan, a);
    }
  }

  // Nothing can reverse a transfer before it exists.
  lemma NewIsUnreversed(db: Db, plan: Plan)
    requires TransfersSound(db) && Posting(db, plan)
    ensures !Reversed(db.transfers, plan.id)
  {
    forall r | r in db.transfers ensures db.transfers[r].reverses != Some(plan.id) {
      assert TransferSound(db, db.transfers[r]);
    }
  }

  lemma LiveAfterTransfer(db: Db, plan: Plan)
    requires TransfersSound(db) && Posting(db, plan) && plan.transfer.kind != Reversal
    ensures Live(db.transfers[plan.id := plan.transfer]) == Live(db.transfers) + {plan.id}
    ensures plan.id !in Live(db.transfers)
  {
    var after := db.transfers[plan.id := plan.transfer];
    NewIsUnreversed(db, plan);
    forall id: Id ensures Reversed(after, id) <==> Reversed(db.transfers, id) {
      if Reversed(db.transfers, id) {
        var r :| r in db.transfers && db.transfers[r].reverses == Some(id);
        assert r in after && after[r].reverses == Some(id);
      }
    }
  }

  lemma LiveAfterReversal(db: Db, plan: Plan)
    requires TransfersSound(db) && Posting(db, plan) && plan.transfer.kind == Reversal
    ensures Live(db.transfers[plan.id := plan.transfer]) == Live(db.transfers) - {plan.transfer.reverses.value}
    ensures plan.transfer.reverses.value in Live(db.transfers)
  {
    var original := plan.transfer.reverses.value;
    var after := db.transfers[plan.id := plan.transfer];
    forall id: Id ensures Reversed(after, id) <==> Reversed(db.transfers, id) || id == original {
      if Reversed(db.transfers, id) {
        var r :| r in db.transfers && db.transfers[r].reverses == Some(id);
        assert r in after && after[r].reverses == Some(id);
      }
      if id == original {
        assert plan.id in after && after[plan.id].reverses == Some(id);
      }
    }
  }

  lemma LiveSumAfter(db: Db, plan: Plan, a: Id)
    requires TransfersSound(db) && Posting(db, plan)
    ensures var after := db.transfers[plan.id := plan.transfer];
            Sum(Live(after), Effects(after, a)) == Sum(Live(db.transfers), Effects(db.transfers, a)) + Effect(plan.transfer, a)
  {
    var after := db.transfers[plan.id := plan.transfer];
    var f, g := Effects(db.transfers, a), Effects(after, a);
    SumCongruence(Live(db.transfers), f, g);
    if plan.transfer.kind == Reversal {
      var original := plan.transfer.reverses.value;
      LiveAfterReversal(db, plan);
      SumRemove(Live(db.transfers), g, original);
      assert Effect(plan.transfer, a) == -Effect(db.transfers[original], a);
    } else {
      LiveAfterTransfer(db, plan);
      SumInsert(Live(db.transfers), g, plan.id);
    }
  }

  lemma MoveKeepsLiveSum(db: Db, openings: Openings, k: Keyed, plan: Plan, a: Id)
    requires Posting(db, plan) && a in db.accounts && TransfersSound(db) && a in openings && LiveAgreeAt(db, openings, a)
    ensures a in Commit(db, k, plan).accounts && LiveAgreeAt(Commit(db, k, plan), openings, a)
  {
    MoveChangesAccount(db, k, plan, a);
    LiveSumAfter(db, plan, a);
  }

  lemma MoveKeepsLiveSums(db: Db, openings: Openings, k: Keyed, plan: Plan)
    requires TransfersSound(db) && LiveAgree(db, openings) && Posting(db, plan)
    ensures LiveAgree(Commit(db, k, plan), openings)
  {
    forall a | a in Commit(db, k, plan).accounts ensures LiveAgreeAt(Commit(db, k, plan), openings, a) {
      MoveKeepsLiveSum(db, openings, k, plan, a);
    }
  }

  lemma ReversalDebitsAfter(db: Db, plan: Plan, a: Id)
    requires TransfersSound(db) && plan.MovePlan? && plan.id !in db.transfers
    ensures var after := db.transfers[plan.id := plan.transfer];
            && Sum(db.transfers.Keys, ReversalDebits(db.transfers, a)) >= 0
            && Sum(after.Keys, ReversalDebits(after, a)) ==
               Sum(db.transfers.Keys, ReversalDebits(db.transfers, a)) + ReversalDebits(after, a)(plan.id)
  {
    var after := db.transfers[plan.id := plan.transfer];
    var f, g := ReversalDebits(db.transfers, a), ReversalDebits(after, a);
    assert after.Keys == db.transfers.Keys + {plan.id};
    SumCongruence(db.transfers.Keys, f, g);
    SumInsert(db.transfers.Keys, g, plan.id);
    forall id | id in db.transfers.Keys ensures f(id) >= 0 {
      assert TransferSound(db, db.transfers[id]);
    }
    SumNonNegative(db.transfers.Keys, f);
  }

  lemma MoveKeepsOverdraftAt(db: Db, k: Keyed, plan: Plan, a: Id)
    requires Posting(db, plan) && a in db.accounts && TransfersSound(db) && OverdraftBoundedAt(db, a)
    ensures a in Commit(db, k, plan).accounts && OverdraftBoundedAt(Commit(db, k, plan), a)
  {
    MoveChangesAccount(db, k, plan, a);
    ReversalDebitsAfter(db, plan, a);
  }

  lemma MoveKeepsOverdraft(db: Db, k: Keyed, plan: Plan)
    requires TransfersSound(db) && OverdraftBounded(db) && Posting(db, plan)
    ensures OverdraftBounded(Commit(db, k, plan))
  {
    forall a | a in Commit(db, k, plan).accounts ensures OverdraftBoundedAt(Commit(db, k, plan), a) {
      MoveKeepsOverdraftAt(db, k, plan, a);
    }
  }

  // One more record for one more resource.
  lemma RecordAdded(
      records: map<RecordKey, Record>, accounts: set<Id>, transfers: set<Id>,
      key: RecordKey, record: Record, isAccount: bool, id: Id)
    requires RecordsSound(records, accounts, transfers)
    requires key !in records && Records(records[key := record], key, isAccount, id)
    requires id !in (if isAccount then accounts else transfers)
    ensures RecordsSound(records[key := record], if isAccount then accounts + {id} else accounts,
                         if isAccount then transfers else transfers + {id})
  {
    var records' := records[key := record];
    assert forall m, i, x :: m != key ==> (Records(records', m, i, x) <==> Records(records, m, i, x));
    forall x | x in accounts ensures exists m :: Records(records', m, true, x) {
      var m :| Records(records, m, true, x);
      assert Records(records', m, true, x);
    }
    forall x | x in transfers ensures exists m :: Records(records', m, false, x) {
      var m :| Records(records, m, false, x);
      assert Records(records', m, false, x);
    }
  }

  lemma MoveKeepsRecords(db: Db, k: Keyed, plan: Plan)
    requires RecordsSound(db.records, db.accounts.Keys, db.transfers.Keys) && Posting(db, plan)
    requires k.key !in db.records && k.key.operation != AccountCreation
    ensures var after := Commit(db, k, plan);
            RecordsSound(after.records, after.accounts.Keys, after.transfers.Keys)
  {
    var after := Commit(db, k, plan);
    RecordAdded(db.records, db.accounts.Keys, db.transfers.Keys, k.key, Completed(k, plan), false, plan.id);
    assert after.accounts.Keys == db.accounts.Keys;
    assert after.transfers.Keys == db.transfers.Keys + {plan.id};
  }

  lemma MoveKeepsSound(db: Db, openings: Openings, k: Keyed, plan: Plan)
    requires Sound(db, openings) && Posting(db, plan)
    requires k.key !in db.records && k.key.operation != AccountCreation
    ensures Sound(Commit(db, k, plan), openings)
  {
    MoveKeepsTransfers(db, k, plan);
    MoveKeepsSingleReversal(db, k, plan);
    PostingKeepsEntries(db.transfers, db.entries, plan.id, plan.transfer, plan.debitId, plan.creditId);
    MoveKeepsEntrySums(db, openings, k, plan);
    MoveKeepsLiveSums(db, openings, k, plan);
    MoveKeepsOverdraft(db, k, plan);
    MoveKeepsRecords(db, k, plan);
  }

  /* -------------------- a created account keeps the invariants -------------------- */

  ghost predicate Opening(db: Db, k: Keyed, plan: Plan) {
    && plan.OpenPlan? && Fresh(db, plan)
    && 0 <= plan.account.balance <= I64_MAX && plan.account.version == 0
    && plan.completion.resource == plan.id
    && k.key !in db.records && k.key.operation == AccountCreation
  }

  lemma EntryAccountsExist(db: Db, e: Id)
    requires TransfersSound(db) && EntriesSound(db.transfers, db.entries) && e in db.entries
    ensures db.entries[e].account in db.accounts
  {
    var id := db.entries[e].transfer;
    var debit, credit :| Posted(db.transfers, db.entries, id, debit, credit);
    assert TransferSound(db, db.transfers[id]);
  }

  // Nothing was booked on an account before it exists.
  lemma NothingBooked(db: Db, a: Id)
    requires TransfersSound(db) && EntriesSound(db.transfers, db.entries) && a !in db.accounts
    ensures Sum(db.entries.Keys, SignedEntries(db.entries, a)) == 0
    ensures Sum(db.entries.Keys, EntryCounts(db.entries, a)) == 0
    ensures Sum(Live(db.transfers), Effects(db.transfers, a)) == 0
    ensures Sum(db.transfers.Keys, ReversalDebits(db.transfers, a)) == 0
  {
    forall e | e in db.entries ensures db.entries[e].account != a {
      EntryAccountsExist(db, e);
    }
    forall id | id in db.transfers ensures db.transfers[id].source != a && db.transfers[id].destination != a {
      assert TransferSound(db, db.transfers[id]);
    }
    var f, g := SignedEntries(db.entries, a), EntryCounts(db.entries, a);
    forall e | e in db.entries.Keys ensures f(e) == 0 && g(e) == 0 {
    }
    SumZero(db.entries.Keys, f);
    SumZero(db.entries.Keys, g);
    SumZero(Live(db.transfers), Effects(db.transfers, a));
    SumZero(db.transfers.Keys, ReversalDebits(db.transfers, a));
  }

  lemma OpenKeepsRecords(db: Db, k: Keyed, plan: Plan)
    requires RecordsSound(db.records, db.accounts.Keys, db.transfers.Keys) && Opening(db, k, plan)
    ensures var after := Commit(db, k, plan);
            RecordsSound(after.records, after.accounts.Keys, after.transfers.Keys)
  {
    RecordAdded(db.records, db.accounts.Keys, db.transfers.Keys, k.key, Completed(k, plan), true, plan.id);
    assert Commit(db, k, plan).accounts.Keys == db.accounts.Keys + {plan.id};
  }

  // Transfers stay sound when nothing happens to them or to the currencies of accounts.
  lemma TransfersUntouched(db: Db, after: Db)
    requires TransfersSound(db) && after.transfers == db.transfers
    requires forall a :: a in db.accounts ==> a in after.accounts && after.accounts[a].currency == db.accounts[a].currency
    ensures TransfersSound(after)
  {
    forall id | id in after.transfers ensures TransferSound(after, after.transfers[id]) {
      assert TransferSound(db, db.transfers[id]);
    }
  }

  lemma BalanceUntouched(db: Db, openings: Openings, after: Db, openings': Openings, a: Id)
    requires Sound(db, openings) && a in db.accounts && a in after.accounts
    requires after.transfers == db.transfers && after.entries == db.entries
    requires after.accounts[a].balance == db.accounts[a].balance && after.accounts[a].version == db.accounts[a].version
    requires a in openings && a in openings' && openings'[a] == openings[a]
    ensures EntriesAgreeAt(after, openings', a) && LiveAgreeAt(after, openings', a) && OverdraftBoundedAt(after, a)
  {
    assert EntriesAgreeAt(db, openings, a) && LiveAgreeAt(db, openings, a) && OverdraftBoundedAt(db, a);
  }

  lemma OpenKeepsSums(db: Db, openings: Openings, k: Keyed, plan: Plan)
    requires Sound(db, openings) && Opening(db, k, plan)
    ensures var after, openings' := Commit(db, k, plan), openings[plan.id := plan.account.balance];
            EntriesAgree(after, openings') && LiveAgree(after, openings') && OverdraftBounded(after)
  {
    var after, openings' := Commit(db, k, plan), openings[plan.id := plan.account.balance];
    NothingBooked(db, plan.id);
    forall a | a in after.accounts
      ensures EntriesAgreeAt(after, openings', a) && LiveAgreeAt(after, openings', a) && OverdraftBoundedAt(after, a)
    {
      if a != plan.id {
        BalanceUntouched(db, openings, after, openings', a);
      }
    }
  }

  lemma OpenKeepsSound(db: Db, openings: Openings, k: Keyed, plan: Plan)
    requires Sound(db, openings) && Opening(db, k, plan)
    ensures Sound(Commit(db, k, plan), Opened(openings, Commit(db, k, plan)))
  {
    var after := Commit(db, k, plan);
    assert Opened(openings, after) == openings[plan.id := plan.account.balance];
    TransfersUntouched(db, after);
    OpenKeepsSums(db, openings, k, plan);
    OpenKeepsRecords(db, k, plan);
  }

  lemma SumsUntouched(db: Db, openings: Openings, after: Db)
    requires Sound(db, openings)
    requires after.transfers == db.transfers && after.entries == db.entries && after.accounts.Keys == db.accounts.Keys
    requires forall a :: a in db.accounts ==>
               after.accounts[a].balance == db.accounts[a].balance && after.accounts[a].version == db.accounts[a].version
    ensures EntriesAgree(after, openings) && LiveAgree(after, openings) && OverdraftBounded(after)
  {
    forall a | a in after.accounts
      ensures EntriesAgreeAt(after, openings, a) && LiveAgreeAt(after, openings, a) && OverdraftBoundedAt(after, a)
    {
      BalanceUntouched(db, openings, after, openings, a);
    }
  }

  lemma RefreshKeepsSound(db: Db, openings: Openings, after: Db)
    requires Sound(db, openings)
    requires after.transfers == db.transfers && after.entries == db.entries && after.records == db.records
    requires after.accounts.Keys == db.accounts.Keys
    requires forall a :: a in db.accounts ==> after.accounts[a] == db.accounts[a].(active := after.accounts[a].active)
    ensures Sound(after, openings)
  {
    TransfersUntouched(db, after);
    SumsUntouched(db, openings, after);
  }

  lemma StatusKeepsSound(db: Db, openings: Openings, account: Id, active: bool)
    requires Sound(db, openings)
    ensures Sound(WithStatus(db, account, active), openings)
  {
    StatusShape(db, account, active);
    RefreshKeepsSound(db, openings, WithStatus(db, account, active));
  }

  lemma StatusShape(db: Db, account: Id, active: bool)
    ensures var after := WithStatus(db, account, active);
            && after.transfers == db.transfers && after.entries == db.entries && after.records == db.records
            && after.accounts.Keys == db.accounts.Keys
            && (forall a :: a in db.accounts ==> after.accounts[a] == db.accounts[a].(active := after.accounts[a].active))
            && (forall a :: a in db.accounts && a != account ==> after.accounts[a] == db.accounts[a])
            && (account in db.accounts ==> after.accounts[account].active == active)
  {
    var after := WithStatus(db, account, active);
    if account in db.accounts {
      assert after.accounts.Keys == db.accounts.Keys;
    }
  }

  /* -------------------- every run keeps the invariants -------------------- */

  // A request that changes the tables commits exactly the plan that `Work` returned.
  lemma ApplyCommits(config: FxConfig.Config, db: Db, req: Request)
    requires Apply(config, db, req).db != db
    ensures Classify(db.accounts, req).Ok?
    ensures var k := Classify(db.accounts, req).value;
            && k.key !in db.records
            && Work(config, db, req, k.job).Ok?
            && var plan := Work(config, db, req, k.job).value;
            && Fresh(db, plan) && Feasible(db, plan)
            && Apply(config, db, req) ==
               Outcome(Commit(db, k, plan), Success(plan.completion.status, plan.completion.body))
  {
  }

  lemma ClassifyOperation(db: Db, req: Request)
    requires Classify(db.accounts, req).Ok?
    ensures var k := Classify(db.accounts, req).value;
            && (k.key.operation == AccountCreation <==> k.job.Open?)
            && (k.job.Open? ==> 0 <= k.job.balance <= I64_MAX)
            && k.key.client == req.client && k.key.key == req.key
  {
  }

  lemma CommitKeepsSound(config: FxConfig.Config, db: Db, openings: Openings, req: Request, k: Keyed, plan: Plan)
    requires Sound(db, openings)
    requires Classify(db.accounts, req) == Ok(k) && k.key !in db.records
    requires Work(config, db, req, k.job) == Ok(plan) && Fresh(db, plan) && Feasible(db, plan)
    ensures Sound(Commit(db, k, plan), Opened(openings, Commit(db, k, plan)))
  {
    ClassifyOperation(db, req);
    if k.job.Open? {
      OpenKeepsSound(db, openings, k, plan);
    } else {
      if k.job.Move? {
        MovePosts(config, db, req, k);
      } else {
        UndoPosts(config, db, req, k);
      }
      MoveKeepsSound(db, openings, k, plan);
      OpenedNothing(openings, Commit(db, k, plan));
    }
  }

  lemma OpenedNothing(openings: Openings, db: Db)
    requires db.accounts.Keys <= openings.Keys
    ensures Opened(openings, db) == openings
  {
  }

  lemma ApplyKeepsSound(config: FxConfig.Config, db: Db, openings: Openings, req: Request)
    requires Sound(db, openings)
    ensures Sound(Apply(config, db, req).db, Opened(openings, Apply(config, db, req).db))
  {
    if Apply(config, db, req).db == db {
      OpenedNothing(openings, db);
    } else {
      ApplyCommits(config, db, req);
      var k := Classify(db.accounts, req).value;
      CommitKeepsSound(config, db, openings, req, k, Work(config, db, req, k.job).value);
    }
  }

  ghost function OpeningsAfter(config: FxConfig.Config, db: Db, openings: Openings, events: seq<Event>): Openings {
    if events == [] then openings
    else
      var n := |events| - 1;
      Opened(OpeningsAfter(config, db, openings, events[..n]), Run(config, db, events))
  }

  // Every run of requests and status changes keeps the ledger sound.
  lemma {:induction false} RunKeepsSound(config: FxConfig.Config, db: Db, openings: Openings, events: seq<Event>)
    requires Sound(db, openings)
    ensures Sound(Run(config, db, events), OpeningsAfter(config, db, openings, events))
  {
    if events != [] {
      var n := |events| - 1;
      RunKeepsSound(config, db, openings, events[..n]);
      var before, known := Run(config, db, events[..n]), OpeningsAfter(config, db, openings, events[..n]);
      match events[n] {
        case Serve(req) =>
          ApplyKeepsSound(config, before, known, req);
        case SetStatus(account, active) =>
          StatusKeepsSound(before, known, account, active);
          assert Opened(known, WithStatus(before, account, active)) == known;
      }
    }
  }

  lemma EmptyIsSound()
    ensures Sound(EMPTY, map[])
  {
  }

  // From empty tables every reachable state is sound.
  lemma ReachableIsSound(config: FxConfig.Config, events: seq<Event>)
    ensures Sound(Run(config, EMPTY, events), OpeningsAfter(config, EMPTY, map[], events))
  {
    EmptyIsSound();
    RunKeepsSound(config, EMPTY, map[], events);
  }
}
