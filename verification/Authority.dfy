/** Who may change what: no request takes money out of another client's account (src/api/transfers.rs,
    src/api/reversals.rs), and every movement is on the books of both accounts under its terms. */
module Authority {
  import opened Common
  import opened Ledger
  import opened LedgerInvariants
  import opened ExactlyOnce
  import opened Outcomes
  import opened Replies
  import FxConfig

  // The client of a transfer owns its active source and its destination is active; the client of a
  // reversal owns the account that was credited.
  ghost predicate Authorised(db: Db, req: Request) {
    match req.call
    case CreateAccount(_, _) => true
    case CreateTransfer(_, _, _) => Usable(db, req)
    case ReverseTransfer(_) => Reversible(db, req)
  }

  lemma MoveIsAuthorised(req: Request, job: Job, quote: Option<Quote>, source: Account, destination: Account)
    requires job.Move? && PlanMove(req, job, quote, Some(source), Some(destination)).Ok?
    ensures source.owner == req.client && source.active && destination.active
  {
  }

  // A request that changes anything was authorised.
  lemma ChangesAreAuthorised(config: FxConfig.Config, db: Db, req: Request)
    requires Apply(config, db, req).db != db
    ensures Authorised(db, req)
  {
    if req.call.CreateTransfer? {
      var k, quote, _ := MoveCommitted(config, db, req);
      MoveIsAuthorised(req, k.job, quote, db.accounts[req.call.source], db.accounts[req.call.destination]);
    } else if req.call.ReverseTransfer? {
      ApplyCommits(config, db, req);
      UndoRefused(config, db, req);
      UndoIsUndo(db, req);
    }
  }

  lemma UndoIsUndo(db: Db, req: Request)
    requires req.call.ReverseTransfer?
    ensures Classify(db.accounts, req).Ok? && Classify(db.accounts, req).value.job == Undo(req.call.original)
  {
  }

  lemma OpeningLeavesOthers(config: FxConfig.Config, db: Db, req: Request, a: Id)
    requires req.call.CreateAccount? && Apply(config, db, req).db != db && a in db.accounts
    ensures a in Apply(config, db, req).db.accounts && Apply(config, db, req).db.accounts[a] == db.accounts[a]
  {
    ApplyCommits(config, db, req);
  }

  lemma CommittedPosts(config: FxConfig.Config, db: Db, req: Request) returns (k: Keyed, plan: Plan)
    requires TransfersSound(db) && !req.call.CreateAccount? && Apply(config, db, req).db != db
    ensures Posting(db, plan) && plan.id == req.id && Apply(config, db, req).db == Commit(db, k, plan)
  {
    ApplyCommits(config, db, req);
    k := Classify(db.accounts, req).value;
    plan := Work(config, db, req, k.job).value;
    PlanIsOwn(config, db, req, k);
    if req.call.CreateTransfer? {
      MovePosts(config, db, req, k);
    } else {
      UndoIsUndo(db, req);
      UndoPosts(config, db, req, k);
    }
  }

  // A movement takes from no account but its source.
  lemma OnlySourceFalls(config: FxConfig.Config, db: Db, req: Request, a: Id)
    requires TransfersSound(db) && !req.call.CreateAccount? && Apply(config, db, req).db != db && a in db.accounts
    ensures var after := Apply(config, db, req).db;
            && req.id in after.transfers && a in after.accounts
            && (a != after.transfers[req.id].source ==> after.accounts[a].balance >= db.accounts[a].balance)
  {
    var k, plan := CommittedPosts(config, db, req);
    MoveChangesAccount(db, k, plan, a);
  }

  // The account a movement debits is the client's own.
  lemma SourceIsOwn(config: FxConfig.Config, db: Db, req: Request)
    requires TransfersSound(db) && !req.call.CreateAccount? && Apply(config, db, req).db != db
    ensures var after := Apply(config, db, req).db;
            && req.id in after.transfers && after.transfers[req.id].source in db.accounts
            && db.accounts[after.transfers[req.id].source].owner == req.client
            && db.accounts[after.transfers[req.id].source].active
            && after.transfers[req.id].initiatedBy == req.client
  {
    ChangesAreAuthorised(config, db, req);
    if req.call.CreateTransfer? {
      TransferReply(config, db, req);
    } else {
      ReversalReply(config, db, req);
    }
  }

  // Only the client of a request can be left with less in an account.
  lemma OnlyOwnersSpend(config: FxConfig.Config, db: Db, req: Request, a: Id)
    requires TransfersSound(db) && a in db.accounts
    ensures a in Apply(config, db, req).db.accounts
    ensures Apply(config, db, req).db.accounts[a].balance < db.accounts[a].balance ==>
              db.accounts[a].owner == req.client && db.accounts[a].active
  {
    if Apply(config, db, req).db != db {
      if req.call.CreateAccount? {
        OpeningLeavesOthers(config, db, req, a);
      } else {
        OnlySourceFalls(config, db, req, a);
        SourceIsOwn(config, db, req);
      }
    }
  }

  /* -------------------- the books -------------------- */

  // The owner of the account a transfer debits initiated it.
  ghost predicate InitiatedByOwner(db: Db, t: Transfer) {
    t.source in db.accounts && db.accounts[t.source].owner == t.initiatedBy
  }

  ghost predicate Initiated(db: Db) {
    forall id :: id in db.transfers ==> InitiatedByOwner(db, db.transfers[id])
  }

  lemma ServeKeepsInitiated(config: FxConfig.Config, db: Db, req: Request)
    requires TransfersSound(db) && Initiated(db)
    ensures Initiated(Apply(config, db, req).db)
  {
    var after := Apply(config, db, req).db;
    if after != db {
      NextGrows(config, db, Serve(req));
      AddsOnlyItself(config, db, req);
      if !req.call.CreateAccount? {
        SourceIsOwn(config, db, req);
      }
    }
  }

  lemma AddsOnlyItself(config: FxConfig.Config, db: Db, req: Request)
    requires Apply(config, db, req).db != db
    ensures var after := Apply(config, db, req).db;
            after.transfers.Keys == db.transfers.Keys + (if req.call.CreateAccount? then {} else {req.id})
  {
    ApplyCommits(config, db, req);
    var k := Classify(db.accounts, req).value;
    PlanIsOwn(config, db, req, k);
  }

  lemma PlanIsOwn(config: FxConfig.Config, db: Db, req: Request, k: Keyed)
    requires Classify(db.accounts, req) == Ok(k) && Work(config, db, req, k.job).Ok?
    ensures var plan := Work(config, db, req, k.job).value;
            plan.id == req.id && (plan.OpenPlan? <==> req.call.CreateAccount?)
  {
  }

  lemma {:induction false} RunKeepsInitiated(config: FxConfig.Config, db: Db, openings: Openings, events: seq<Event>)
    requires Sound(db, openings) && Initiated(db)
    ensures Initiated(Run(config, db, events))
  {
    if events != [] {
      var n := |events| - 1;
      RunKeepsInitiated(config, db, openings, events[..n]);
      RunKeepsSound(config, db, openings, events[..n]);
      var before := Run(config, db, events[..n]);
      match events[n] {
        case Serve(req) => ServeKeepsInitiated(config, before, req);
        case SetStatus(account, active) => StatusShape(before, account, active);
      }
    }
  }

  // The two entries of a transfer, field by field. Only exchanges have their amount split into
  // principal and fee.
  ghost predicate BooksOf(debit: Entry, credit: Entry, id: Id, t: Transfer) {
    && debit.transfer == credit.transfer == id && debit.kind == credit.kind == t.kind
    && debit.createdAt == credit.createdAt == t.createdAt
    && debit.direction == Debit && credit.direction == Credit
    && debit.account == credit.counterparty == t.source && credit.account == debit.counterparty == t.destination
    && debit.amount == t.totalDebit && debit.currency == t.sourceCurrency
    && credit.amount == t.destinationAmount && credit.currency == t.destinationCurrency
    && debit.principal == (if t.kind == Exchange then Some(t.sourceAmount) else None)
    && debit.fee == (if t.kind == Exchange then Some(t.fee) else None)
    && credit.principal == (if t.kind == Exchange then Some(t.destinationAmount) else None) && credit.fee == None
  }

  ghost predicate OnTheBooks(db: Db, id: Id, debit: Id, credit: Id) {
    && id in db.transfers && debit in db.entries && credit in db.entries && debit != credit
    && BooksOf(db.entries[debit], db.entries[credit], id, db.transfers[id])
    && forall e :: e in db.entries && db.entries[e].transfer == id ==> e == debit || e == credit
  }

  // Every transfer is on the books once on either side, and every entry belongs to such a transfer
  // and is in the currency of its account.
  lemma EveryTransferIsBooked(db: Db)
    requires TransfersSound(db) && EntriesSound(db.transfers, db.entries)
    ensures forall id :: id in db.transfers ==> exists debit, credit :: OnTheBooks(db, id, debit, credit)
    ensures forall e :: e in db.entries ==>
              db.entries[e].account in db.accounts && db.entries[e].currency == db.accounts[db.entries[e].account].currency
  {
    forall id | id in db.transfers ensures exists debit, credit :: OnTheBooks(db, id, debit, credit) {
      TransferIsBooked(db, id);
    }
    forall e | e in db.entries
      ensures db.entries[e].account in db.accounts && db.entries[e].currency == db.accounts[db.entries[e].account].currency
    {
      EntryHasCurrency(db, e);
    }
  }

  lemma TransferIsBooked(db: Db, id: Id)
    requires EntriesSound(db.transfers, db.entries) && id in db.transfers
    ensures exists debit, credit :: OnTheBooks(db, id, debit, credit)
  {
    var debit, credit :| Posted(db.transfers, db.entries, id, debit, credit);
    assert OnTheBooks(db, id, debit, credit);
  }

  lemma EntryHasCurrency(db: Db, e: Id)
    requires TransfersSound(db) && EntriesSound(db.transfers, db.entries) && e in db.entries
    ensures db.entries[e].account in db.accounts && db.entries[e].currency == db.accounts[db.entries[e].account].currency
  {
    var id := db.entries[e].transfer;
    TransferIsBooked(db, id);
    var debit, credit :| OnTheBooks(db, id, debit, credit);
    assert TransferSound(db, db.transfers[id]);
  }
}
