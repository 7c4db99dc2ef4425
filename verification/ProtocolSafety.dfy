/** Every interleaving is serializable: the committed tables and every reply are those of whole
    requests run one at a time, each at the step that decides it. */
module ProtocolSafety {
  import opened Common
  import opened Ledger
  import opened LedgerInvariants
  import opened ExactlyOnce
  import opened Protocol
  import FxConfig

  /* -------------------- what a transaction knows -------------------- */

  // The own rows of a transaction that has reserved its key and written nothing else.
  function ReservedOwn(k: Keyed): Db {
    EMPTY.(records := map[k.key := Record(k.fingerprint, None)])
  }

  ghost predicate Owned(db: Db, req: Request, k: Keyed, own: Db) {
    Classify(db.accounts, req) == Ok(k) && k.key !in db.records && own == ReservedOwn(k)
  }

  ghost predicate OriginalRead(db: Db, k: Keyed, t: Transfer) {
    k.job.Undo? && k.job.original in db.transfers && db.transfers[k.job.original] == t
  }

  ghost predicate OriginalAllowed(db: Db, req: Request, k: Keyed, t: Transfer) {
    && OriginalRead(db, k, t) && t.kind != Reversal
    && t.destination in db.accounts && db.accounts[t.destination].owner == req.client
  }

  ghost predicate BasisKnown(config: FxConfig.Config, db: Db, req: Request, k: Keyed, basis: Basis) {
    match basis
    case ForMove(quote) => k.job.Move? && Configure(config, k.job.parties, req.now) == Ok(quote)
    case ForUndo(t) => OriginalAllowed(db, req, k, t) && !Reversed(db.transfers, k.job.original)
  }

  ghost predicate AccountKnown(db: Db, id: Id, row: Option<Account>) {
    id in db.accounts && row == Some(db.accounts[id])
  }

  ghost predicate Distinct(db: Db, k: Keyed, basis: Basis) {
    && SourceOf(k, basis) != DestinationOf(k, basis)
    && SourceOf(k, basis) in db.accounts && DestinationOf(k, basis) in db.accounts
  }

  // The own rows after the first n statements of a plan.
  function WrittenAccounts(db: Db, plan: Plan, n: nat): map<Id, Account>
    requires Feasible(db, plan)
  {
    match plan
    case OpenPlan(id, account, _) => if n >= 1 then map[id := account] else map[]
    case MovePlan(_, t, sourceBalance, destinationBalance, _, _, _) =>
      var source := map[t.source := Updated(db.accounts[t.source], sourceBalance)];
      if n < 2 then map[]
      else if n == 2 then source
      else source[t.destination := Updated(db.accounts[t.destination], destinationBalance)]
  }

  function WrittenTransfers(plan: Plan, n: nat): map<Id, Transfer> {
    if plan.MovePlan? && n >= 1 then map[plan.id := plan.transfer] else map[]
  }

  function WrittenEntries(plan: Plan, n: nat): map<Id, Entry> {
    if plan.OpenPlan? || n < 4 then map[]
    else
      var debit := map[plan.debitId := DebitEntry(plan.id, plan.transfer)];
      if n == 4 then debit else debit[plan.creditId := CreditEntry(plan.id, plan.transfer)]
  }

  function WrittenRecords(k: Keyed, plan: Plan, n: nat): map<RecordKey, Record> {
    map[k.key := if n >= Statements(plan) then Completed(k, plan) else Record(k.fingerprint, None)]
  }

  function Written(db: Db, k: Keyed, plan: Plan, n: nat): Db
    requires Feasible(db, plan)
  {
    Db(WrittenAccounts(db, plan, n), WrittenTransfers(plan, n), WrittenEntries(plan, n), WrittenRecords(k, plan, n))
  }

  ghost predicate Writing(config: FxConfig.Config, db: Db, req: Request, k: Keyed, plan: Plan, n: nat, own: Db) {
    && Classify(db.accounts, req) == Ok(k) && k.key !in db.records
    && Work(config, db, req, k.job) == Ok(plan) && Feasible(db, plan)
    && (plan.MovePlan? ==> plan.transfer.source != plan.transfer.destination)
    && n <= Statements(plan) && own == Written(db, k, plan, n)
  }

  // What each point of the handler relies on; true of the tables at any later time until the end.
  ghost predicate Knows(config: FxConfig.Config, db: Db, tx: Tx) {
    var req, own := tx.request, tx.own;
    match tx.pc
    case Begin => own == EMPTY
    case FastPath(k) => own == EMPTY && Classify(db.accounts, req) == Ok(k)
    case Reserve(k) => own == EMPTY && Classify(db.accounts, req) == Ok(k)
    case Reread(k) => own == EMPTY && Classify(db.accounts, req) == Ok(k) && k.key in db.records
    case ReadConfiguration(k) => Owned(db, req, k, own) && k.job.Move?
    case LockOriginal(k) => Owned(db, req, k, own) && k.job.Undo?
    case CheckOwner(k, t) => Owned(db, req, k, own) && OriginalRead(db, k, t)
    case CheckReversed(k, t) => Owned(db, req, k, own) && OriginalAllowed(db, req, k, t)
    case LockLower(k, basis) =>
      Owned(db, req, k, own) && BasisKnown(config, db, req, k, basis) && Distinct(db, k, basis)
    case LockUpper(k, basis, lower) =>
      Owned(db, req, k, own) && BasisKnown(config, db, req, k, basis) && Distinct(db, k, basis)
      && AccountKnown(db, Lower(k, basis), lower)
    case Decide(k, basis, lower, upper) =>
      Owned(db, req, k, own) && BasisKnown(config, db, req, k, basis) && Distinct(db, k, basis)
      && AccountKnown(db, Lower(k, basis), lower) && AccountKnown(db, Upper(k, basis), upper)
    case Write(k, plan, n) => Writing(config, db, req, k, plan, n, own)
    case Ending(_) => own.transfers == map[]
    case Finished(_) => own == EMPTY
  }

  // The locks that protect what a transaction knows.
  function KeyAnd(k: Keyed, basis: Basis): set<Resource> {
    {KeyOf(k.key)} + (if basis.ForUndo? && k.job.Undo? then {TransferRow(k.job.original)} else {})
  }

  function PlanLocks(k: Keyed, plan: Plan): set<Resource> {
    match plan
    case OpenPlan(_, _, _) => {KeyOf(k.key)}
    case MovePlan(_, t, _, _, _, _, _) =>
      {KeyOf(k.key), AccountRow(t.source), AccountRow(t.destination)}
      + (if t.reverses.Some? then {TransferRow(t.reverses.value)} else {})
  }

  function Holds(pc: Pc): set<Resource> {
    match pc
    case Begin => {}
    case FastPath(_) => {}
    case Reserve(_) => {}
    case Reread(_) => {}
    case ReadConfiguration(k) => {KeyOf(k.key)}
    case LockOriginal(k) => {KeyOf(k.key)}
    case CheckOwner(k, _) => KeyAnd(k, ForUndo(pc.original))
    case CheckReversed(k, _) => KeyAnd(k, ForUndo(pc.original))
    case LockLower(k, basis) => KeyAnd(k, basis)
    case LockUpper(k, basis, _) => KeyAnd(k, basis) + {AccountRow(Lower(k, basis))}
    case Decide(k, basis, _, _) => KeyAnd(k, basis) + {AccountRow(Lower(k, basis)), AccountRow(Upper(k, basis))}
    case Write(k, plan, _) => PlanLocks(k, plan)
    case Ending(_) => {}
    case Finished(_) => {}
  }

  /* -------------------- deciding steps agree with the specification -------------------- */

  lemma OverlayReserved(db: Db, k: Keyed)
    ensures var view := Overlay(db, ReservedOwn(k));
            && view.accounts == db.accounts && view.transfers == db.transfers && view.entries == db.entries
            && view.records == db.records[k.key := Record(k.fingerprint, None)]
  {
  }

  lemma OverlayNothing(db: Db)
    ensures Overlay(db, EMPTY) == db
  {
  }

  // With both rows known, the interleaved decision is the specification's.
  lemma PlannedIsWork(
      config: FxConfig.Config, db: Db, req: Request, k: Keyed, basis: Basis, lower: Option<Account>, upper: Option<Account>)
    requires BasisKnown(config, db, req, k, basis) && Distinct(db, k, basis)
    requires AccountKnown(db, Lower(k, basis), lower) && AccountKnown(db, Upper(k, basis), upper)
    ensures Planned(req, k, basis, lower, upper) == Work(config, db, req, k.job)
  {
  }

  lemma DecideLocal(config: FxConfig.Config, db: Db, tx: Tx)
    requires tx.pc.Decide?
    ensures var plan := Planned(tx.request, tx.pc.k, tx.pc.basis, tx.pc.lower, tx.pc.upper);
            Local(config, db, tx) ==
            if plan.Err? then Settle(Failure(plan.error)) else Stay(Write(tx.pc.k, plan.value, 0), tx.own)
  {
  }

  ghost predicate Settles(config: FxConfig.Config, db: Db, tx: Tx) {
    Knows(config, db, tx) && RecordsComplete(db.records) && Local(config, db, tx).Settle?
  }

  lemma UnreservedSettles(config: FxConfig.Config, db: Db, tx: Tx)
    requires Settles(config, db, tx) && (tx.pc.Begin? || tx.pc.FastPath? || tx.pc.Reserve? || tx.pc.Reread?)
    ensures Apply(config, db, tx.request) == Outcome(db, Local(config, db, tx).reply)
  {
    OverlayNothing(db);
  }

  lemma ReservedSettles(config: FxConfig.Config, db: Db, tx: Tx)
    requires Settles(config, db, tx)
    requires tx.pc.ReadConfiguration? || tx.pc.LockOriginal? || tx.pc.CheckOwner? || tx.pc.CheckReversed?
    ensures Apply(config, db, tx.request) == Outcome(db, Local(config, db, tx).reply)
  {
    OverlayReserved(db, tx.pc.k);
  }

  lemma DecideSettles(config: FxConfig.Config, db: Db, tx: Tx)
    requires Settles(config, db, tx) && tx.pc.Decide?
    ensures Apply(config, db, tx.request) == Outcome(db, Local(config, db, tx).reply)
  {
    DecideLocal(config, db, tx);
    PlannedIsWork(config, db, tx.request, tx.pc.k, tx.pc.basis, tx.pc.lower, tx.pc.upper);
  }

  // The points at which a reply can be decided without writing.
  lemma SettlingPoints(config: FxConfig.Config, db: Db, tx: Tx)
    requires Local(config, db, tx).Settle?
    ensures || tx.pc.Begin? || tx.pc.FastPath? || tx.pc.Reread? || tx.pc.ReadConfiguration? || tx.pc.LockOriginal?
            || tx.pc.CheckOwner? || tx.pc.CheckReversed? || tx.pc.Decide?
  {
  }

  // Whenever a transaction decides its reply without writing, the whole request run on the current
  // tables gives that reply and changes nothing.
  lemma SettleMatches(config: FxConfig.Config, db: Db, tx: Tx)
    requires Settles(config, db, tx)
    ensures Apply(config, db, tx.request) == Outcome(db, Local(config, db, tx).reply)
  {
    SettlingPoints(config, db, tx);
    if tx.pc.Decide? {
      DecideSettles(config, db, tx);
    } else if tx.pc.Begin? || tx.pc.FastPath? || tx.pc.Reread? {
      UnreservedSettles(config, db, tx);
    } else {
      ReservedSettles(config, db, tx);
    }
  }

  lemma OverlayOne<K, V>(m: map<K, V>, a: K, x: V)
    ensures m + map[a := x] == m[a := x]
  {
  }

  lemma OverlayOpened(db: Db, k: Keyed, plan: Plan)
    requires plan.OpenPlan?
    ensures Overlay(db, Written(db, k, plan, 2)) == Commit(db, k, plan)
  {
    OverlayOne(db.accounts, plan.id, plan.account);
    OverlayOne(db.records, k.key, Completed(k, plan));
  }

  lemma OverlayMoved(db: Db, k: Keyed, plan: Plan)
    requires plan.MovePlan? && Feasible(db, plan) && plan.transfer.source != plan.transfer.destination
    ensures Overlay(db, Written(db, k, plan, 6)) == Commit(db, k, plan)
  {
    var t := plan.transfer;
    OverlayTwo(db.accounts, t.source, Updated(db.accounts[t.source], plan.sourceBalance),
               t.destination, Updated(db.accounts[t.destination], plan.destinationBalance));
    OverlayTwo(db.entries, plan.debitId, DebitEntry(plan.id, t), plan.creditId, CreditEntry(plan.id, t));
    OverlayOne(db.transfers, plan.id, t);
    OverlayOne(db.records, k.key, Completed(k, plan));
  }

  // All statements written, the overlay is the specification's commit.
  lemma OverlayWritten(db: Db, k: Keyed, plan: Plan)
    requires Feasible(db, plan) && (plan.MovePlan? ==> plan.transfer.source != plan.transfer.destination)
    ensures Overlay(db, Written(db, k, plan, Statements(plan))) == Commit(db, k, plan)
  {
    if plan.OpenPlan? {
      OverlayOpened(db, k, plan);
    } else {
      OverlayMoved(db, k, plan);
    }
  }

  lemma OverlayTwo<K, V>(m: map<K, V>, a: K, x: V, b: K, y: V)
    ensures m + map[a := x][b := y] == m[a := x][b := y]
  {
  }

  /* -------------------- a transaction's own steps -------------------- */

  lemma CompleteWritten(db: Db, k: Keyed, plan: Plan, n: nat, own: Db)
    requires own.records == map[k.key := Record(k.fingerprint, None)]
    ensures CompleteOwn(db, own, k.key, plan.completion) == own.(records := map[k.key := Completed(k, plan)])
  {
  }

  lemma UpdateWritten(db: Db, own: Db, id: Id, balance: int)
    requires id in db.accounts && id !in own.accounts
    ensures UpdateOwn(db, own, id, balance) ==
            own.(accounts := own.accounts[id := Updated(db.accounts[id], balance)])
  {
  }

  lemma WrittenNext(db: Db, k: Keyed, plan: Plan, n: nat)
    requires Feasible(db, plan) && n < Statements(plan)
    requires plan.MovePlan? ==> plan.transfer.source != plan.transfer.destination
    ensures Execute(db, Written(db, k, plan, n), k, plan, n) == Written(db, k, plan, n + 1)
  {
    var own := Written(db, k, plan, n);
    if n == Statements(plan) - 1 {
      CompleteWritten(db, k, plan, n, own);
    } else if plan.MovePlan? {
      if n == 1 {
        UpdateWritten(db, own, plan.transfer.source, plan.sourceBalance);
      } else if n == 2 {
        UpdateWritten(db, own, plan.transfer.destination, plan.destinationBalance);
      }
    }
  }

  lemma DistinctParties(db: Db, req: Request, k: Keyed)
    requires Classify(db.accounts, req) == Ok(k) && k.job.Move?
    ensures k.job.source != k.job.destination && k.job.source in db.accounts && k.job.destination in db.accounts
  {
  }

  ghost predicate Advances(config: FxConfig.Config, db: Db, tx: Tx) {
    && Knows(config, db, tx) && TransfersSound(db)
    && (Local(config, db, tx).Stay? || Local(config, db, tx).Take?)
  }

  ghost function Advanced(config: FxConfig.Config, db: Db, tx: Tx): Tx
    requires Advances(config, db, tx)
  {
    Tx(tx.request, Local(config, db, tx).pc, Local(config, db, tx).own)
  }

  lemma KnowsReserving(config: FxConfig.Config, db: Db, tx: Tx)
    requires Advances(config, db, tx) && (tx.pc.Begin? || tx.pc.FastPath? || tx.pc.Reserve?)
    ensures Knows(config, db, Advanced(config, db, tx))
  {
    OverlayNothing(db);
  }

  lemma KnowsReading(config: FxConfig.Config, db: Db, tx: Tx)
    requires Advances(config, db, tx)
    requires tx.pc.ReadConfiguration? || tx.pc.LockOriginal? || tx.pc.CheckOwner? || tx.pc.CheckReversed?
    ensures Knows(config, db, Advanced(config, db, tx))
  {
    OverlayReserved(db, tx.pc.k);
    if tx.pc.ReadConfiguration? {
      DistinctParties(db, tx.request, tx.pc.k);
    }
    if tx.pc.CheckReversed? {
      assert TransferSound(db, tx.pc.original);
    }
  }

  lemma KnowsLocking(config: FxConfig.Config, db: Db, tx: Tx)
    requires Advances(config, db, tx) && (tx.pc.LockLower? || tx.pc.LockUpper?)
    ensures Knows(config, db, Advanced(config, db, tx)) && Local(config, db, tx).Take?
  {
    OverlayReserved(db, tx.pc.k);
  }

  lemma PlannedShape(req: Request, k: Keyed, basis: Basis, lower: Option<Account>, upper: Option<Account>)
    requires Planned(req, k, basis, lower, upper).Ok?
    ensures var plan := Planned(req, k, basis, lower, upper).value;
            && plan.MovePlan? && plan.transfer.source == SourceOf(k, basis)
            && plan.transfer.destination == DestinationOf(k, basis)
            && plan.transfer.reverses == (if basis.ForUndo? && k.job.Undo? then Some(k.job.original) else None)
  {
  }

  lemma PlannedIsWriting(
      config: FxConfig.Config, db: Db, req: Request, k: Keyed, basis: Basis, lower: Option<Account>, upper: Option<Account>)
    requires Owned(db, req, k, ReservedOwn(k)) && BasisKnown(config, db, req, k, basis) && Distinct(db, k, basis)
    requires AccountKnown(db, Lower(k, basis), lower) && AccountKnown(db, Upper(k, basis), upper)
    requires Planned(req, k, basis, lower, upper).Ok?
    ensures Writing(config, db, req, k, Planned(req, k, basis, lower, upper).value, 0, ReservedOwn(k))
  {
    PlannedIsWork(config, db, req, k, basis, lower, upper);
    PlannedShape(req, k, basis, lower, upper);
  }

  lemma KnowsDeciding(config: FxConfig.Config, db: Db, tx: Tx)
    requires Advances(config, db, tx) && tx.pc.Decide?
    ensures Knows(config, db, Advanced(config, db, tx))
  {
    DecideLocal(config, db, tx);
    PlannedIsWriting(config, db, tx.request, tx.pc.k, tx.pc.basis, tx.pc.lower, tx.pc.upper);
  }

  lemma KnowsWriting(config: FxConfig.Config, db: Db, tx: Tx)
    requires Advances(config, db, tx) && tx.pc.Write?
    ensures Knows(config, db, Advanced(config, db, tx))
  {
    WrittenNext(db, tx.pc.k, tx.pc.plan, tx.pc.next);
  }

  // Moving on, a transaction knows what its next statement relies on.
  lemma AdvanceKnows(config: FxConfig.Config, db: Db, tx: Tx)
    requires Advances(config, db, tx)
    ensures Knows(config, db, Advanced(config, db, tx))
  {
    match tx.pc {
      case Begin => KnowsReserving(config, db, tx);
      case FastPath(_) => KnowsReserving(config, db, tx);
      case Reserve(_) => KnowsReserving(config, db, tx);
      case ReadConfiguration(_) => KnowsReading(config, db, tx);
      case LockOriginal(_) => KnowsReading(config, db, tx);
      case CheckOwner(_, _) => KnowsReading(config, db, tx);
      case CheckReversed(_, _) => KnowsReading(config, db, tx);
      case LockLower(_, _) => KnowsLocking(config, db, tx);
      case LockUpper(_, _, _) => KnowsLocking(config, db, tx);
      case Decide(_, _, _, _) => KnowsDeciding(config, db, tx);
      case Write(_, _, _) => KnowsWriting(config, db, tx);
      case _ =>
    }
  }

  lemma PlanLocksAre(k: Keyed, basis: Basis, plan: Plan)
    requires plan.MovePlan? && plan.transfer.source == SourceOf(k, basis)
    requires plan.transfer.destination == DestinationOf(k, basis)
    requires plan.transfer.reverses == (if basis.ForUndo? && k.job.Undo? then Some(k.job.original) else None)
    ensures PlanLocks(k, plan) == KeyAnd(k, basis) + {AccountRow(Lower(k, basis)), AccountRow(Upper(k, basis))}
  {
  }

  // The rows a plan will change are the rows that are locked when it is decided.
  lemma PlannedHolds(req: Request, k: Keyed, basis: Basis, lower: Option<Account>, upper: Option<Account>)
    requires Planned(req, k, basis, lower, upper).Ok?
    ensures Holds(Write(k, Planned(req, k, basis, lower, upper).value, 0)) == Holds(Decide(k, basis, lower, upper))
  {
    PlannedShape(req, k, basis, lower, upper);
    PlanLocksAre(k, basis, Planned(req, k, basis, lower, upper).value);
  }

  lemma DecideHolds(config: FxConfig.Config, db: Db, tx: Tx)
    requires tx.pc.Decide? && !Local(config, db, tx).Settle?
    ensures Local(config, db, tx).Stay? && Holds(Local(config, db, tx).pc) == Holds(tx.pc)
  {
    DecideLocal(config, db, tx);
    PlannedHolds(tx.request, tx.pc.k, tx.pc.basis, tx.pc.lower, tx.pc.upper);
  }

  ghost predicate TakesOver(e: Effect, held: set<Resource>) {
    && (e.Stay? || e.Take?)
    && Holds(e.pc) == held + (if e.Take? then {e.resource} else {})
  }

  lemma ReserveHolds(config: FxConfig.Config, db: Db, tx: Tx)
    requires tx.pc.Begin? || tx.pc.FastPath? || tx.pc.Reserve?
    ensures var e := Local(config, db, tx); e.Stay? || e.Take? ==> TakesOver(e, Holds(tx.pc))
  {
  }

  lemma ReadingHolds(config: FxConfig.Config, db: Db, tx: Tx)
    requires tx.pc.ReadConfiguration? || tx.pc.LockOriginal? || tx.pc.CheckOwner? || tx.pc.CheckReversed?
    ensures var e := Local(config, db, tx); e.Stay? || e.Take? ==> TakesOver(e, Holds(tx.pc))
  {
  }

  lemma LockingHolds(config: FxConfig.Config, db: Db, tx: Tx)
    requires (tx.pc.LockLower? || tx.pc.LockUpper?) && Local(config, db, tx).Take?
    ensures TakesOver(Local(config, db, tx), Holds(tx.pc))
  {
  }

  lemma WriteHolds(config: FxConfig.Config, db: Db, tx: Tx)
    requires tx.pc.Write? && Local(config, db, tx).Stay?
    ensures TakesOver(Local(config, db, tx), Holds(tx.pc))
  {
  }

  lemma RereadSettles(config: FxConfig.Config, db: Db, tx: Tx)
    requires tx.pc.Reread? || tx.pc.Ending? || tx.pc.Finished?
    ensures !Local(config, db, tx).Stay? && !Local(config, db, tx).Take?
  {
  }

  lemma WriteNeverTakes(config: FxConfig.Config, db: Db, tx: Tx)
    requires tx.pc.Write?
    ensures !Local(config, db, tx).Take?
  {
  }

  // A transaction still holds, or has just taken, the locks that protect what it knows.
  lemma AdvanceHolds(config: FxConfig.Config, db: Db, tx: Tx)
    requires Advances(config, db, tx)
    ensures TakesOver(Local(config, db, tx), Holds(tx.pc))
  {
    match tx.pc {
      case Begin => ReserveHolds(config, db, tx);
      case FastPath(_) => ReserveHolds(config, db, tx);
      case Reserve(_) => ReserveHolds(config, db, tx);
      case Reread(_) => RereadSettles(config, db, tx);
      case ReadConfiguration(_) => ReadingHolds(config, db, tx);
      case LockOriginal(_) => ReadingHolds(config, db, tx);
      case CheckOwner(_, _) => ReadingHolds(config, db, tx);
      case CheckReversed(_, _) => ReadingHolds(config, db, tx);
      case LockLower(_, _) => KnowsLocking(config, db, tx); LockingHolds(config, db, tx);
      case LockUpper(_, _, _) => KnowsLocking(config, db, tx); LockingHolds(config, db, tx);
      case Decide(_, _, _, _) => DecideHolds(config, db, tx);
      case Write(_, _, _) => WriteNeverTakes(config, db, tx); WriteHolds(config, db, tx);
      case Ending(_) => RereadSettles(config, db, tx);
      case Finished(_) => RereadSettles(config, db, tx);
    }
  }

  /* -------------------- other transactions' steps -------------------- */

  // The tables changed only by additions and within what the locks in `held` cover.
  ghost predicate Spares(db: Db, after: Db, held: set<Resource>) {
    && Grows(db, after)
    && (forall a :: a in db.accounts && AccountRow(a) !in held ==> after.accounts[a] == db.accounts[a])
    && (forall o :: Reversed(after.transfers, o) && TransferRow(o) !in held ==> Reversed(db.transfers, o))
    && (forall k :: k in after.records && KeyOf(k) !in held ==> k in db.records)
  }

  lemma OwnedStable(db: Db, after: Db, held: set<Resource>, req: Request, k: Keyed, own: Db)
    requires Spares(db, after, held) && Owned(db, req, k, own) && KeyOf(k.key) !in held
    ensures Owned(after, req, k, own)
  {
    ClassifyStable(db, after, req);
  }

  lemma OriginalStable(db: Db, after: Db, req: Request, k: Keyed, t: Transfer)
    requires Grows(db, after) && OriginalRead(db, k, t)
    ensures OriginalRead(after, k, t) && (OriginalAllowed(db, req, k, t) ==> OriginalAllowed(after, req, k, t))
  {
  }

  lemma BasisStable(
      config: FxConfig.Config, db: Db, after: Db, held: set<Resource>, req: Request, k: Keyed, basis: Basis)
    requires Spares(db, after, held) && BasisKnown(config, db, req, k, basis) && Distinct(db, k, basis)
    requires KeyAnd(k, basis) !! held
    ensures BasisKnown(config, after, req, k, basis) && Distinct(after, k, basis)
  {
    if basis.ForUndo? {
      OriginalStable(db, after, req, k, basis.original);
      assert TransferRow(k.job.original) in KeyAnd(k, basis);
    }
  }

  lemma AccountStable(db: Db, after: Db, held: set<Resource>, id: Id, row: Option<Account>)
    requires Spares(db, after, held) && AccountKnown(db, id, row) && AccountRow(id) !in held
    ensures AccountKnown(after, id, row)
  {
  }

  lemma WorkShape(config: FxConfig.Config, db: Db, req: Request, k: Keyed)
    requires Work(config, db, req, k.job).Ok? && !k.job.Open?
    ensures var plan := Work(config, db, req, k.job).value;
            && plan.MovePlan? && plan.transfer.source in db.accounts && plan.transfer.destination in db.accounts
            && (k.job.Move? ==> plan.transfer.source == k.job.source && plan.transfer.destination == k.job.destination
                                && plan.transfer.reverses == None)
            && (k.job.Undo? ==>
                  && k.job.original in db.transfers && plan.transfer.reverses == Some(k.job.original)
                  && plan.transfer.source == db.transfers[k.job.original].destination
                  && plan.transfer.destination == db.transfers[k.job.original].source)
  {
  }

  // The work done under locks would be done again on the later tables.
  lemma WorkStable(config: FxConfig.Config, db: Db, after: Db, held: set<Resource>, req: Request, k: Keyed, plan: Plan)
    requires Spares(db, after, held) && Work(config, db, req, k.job) == Ok(plan) && PlanLocks(k, plan) !! held
    ensures Work(config, after, req, k.job) == Ok(plan)
  {
    if !k.job.Open? {
      WorkShape(config, db, req, k);
      var t := plan.transfer;
      assert AccountRow(t.source) in PlanLocks(k, plan) && AccountRow(t.destination) in PlanLocks(k, plan);
      assert Lookup(after.accounts, t.source) == Lookup(db.accounts, t.source);
      assert Lookup(after.accounts, t.destination) == Lookup(db.accounts, t.destination);
      if k.job.Undo? {
        assert TransferRow(k.job.original) in PlanLocks(k, plan);
      }
    }
  }

  lemma WrittenStable(db: Db, after: Db, held: set<Resource>, k: Keyed, plan: Plan, n: nat)
    requires Spares(db, after, held) && Feasible(db, plan) && PlanLocks(k, plan) !! held
    ensures Feasible(after, plan) && Written(after, k, plan, n) == Written(db, k, plan, n)
  {
    if plan.MovePlan? {
      var t := plan.transfer;
      assert AccountRow(t.source) in PlanLocks(k, plan) && AccountRow(t.destination) in PlanLocks(k, plan);
    }
  }

  lemma WritingStable(config: FxConfig.Config, db: Db, after: Db, held: set<Resource>, tx: Tx)
    requires Spares(db, after, held) && Knows(config, db, tx) && tx.pc.Write? && Holds(tx.pc) !! held
    ensures Knows(config, after, tx)
  {
    match tx.pc
    case Write(k, plan, n) =>
      assert KeyOf(k.key) in PlanLocks(k, plan);
      ClassifyStable(db, after, tx.request);
      WorkStable(config, db, after, held, tx.request, k, plan);
      WrittenStable(db, after, held, k, plan, n);
  }

  lemma LockingStable(config: FxConfig.Config, db: Db, after: Db, held: set<Resource>, tx: Tx)
    requires Spares(db, after, held) && Knows(config, db, tx) && Holds(tx.pc) !! held
    requires tx.pc.LockLower? || tx.pc.LockUpper? || tx.pc.Decide?
    ensures Knows(config, after, tx)
  {
    var k, basis := tx.pc.k, tx.pc.basis;
    assert KeyOf(k.key) in KeyAnd(k, basis) && KeyAnd(k, basis) <= Holds(tx.pc);
    OwnedStable(db, after, held, tx.request, k, tx.own);
    BasisStable(config, db, after, held, tx.request, k, basis);
    match tx.pc {
      case LockUpper(_, _, lower) =>
        assert AccountRow(Lower(k, basis)) in Holds(tx.pc);
        AccountStable(db, after, held, Lower(k, basis), lower);
      case Decide(_, _, lower, upper) =>
        assert AccountRow(Lower(k, basis)) in Holds(tx.pc) && AccountRow(Upper(k, basis)) in Holds(tx.pc);
        AccountStable(db, after, held, Lower(k, basis), lower);
        AccountStable(db, after, held, Upper(k, basis), upper);
      case _ =>
    }
  }

  // What a transaction knows stays true while others change only what it has not locked.
  lemma KnowsStable(config: FxConfig.Config, db: Db, after: Db, held: set<Resource>, tx: Tx)
    requires Spares(db, after, held) && Knows(config, db, tx) && Holds(tx.pc) !! held
    ensures Knows(config, after, tx)
  {
    var req := tx.request;
    match tx.pc {
      case Begin =>
      case FastPath(_) => ClassifyStable(db, after, req);
      case Reserve(_) => ClassifyStable(db, after, req);
      case Reread(_) => ClassifyStable(db, after, req);
      case ReadConfiguration(k) =>
        assert KeyOf(k.key) in Holds(tx.pc);
        OwnedStable(db, after, held, req, k, tx.own);
      case LockOriginal(k) =>
        assert KeyOf(k.key) in Holds(tx.pc);
        OwnedStable(db, after, held, req, k, tx.own);
      case CheckOwner(k, t) =>
        assert KeyOf(k.key) in Holds(tx.pc);
        OwnedStable(db, after, held, req, k, tx.own);
        OriginalStable(db, after, req, k, t);
      case CheckReversed(k, t) =>
        assert KeyOf(k.key) in Holds(tx.pc);
        OwnedStable(db, after, held, req, k, tx.own);
        OriginalStable(db, after, req, k, t);
      case LockLower(_, _) => LockingStable(config, db, after, held, tx);
      case LockUpper(_, _, _) => LockingStable(config, db, after, held, tx);
      case Decide(_, _, _, _) => LockingStable(config, db, after, held, tx);
      case Write(_, _, _) => WritingStable(config, db, after, held, tx);
      case Ending(_) =>
      case Finished(_) =>
    }
  }

  // A commit stays within its own locks.
  lemma CommitSpares(db: Db, k: Keyed, plan: Plan)
    requires Fresh(db, plan) && Feasible(db, plan) && k.key !in db.records
    requires plan.MovePlan? ==> plan.transfer.source != plan.transfer.destination
    ensures Spares(db, Commit(db, k, plan), PlanLocks(k, plan))
  {
    CommitGrows(db, k, plan);
    var after := Commit(db, k, plan);
    forall o | Reversed(after.transfers, o) && TransferRow(o) !in PlanLocks(k, plan)
      ensures Reversed(db.transfers, o)
    {
      var r :| r in after.transfers && after.transfers[r].reverses == Some(o);
      assert r in db.transfers && db.transfers[r].reverses == Some(o);
    }
  }

  lemma StatusSpares(db: Db, account: Id, active: bool)
    ensures Spares(db, WithStatus(db, account, active), {AccountRow(account)})
  {
  }
}
