/** The handlers as interleaved database transactions: one step per SQL statement, READ COMMITTED
    reads, row locks held until commit or rollback, and a reservation that waits for another
    transaction's uncommitted row with the same key (src/api/accounts.rs, src/api/transfers.rs,
    src/api/reversals.rs, src/idempotency.rs). */
module Protocol {
  import opened Common
  import opened Ledger
  import FxConfig

  // What one transaction can make another wait for.
  datatype Resource = KeyOf(key: RecordKey) | TransferRow(transfer: Id) | AccountRow(account: Id)

  // What was read before the account rows are locked.
  datatype Basis = ForMove(quote: Option<Quote>) | ForUndo(original: Transfer)

  // The next statement of a transaction, with what it has read so far.
  datatype Pc =
    | Begin                                    // validate and read the parties
    | FastPath(k: Keyed)                       // completed_success
    | Reserve(k: Keyed)                        // INSERT ... ON CONFLICT DO NOTHING
    | Reread(k: Keyed)                         // SELECT the record that was in the way
    | ReadConfiguration(k: Keyed)              // exchange rate and fee rule
    | LockOriginal(k: Keyed)                   // SELECT ... FROM transfers ... FOR UPDATE
    | CheckOwner(k: Keyed, original: Transfer)
    | CheckReversed(k: Keyed, original: Transfer)
    | LockLower(k: Keyed, basis: Basis)        // SELECT ... FROM accounts ... ORDER BY id FOR UPDATE
    | LockUpper(k: Keyed, basis: Basis, lower: Option<Account>)
    | Decide(k: Keyed, basis: Basis, lower: Option<Account>, upper: Option<Account>)
    | Write(k: Keyed, plan: Plan, next: nat)   // statement `next` of the plan, then COMMIT
    | Ending(reply: Reply)                     // ROLLBACK, or COMMIT of a replay that wrote nothing
    | Finished(reply: Reply)

  // `own` holds the rows this transaction has written and not yet committed.
  datatype Tx = Tx(request: Request, pc: Pc, own: Db)

  // The order in which requests and status changes take effect, kept as history.
  datatype Mark = ByTx(t: nat, request: Request) | ByOperator(account: Id, active: bool)

  datatype Sys = Sys(db: Db, locks: map<Resource, nat>, txs: seq<Tx>, order: seq<Mark>)

  /* -------------------- one transaction -------------------- */

  // Committed rows overlaid with a transaction's own.
  function Overlay(db: Db, own: Db): Db {
    Db(db.accounts + own.accounts, db.transfers + own.transfers, db.entries + own.entries, db.records + own.records)
  }

  function SourceOf(k: Keyed, basis: Basis): Id {
    match basis
    case ForMove(_) => if k.job.Move? then k.job.source else 0
    case ForUndo(original) => original.destination
  }

  function DestinationOf(k: Keyed, basis: Basis): Id {
    match basis
    case ForMove(_) => if k.job.Move? then k.job.destination else 0
    case ForUndo(original) => original.source
  }

  function Lower(k: Keyed, basis: Basis): Id {
    if SourceOf(k, basis) <= DestinationOf(k, basis) then SourceOf(k, basis) else DestinationOf(k, basis)
  }

  function Upper(k: Keyed, basis: Basis): Id {
    if SourceOf(k, basis) <= DestinationOf(k, basis) then DestinationOf(k, basis) else SourceOf(k, basis)
  }

  // The decision over both locked rows.
  function Planned(req: Request, k: Keyed, basis: Basis, lower: Option<Account>, upper: Option<Account>): Result<Plan, Error> {
    var source := if SourceOf(k, basis) <= DestinationOf(k, basis) then lower else upper;
    var destination := if SourceOf(k, basis) <= DestinationOf(k, basis) then upper else lower;
    match basis
    case ForMove(quote) =>
      if k.job.Move? then PlanMove(req, k.job, quote, source, destination) else Err(InternalError)
    case ForUndo(original) =>
      if k.job.Undo? then PlanUndo(req, k.job.original, original, source, destination) else Err(InternalError)
  }

  function Statements(plan: Plan): nat {
    if plan.OpenPlan? then 2 else 6
  }

  function UpdateOwn(db: Db, own: Db, id: Id, balance: int): Db {
    var view := Overlay(db, own).accounts;
    if id in view then own.(accounts := own.accounts[id := Updated(view[id], balance)]) else own
  }

  function CompleteOwn(db: Db, own: Db, key: RecordKey, completion: Completion): Db {
    var view := Overlay(db, own).records;
    if key in view then own.(records := own.records[key := view[key].(completion := Some(completion))]) else own
  }

  // The n-th write of a plan. (The UUIDs of inserted rows are taken to be unused.)
  function Execute(db: Db, own: Db, k: Keyed, plan: Plan, n: nat): Db
    requires n < Statements(plan)
  {
    match plan
    case OpenPlan(id, account, completion) =>
      if n == 0 then own.(accounts := own.accounts[id := account])
      else CompleteOwn(db, own, k.key, completion)
    case MovePlan(id, t, sourceBalance, destinationBalance, debitId, creditId, completion) =>
      if n == 0 then own.(transfers := own.transfers[id := t])
      else if n == 1 then UpdateOwn(db, own, t.source, sourceBalance)
      else if n == 2 then UpdateOwn(db, own, t.destination, destinationBalance)
      else if n == 3 then own.(entries := own.entries[debitId := DebitEntry(id, t)])
      else if n == 4 then own.(entries := own.entries[creditId := CreditEntry(id, t)])
      else CompleteOwn(db, own, k.key, completion)
  }

  // What a step does: move on, move on with a new lock, decide the reply without writing anything,
  // commit the own rows, or give everything up.
  datatype Effect =
    | Stay(pc: Pc, own: Db)
    | Take(resource: Resource, pc: Pc, own: Db)
    | Settle(reply: Reply)
    | CommitOwn(reply: Reply)
    | Release(reply: Reply)
    | Nothing

  function AfterReserve(req: Request, k: Keyed): Pc {
    match k.job
    case Open(currency, balance) => Write(k, PlanOpen(req, currency, balance), 0)
    case Move(_, _, _, _) => ReadConfiguration(k)
    case Undo(_) => LockOriginal(k)
  }

  function Deciding(k: Keyed, plan: Result<Plan, Error>, own: Db): Effect {
    match plan
    case Err(e) => Settle(Failure(e))
    case Ok(p) => Stay(Write(k, p, 0), own)
  }

  function LockAccount(view: Db, id: Id, pc: Pc, own: Db): Effect {
    if id in view.accounts then Take(AccountRow(id), pc, own) else Stay(pc, own)
  }

  function Local(config: FxConfig.Config, db: Db, tx: Tx): Effect {
    var view, req, own := Overlay(db, tx.own), tx.request, tx.own;
    match tx.pc
    case Begin =>
      (match Classify(view.accounts, req)
       case Err(e) => Settle(Failure(e))
       case Ok(k) => Stay(if k.job.Open? then Reserve(k) else FastPath(k), own))
    case FastPath(k) =>
      (match FastReply(view.records, k)
       case None => Stay(Reserve(k), own)
       case Some(reply) => Settle(reply))
    case Reserve(k) =>
      if k.key in view.records then Stay(Reread(k), own)
      else Take(KeyOf(k.key), AfterReserve(req, k), own.(records := own.records[k.key := Record(k.fingerprint, None)]))
    case Reread(k) =>
      if k.key in view.records then Settle(TakenReply(view.records[k.key], k.fingerprint))
      else Settle(Failure(InternalError))
    case ReadConfiguration(k) =>
      if !k.job.Move? then Settle(Failure(InternalError)) else
      (match Configure(config, k.job.parties, req.now)
       case Err(e) => Settle(Failure(e))
       case Ok(quote) => Stay(LockLower(k, ForMove(quote)), own))
    case LockOriginal(k) =>
      if k.job.Undo? && k.job.original in view.transfers
      then Take(TransferRow(k.job.original), CheckOwner(k, view.transfers[k.job.original]), own)
      else Settle(Failure(NotFound))
    case CheckOwner(k, t) =>
      if t.kind == Reversal then Settle(Failure(ReversalOfReversal))
      else if t.destination !in view.accounts || view.accounts[t.destination].owner != req.client
      then Settle(Failure(NotFound))
      else Stay(CheckReversed(k, t), own)
    case CheckReversed(k, t) =>
      if k.job.Undo? && Reversed(view.transfers, k.job.original) then Settle(Failure(TransferAlreadyReversed))
      else Stay(LockLower(k, ForUndo(t)), own)
    case LockLower(k, basis) =>
      var id := Lower(k, basis);
      LockAccount(view, id, LockUpper(k, basis, Lookup(view.accounts, id)), own)
    case LockUpper(k, basis, lower) =>
      var id := Upper(k, basis);
      LockAccount(view, id, Decide(k, basis, lower, Lookup(view.accounts, id)), own)
    case Decide(k, basis, lower, upper) => Deciding(k, Planned(req, k, basis, lower, upper), own)
    case Write(k, plan, n) =>
      if n < Statements(plan) then Stay(Write(k, plan, n + 1), Execute(db, own, k, plan, n))
      else CommitOwn(Success(plan.completion.status, plan.completion.body))
    case Ending(reply) => Release(reply)
    case Finished(_) => Nothing
  }

  /* -------------------- the system -------------------- */

  // A transaction can step unless it is finished or wants a resource that another one holds.
  predicate Enabled(config: FxConfig.Config, sys: Sys, t: nat) {
    t < |sys.txs| &&
    match Local(config, sys.db, sys.txs[t])
    case Nothing => false
    case Take(r, _, _) => r !in sys.locks || sys.locks[r] == t
    case _ => true
  }

  function Unlocked(locks: map<Resource, nat>, t: nat): map<Resource, nat> {
    map r | r in locks && locks[r] != t :: locks[r]
  }

  function Step(config: FxConfig.Config, sys: Sys, t: nat): Sys
    requires Enabled(config, sys, t)
  {
    var tx := sys.txs[t];
    var mark := ByTx(t, tx.request);
    match Local(config, sys.db, tx)
    case Stay(pc, own) => sys.(txs := sys.txs[t := Tx(tx.request, pc, own)])
    case Take(r, pc, own) => sys.(locks := sys.locks[r := t], txs := sys.txs[t := Tx(tx.request, pc, own)])
    case Settle(reply) => sys.(txs := sys.txs[t := tx.(pc := Ending(reply))], order := sys.order + [mark])
    case CommitOwn(reply) =>
      Sys(Overlay(sys.db, tx.own), Unlocked(sys.locks, t),
          sys.txs[t := Tx(tx.request, Finished(reply), EMPTY)], sys.order + [mark])
    case Release(reply) =>
      sys.(locks := Unlocked(sys.locks, t), txs := sys.txs[t := Tx(tx.request, Finished(reply), EMPTY)])
    case Nothing => sys
  }

  // An operator changes a status in a transaction of its own, which needs the row's lock.
  predicate CanOperate(sys: Sys, account: Id) {
    account in sys.db.accounts && AccountRow(account) !in sys.locks
  }

  function Operate(sys: Sys, account: Id, active: bool): Sys {
    sys.(db := WithStatus(sys.db, account, active), order := sys.order + [ByOperator(account, active)])
  }

  datatype Action = Advance(t: nat) | Administer(account: Id, active: bool)

  predicate Possible(config: FxConfig.Config, sys: Sys, action: Action) {
    match action
    case Advance(t) => Enabled(config, sys, t)
    case Administer(account, _) => CanOperate(sys, account)
  }

  function Act(config: FxConfig.Config, sys: Sys, action: Action): Sys
    requires Possible(config, sys, action)
  {
    match action
    case Advance(t) => Step(config, sys, t)
    case Administer(account, active) => Operate(sys, account, active)
  }

  // A run: every state follows from the one before it by a possible action.
  ghost predicate IsRun(config: FxConfig.Config, states: seq<Sys>, actions: seq<Action>) {
    && |states| == |actions| + 1
    && forall i :: 0 <= i < |actions| ==>
         Possible(config, states[i], actions[i]) && states[i + 1] == Act(config, states[i], actions[i])
  }

  // Any number of transactions about to begin on committed tables.
  function Start(db: Db, requests: seq<Request>): Sys {
    Sys(db, map[], seq(|requests|, i requires 0 <= i < |requests| => Tx(requests[i], Begin, EMPTY)), [])
  }

  function EventOf(mark: Mark): Event {
    match mark
    case ByTx(_, request) => Serve(request)
    case ByOperator(account, active) => SetStatus(account, active)
  }

  function Events(order: seq<Mark>): (events: seq<Event>)
    ensures |events| == |order|
  {
    if order == [] then [] else Events(order[..|order| - 1]) + [EventOf(order[|order| - 1])]
  }
}
