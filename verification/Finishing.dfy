/** When requests may be taken to take effect at their finishing steps, the commit or the rollback,
    and not only at the steps that decide them. */
module Finishing {
  import opened Common
  import opened Ledger
  import opened LedgerInvariants
  import opened ExactlyOnce
  import opened Protocol
  import opened ProtocolSafety
  import opened Serializability
  import FxConfig

  // The answer says that a row was not there; no lock keeps it from appearing.
  predicate MissesRow(db: Db, tx: Tx) {
    match tx.pc
    case Begin =>
      tx.request.call.CreateTransfer? && tx.request.call.source != tx.request.call.destination
      && ReadParties(db.accounts, tx.request.call.source, tx.request.call.destination).None?
    case LockOriginal(k) => k.job.Undo? && k.job.original !in db.transfers
    case _ => false
  }

  /* -------------------- on later tables -------------------- */

  // A reply decided on sound tables, with nothing missing, and tables that have grown since.
  ghost predicate Answers(config: FxConfig.Config, db: Db, after: Db, tx: Tx) {
    && Knows(config, db, tx) && TransfersSound(db) && Local(config, db, tx).Settle? && !MissesRow(db, tx)
    && Grows(db, after) && RecordsComplete(after.records)
  }

  lemma ClassifyErrorStays(db: Db, after: Db, tx: Tx)
    requires Grows(db, after) && tx.pc.Begin? && !MissesRow(db, tx) && Classify(db.accounts, tx.request).Err?
    ensures Classify(after.accounts, tx.request) == Classify(db.accounts, tx.request)
  {
  }

  lemma EarlyReplyStays(config: FxConfig.Config, db: Db, after: Db, tx: Tx)
    requires Answers(config, db, after, tx) && (tx.pc.Begin? || tx.pc.FastPath? || tx.pc.Reread?)
    ensures Local(config, after, tx) == Local(config, db, tx)
  {
    OverlayNothing(db);
    OverlayNothing(after);
    if tx.pc.Begin? {
      ClassifyErrorStays(db, after, tx);
    }
  }

  lemma CheckedReplyStays(config: FxConfig.Config, db: Db, after: Db, tx: Tx)
    requires Answers(config, db, after, tx) && (tx.pc.CheckOwner? || tx.pc.CheckReversed?)
    ensures Local(config, after, tx) == Local(config, db, tx)
  {
    OverlayReserved(db, tx.pc.k);
    OverlayReserved(after, tx.pc.k);
    assert TransferSound(db, tx.pc.original);
  }

  lemma DecidedReplyStays(config: FxConfig.Config, db: Db, after: Db, tx: Tx)
    requires Answers(config, db, after, tx) && (tx.pc.ReadConfiguration? || tx.pc.LockOriginal? || tx.pc.Decide?)
    ensures Local(config, after, tx) == Local(config, db, tx)
  {
    if tx.pc.LockOriginal? {
      OverlayReserved(db, tx.pc.k);
    }
  }

  lemma ReplyStays(config: FxConfig.Config, db: Db, after: Db, tx: Tx)
    requires Answers(config, db, after, tx)
    ensures Local(config, after, tx) == Local(config, db, tx)
  {
    SettlingPoints(config, db, tx);
    if tx.pc.Begin? || tx.pc.FastPath? || tx.pc.Reread? {
      EarlyReplyStays(config, db, after, tx);
    } else if tx.pc.CheckOwner? || tx.pc.CheckReversed? {
      CheckedReplyStays(config, db, after, tx);
    } else {
      DecidedReplyStays(config, db, after, tx);
    }
  }

  // On tables that differ only within what the transaction has not locked, the whole request would
  // be answered alike.
  lemma AnswerStays(config: FxConfig.Config, db: Db, after: Db, tx: Tx)
    requires Answers(config, db, after, tx) && Knows(config, after, tx)
    ensures Apply(config, after, tx.request) == Outcome(after, Local(config, db, tx).reply)
  {
    ReplyStays(config, db, after, tx);
    SettleMatches(config, after, tx);
  }

  /* -------------------- between deciding and finishing -------------------- */

  // What transaction t relied on when it decided, as `was`, still holds, and its locks are still its own.
  ghost predicate Retained(config: FxConfig.Config, before: Db, sys: Sys, t: nat, was: Tx) {
    && Knows(config, sys.db, was) && Grows(before, sys.db)
    && OwnLocks(sys.locks, t, Holds(was.pc))
  }

  ghost predicate OwnLocks(locks: map<Resource, nat>, t: nat, held: set<Resource>) {
    forall r :: r in held ==> r in locks && locks[r] == t
  }

  lemma RetainedOn(
      config: FxConfig.Config, before: Db, sys: Sys, t: nat, was: Tx, after: Sys, changed: set<Resource>)
    requires Retained(config, before, sys, t, was) && Spares(sys.db, after.db, changed) && Holds(was.pc) !! changed
    requires OwnLocks(after.locks, t, Holds(was.pc))
    ensures Retained(config, before, after, t, was)
  {
    KnowsStable(config, sys.db, after.db, changed, was);
    GrowsTransitive(before, sys.db, after.db);
  }

  lemma SparesItself(db: Db)
    ensures Spares(db, db, {})
  {
  }

  lemma OthersLocksApart(locks: map<Resource, nat>, txs: seq<Tx>, t: nat, u: nat, held: set<Resource>)
    requires LocksSound(locks, txs) && OwnLocks(locks, t, held) && u < |txs| && t != u
    ensures held !! Holds(txs[u].pc)
  {
    assert Holdings(txs)[u] == Holds(txs[u].pc);
    forall r | r in Holds(txs[u].pc) ensures r !in held {
      assert r in locks && locks[r] == u;
    }
  }

  // Which rows a step may change: those its transaction has locked, if it commits.
  lemma StepSpares(config: FxConfig.Config, start: Db, openings: Openings, sys: Sys, u: nat)
    requires Inv(config, start, openings, sys) && Enabled(config, sys, u)
    ensures Spares(sys.db, Step(config, sys, u).db,
                   if Local(config, sys.db, sys.txs[u]).CommitOwn? then Holds(sys.txs[u].pc) else {})
  {
    if Local(config, sys.db, sys.txs[u]).CommitOwn? {
      var tx := sys.txs[u];
      OnlyWritesCommit(config, sys.db, tx);
      CommitsFresh(config, sys.db, tx);
      CommitMatches(config, sys.db, tx);
      CommitStaysWithin(config, sys.db, tx);
    } else {
      StillTables(config, sys, u);
      SparesItself(sys.db);
    }
  }

  lemma StillTables(config: FxConfig.Config, sys: Sys, u: nat)
    requires Enabled(config, sys, u) && !Local(config, sys.db, sys.txs[u]).CommitOwn?
    ensures Step(config, sys, u).db == sys.db
  {
  }

  lemma StepLeavesLocks(config: FxConfig.Config, sys: Sys, u: nat, t: nat, held: set<Resource>)
    requires Enabled(config, sys, u) && t != u && OwnLocks(sys.locks, t, held)
    ensures OwnLocks(Step(config, sys, u).locks, t, held)
  {
  }

  lemma OperatorRetains(
      config: FxConfig.Config, before: Db, sys: Sys, t: nat, was: Tx, account: Id, active: bool)
    requires Retained(config, before, sys, t, was) && CanOperate(sys, account)
    ensures Retained(config, before, Operate(sys, account, active), t, was)
  {
    StatusSpares(sys.db, account, active);
    RetainedOn(config, before, sys, t, was, Operate(sys, account, active), {AccountRow(account)});
  }

  // Whatever others do, a transaction that has decided keeps what it relied on until its own next step.
  lemma OthersRetain(
      config: FxConfig.Config, start: Db, openings: Openings, before: Db, sys: Sys, t: nat, was: Tx, action: Action)
    requires Inv(config, start, openings, sys) && Possible(config, sys, action) && action != Advance(t)
    requires Retained(config, before, sys, t, was)
    ensures Retained(config, before, Act(config, sys, action), t, was)
  {
    match action {
      case Administer(account, active) => OperatorRetains(config, before, sys, t, was, account, active);
      case Advance(u) =>
        StepSpares(config, start, openings, sys, u);
        StepLeavesLocks(config, sys, u, t, Holds(was.pc));
        OthersLocksApart(sys.locks, sys.txs, t, u, Holds(was.pc));
        RetainedOn(config, before, sys, t, was, Step(config, sys, u),
                   if Local(config, sys.db, sys.txs[u]).CommitOwn? then Holds(sys.txs[u].pc) else {});
    }
  }

  /* -------------------- over executions -------------------- */

  // Action i is the step at which transaction t decides an answer without writing.
  ghost predicate SettlesAt(config: FxConfig.Config, states: seq<Sys>, actions: seq<Action>, i: nat, t: nat) {
    && |states| == |actions| + 1 && i < |actions| && actions[i] == Advance(t) && Enabled(config, states[i], t)
    && Local(config, states[i].db, states[i].txs[t]).Settle?
  }

  lemma HoldsOwn(locks: map<Resource, nat>, txs: seq<Tx>, t: nat)
    requires LocksSound(locks, txs) && t < |txs|
    ensures OwnLocks(locks, t, Holds(txs[t].pc))
  {
    assert Holdings(txs)[t] == Holds(txs[t].pc);
  }

  lemma SettleStep(config: FxConfig.Config, sys: Sys, t: nat)
    requires Enabled(config, sys, t) && Local(config, sys.db, sys.txs[t]).Settle?
    ensures var after := Step(config, sys, t);
            && after.db == sys.db && after.locks == sys.locks
            && after.txs[t].pc == Ending(Local(config, sys.db, sys.txs[t]).reply)
  {
  }

  lemma SettledRetains(config: FxConfig.Config, start: Db, openings: Openings, sys: Sys, t: nat)
    requires Inv(config, start, openings, sys) && Enabled(config, sys, t) && Local(config, sys.db, sys.txs[t]).Settle?
    ensures Retained(config, sys.db, Step(config, sys, t), t, sys.txs[t])
    ensures Step(config, sys, t).txs[t].pc == Ending(Local(config, sys.db, sys.txs[t]).reply)
  {
    HoldsOwn(sys.locks, sys.txs, t);
    SettleStep(config, sys, t);
  }

  // How a transaction comes to be at its end: it was there before, or has just decided.
  lemma EndingComesFrom(config: FxConfig.Config, sys: Sys, action: Action, t: nat)
    requires Possible(config, sys, action) && t < |sys.txs| && Act(config, sys, action).txs[t].pc.Ending?
    ensures || (action != Advance(t) && sys.txs[t] == Act(config, sys, action).txs[t])
            || (action == Advance(t) && Local(config, sys.db, sys.txs[t]).Settle? && !Decided(sys.txs[t].pc))
  {
    if action == Advance(t) {
      OnlySettlingEnds(config, sys, t);
    }
  }

  lemma OnlySettlingEnds(config: FxConfig.Config, sys: Sys, t: nat)
    requires Enabled(config, sys, t) && Step(config, sys, t).txs[t].pc.Ending?
    ensures Local(config, sys.db, sys.txs[t]).Settle? && !Decided(sys.txs[t].pc)
  {
    if Local(config, sys.db, sys.txs[t]).Stay? || Local(config, sys.db, sys.txs[t]).Take? {
      NeverDecides(config, sys.db, sys.txs[t]);
    }
  }

  lemma DecidedStays(config: FxConfig.Config, sys: Sys, action: Action, t: nat)
    requires Possible(config, sys, action) && t < |sys.txs| && Decided(sys.txs[t].pc)
    ensures Decided(Act(config, sys, action).txs[t].pc)
  {
  }

  lemma {:induction false} DecidedForGood(
      config: FxConfig.Config, states: seq<Sys>, actions: seq<Action>, i: nat, j: nat, t: nat)
    requires IsRun(config, states, actions) && i <= j < |states|
    requires t < |states[i].txs| && Decided(states[i].txs[t].pc)
    ensures t < |states[j].txs| && Decided(states[j].txs[t].pc)
  {
    if i < j {
      DecidedForGood(config, states, actions, i, j - 1, t);
      ActKeepsRequests(config, states[j - 1], actions[j - 1]);
      DecidedStays(config, states[j - 1], actions[j - 1], t);
    }
  }

  // A transaction at its end decided at some earlier step, with the same reply, and has kept what it
  // relied on ever since.
  lemma {:induction false} EndingRetains(
      config: FxConfig.Config, start: Db, openings: Openings, requests: seq<Request>,
      states: seq<Sys>, actions: seq<Action>, j: nat, t: nat) returns (i: nat)
    requires IsExecution(config, start, openings, requests, states, actions) && j < |states|
    requires t < |states[j].txs| && states[j].txs[t].pc.Ending?
    ensures i < j && SettlesAt(config, states, actions, i, t)
    ensures states[j].txs[t].pc.reply == Local(config, states[i].db, states[i].txs[t]).reply
    ensures Retained(config, states[i].db, states[j], t, states[i].txs[t])
  {
    RequestsStay(config, start, openings, requests, states, actions, j);
    if j == 0 {
      assert false;
    } else {
      var n := j - 1;
      RequestsStay(config, start, openings, requests, states, actions, n);
      ExecutionKeeps(config, start, openings, requests, states, actions, n);
      EndingComesFrom(config, states[n], actions[n], t);
      if actions[n] == Advance(t) {
        i := n;
        SettledRetains(config, start, openings, states[n], t);
      } else {
        i := EndingRetains(config, start, openings, requests, states, actions, n, t);
        OthersRetain(config, start, openings, states[i].db, states[n], t, states[i].txs[t], actions[n]);
      }
    }
  }

  // Once decided on rows that were there, an answer is what the whole request would be answered in
  // every state up to the release of the locks.
  lemma AnswerHolds(
      config: FxConfig.Config, start: Db, openings: Openings, requests: seq<Request>,
      states: seq<Sys>, actions: seq<Action>, i: nat, j: nat, t: nat)
    requires IsExecution(config, start, openings, requests, states, actions) && i < j < |states|
    requires SettlesAt(config, states, actions, i, t) && !MissesRow(states[i].db, states[i].txs[t])
    requires t < |states[j].txs| && states[j].txs[t].pc.Ending?
    ensures t < |requests| &&
            Apply(config, states[j].db, requests[t]) == Outcome(states[j].db, states[j].txs[t].pc.reply)
  {
    var n := EndingRetains(config, start, openings, requests, states, actions, j, t);
    SettlesOnce(config, start, openings, requests, states, actions, i, n, t);
    RequestsStay(config, start, openings, requests, states, actions, i);
    ExecutionKeeps(config, start, openings, requests, states, actions, i);
    ExecutionKeeps(config, start, openings, requests, states, actions, j);
    TablesSound(config, start, openings, states[i]);
    TablesSound(config, start, openings, states[j]);
    AnswerStays(config, states[i].db, states[j].db, states[i].txs[t]);
    RequestsStay(config, start, openings, requests, states, actions, j);
  }

  lemma SettlesOnce(
      config: FxConfig.Config, start: Db, openings: Openings, requests: seq<Request>,
      states: seq<Sys>, actions: seq<Action>, i: nat, n: nat, t: nat)
    requires IsExecution(config, start, openings, requests, states, actions)
    requires SettlesAt(config, states, actions, i, t) && SettlesAt(config, states, actions, n, t)
    ensures i == n
  {
    if i < n {
      SettlingDecides(config, start, openings, requests, states, actions, i, t);
      DecidedForGood(config, states, actions, i + 1, n, t);
      DecidedNeverSettles(config, states[n].db, states[n].txs[t]);
    } else if n < i {
      SettlingDecides(config, start, openings, requests, states, actions, n, t);
      DecidedForGood(config, states, actions, n + 1, i, t);
      DecidedNeverSettles(config, states[i].db, states[i].txs[t]);
    }
  }

  lemma SettlingDecides(
      config: FxConfig.Config, start: Db, openings: Openings, requests: seq<Request>,
      states: seq<Sys>, actions: seq<Action>, i: nat, t: nat)
    requires IsExecution(config, start, openings, requests, states, actions) && SettlesAt(config, states, actions, i, t)
    ensures t < |requests| && |states[i + 1].txs| == |requests| && Decided(states[i + 1].txs[t].pc)
  {
    ExecutionKeeps(config, start, openings, requests, states, actions, i);
    RequestsStay(config, start, openings, requests, states, actions, i);
    RequestsStay(config, start, openings, requests, states, actions, i + 1);
    SettledRetains(config, start, openings, states[i], t);
  }

  lemma DecidedNeverSettles(config: FxConfig.Config, db: Db, tx: Tx)
    requires Decided(tx.pc)
    ensures !Local(config, db, tx).Settle?
  {
  }

  // Somewhere before action j, transaction t decided on a row that was missing.
  ghost predicate MissedRow(config: FxConfig.Config, states: seq<Sys>, actions: seq<Action>, j: nat, t: nat) {
    exists i :: 0 <= i < j && SettlesAt(config, states, actions, i, t) && MissesRow(states[i].db, states[i].txs[t])
  }

  // Action j is the commit or the rollback of transaction t.
  ghost predicate FinishesAt(config: FxConfig.Config, states: seq<Sys>, actions: seq<Action>, j: nat, t: nat) {
    && |states| == |actions| + 1 && j < |actions| && actions[j] == Advance(t) && Enabled(config, states[j], t)
    && t < |states[j + 1].txs| && states[j + 1].txs[t].pc.Finished?
  }

  // Unless it decided on a missing row, every request takes effect, and gets its reply, as a whole
  // at its finishing step.
  lemma TakesEffectAtFinish(
      config: FxConfig.Config, start: Db, openings: Openings, requests: seq<Request>,
      states: seq<Sys>, actions: seq<Action>, j: nat, t: nat)
    requires IsExecution(config, start, openings, requests, states, actions)
    requires FinishesAt(config, states, actions, j, t) && !MissedRow(config, states, actions, j, t)
    ensures t < |requests| &&
            Apply(config, states[j].db, requests[t]) == Outcome(states[j + 1].db, states[j + 1].txs[t].pc.reply)
  {
    RequestsStay(config, start, openings, requests, states, actions, j);
    ExecutionKeeps(config, start, openings, requests, states, actions, j);
    var sys := states[j];
    FinishingEffects(config, sys, t);
    if Local(config, sys.db, sys.txs[t]).CommitOwn? {
      OnlyWritesCommit(config, sys.db, sys.txs[t]);
      CommitsFresh(config, sys.db, sys.txs[t]);
      CommitMatches(config, sys.db, sys.txs[t]);
    } else {
      var i := EndingRetains(config, start, openings, requests, states, actions, j, t);
      AnswerHolds(config, start, openings, requests, states, actions, i, j, t);
    }
  }

  lemma FinishingEffects(config: FxConfig.Config, sys: Sys, t: nat)
    requires Enabled(config, sys, t) && Step(config, sys, t).txs[t].pc.Finished?
    ensures var e, after := Local(config, sys.db, sys.txs[t]), Step(config, sys, t);
            || (e.CommitOwn? && after.db == Overlay(sys.db, sys.txs[t].own) && after.txs[t].pc.reply == e.reply)
            || (sys.txs[t].pc.Ending? && after.db == sys.db && after.txs[t].pc.reply == sys.txs[t].pc.reply)
  {
    if Local(config, sys.db, sys.txs[t]).Stay? || Local(config, sys.db, sys.txs[t]).Take? {
      NeverDecides(config, sys.db, sys.txs[t]);
    }
    if Local(config, sys.db, sys.txs[t]).Release? {
      OnlyEndingReleases(config, sys.db, sys.txs[t]);
    }
  }

  // And no other step of a transaction changes the tables at all.
  lemma OnlyFinishingWrites(config: FxConfig.Config, sys: Sys, t: nat)
    requires Enabled(config, sys, t) && !Step(config, sys, t).txs[t].pc.Finished?
    ensures Step(config, sys, t).db == sys.db
  {
  }
}
