/** Any number of interleaved transactions leave the tables, and give every client the reply, of
    whole requests run one at a time in the order of their deciding steps. */
module Serializability {
  import opened Common
  import opened Ledger
  import opened LedgerInvariants
  import opened ExactlyOnce
  import opened Protocol
  import opened ProtocolSafety
  import FxConfig

  /* -------------------- the system invariant -------------------- */

  predicate Decided(pc: Pc) {
    pc.Ending? || pc.Finished?
  }

  function ReplyOf(pc: Pc): Reply
    requires Decided(pc)
  {
    pc.reply
  }

  // Whoever relies on a lock has it, and every lock belongs to a transaction that relies on it or
  // is about to end.
  ghost predicate LocksMatch(locks: map<Resource, nat>, held: seq<set<Resource>>, ending: seq<bool>) {
    && |held| == |ending|
    && (forall t, r :: 0 <= t < |held| && r in held[t] ==> r in locks && locks[r] == t)
    && (forall r :: r in locks ==> locks[r] < |held| && (ending[locks[r]] || r in held[locks[r]]))
  }

  function Holdings(txs: seq<Tx>): seq<set<Resource>> {
    seq(|txs|, t requires 0 <= t < |txs| => Holds(txs[t].pc))
  }

  function Endings(txs: seq<Tx>): seq<bool> {
    seq(|txs|, t requires 0 <= t < |txs| => txs[t].pc.Ending?)
  }

  ghost predicate LocksSound(locks: map<Resource, nat>, txs: seq<Tx>) {
    LocksMatch(locks, Holdings(txs), Endings(txs))
  }

  ghost predicate AllKnow(config: FxConfig.Config, db: Db, txs: seq<Tx>) {
    forall t :: 0 <= t < |txs| ==> Knows(config, db, txs[t])
  }

  // The UUIDs a request draws are unused in the tables.
  predicate Unused(db: Db, req: Request) {
    req.id !in db.accounts && req.id !in db.transfers && req.debitId !in db.entries && req.creditId !in db.entries
  }

  // No two requests draw the same UUID.
  predicate Apart(a: Request, b: Request) {
    && a.id != b.id && a.debitId != b.debitId && a.debitId != b.creditId
    && a.creditId != b.debitId && a.creditId != b.creditId
  }

  ghost predicate DrawsSound(db: Db, txs: seq<Tx>) {
    && (forall t :: 0 <= t < |txs| ==> txs[t].request.debitId != txs[t].request.creditId)
    && (forall t, u :: 0 <= t < |txs| && 0 <= u < |txs| && t != u ==> Apart(txs[t].request, txs[u].request))
    && (forall t :: 0 <= t < |txs| && !txs[t].pc.Finished? ==> Unused(db, txs[t].request))
  }

  ghost predicate ServedAt(config: FxConfig.Config, start: Db, order: seq<Mark>, t: nat, tx: Tx, p: nat) {
    && p < |order| && order[p] == ByTx(t, tx.request) && Decided(tx.pc)
    && ReplyOf(tx.pc) == Apply(config, Run(config, start, Events(order[..p])), tx.request).reply
  }

  // Every decided transaction is marked where its reply is the specification's.
  ghost predicate Answered(config: FxConfig.Config, start: Db, order: seq<Mark>, txs: seq<Tx>) {
    forall t :: 0 <= t < |txs| && Decided(txs[t].pc) ==> exists p :: ServedAt(config, start, order, t, txs[t], p)
  }

  // No transaction is marked twice, and no undecided one is marked.
  ghost predicate MarkedOnce(order: seq<Mark>, txs: seq<Tx>) {
    && (forall p :: 0 <= p < |order| && order[p].ByTx? ==>
          order[p].t < |txs| && Decided(txs[order[p].t].pc) && order[p].request == txs[order[p].t].request)
    && (forall p, q | 0 <= p < q < |order| && order[p].ByTx? && order[q].ByTx? :: order[p].t != order[q].t)
  }

  ghost predicate HistorySound(config: FxConfig.Config, start: Db, order: seq<Mark>, txs: seq<Tx>) {
    Answered(config, start, order, txs) && MarkedOnce(order, txs)
  }

  ghost predicate Serial(config: FxConfig.Config, start: Db, openings: Openings, sys: Sys) {
    && sys.db == Run(config, start, Events(sys.order))
    && Sound(start, openings)
  }

  ghost predicate Inv(config: FxConfig.Config, start: Db, openings: Openings, sys: Sys) {
    && Serial(config, start, openings, sys) && LocksSound(sys.locks, sys.txs)
    && AllKnow(config, sys.db, sys.txs) && DrawsSound(sys.db, sys.txs)
    && HistorySound(config, start, sys.order, sys.txs)
  }

  // In every state of the invariant the tables satisfy every ledger invariant.
  lemma TablesSound(config: FxConfig.Config, start: Db, openings: Openings, sys: Sys)
    requires Serial(config, start, openings, sys)
    ensures Sound(sys.db, OpeningsAfter(config, start, openings, Events(sys.order)))
    ensures TransfersSound(sys.db) && RecordsComplete(sys.db.records)
  {
    RunKeepsSound(config, start, openings, Events(sys.order));
  }

  /* -------------------- one more mark in the history -------------------- */

  lemma EventsOneMore(order: seq<Mark>, mark: Mark)
    ensures Events(order + [mark]) == Events(order) + [EventOf(mark)]
  {
    assert (order + [mark])[..|order|] == order;
  }

  lemma RunOneMoreMark(config: FxConfig.Config, start: Db, order: seq<Mark>, mark: Mark)
    ensures Run(config, start, Events(order + [mark])) == Next(config, Run(config, start, Events(order)), EventOf(mark))
  {
    EventsOneMore(order, mark);
    RunOneMore(config, start, Events(order), EventOf(mark));
  }

  lemma ServedStaysAt(config: FxConfig.Config, start: Db, order: seq<Mark>, mark: Mark, t: nat, tx: Tx, p: nat)
    requires ServedAt(config, start, order, t, tx, p)
    ensures ServedAt(config, start, order + [mark], t, tx, p)
  {
    assert (order + [mark])[..p] == order[..p];
  }

  lemma ServedStays(config: FxConfig.Config, start: Db, order: seq<Mark>, mark: Mark, t: nat, tx: Tx)
    requires exists p :: ServedAt(config, start, order, t, tx, p)
    ensures exists p :: ServedAt(config, start, order + [mark], t, tx, p)
  {
    var p :| ServedAt(config, start, order, t, tx, p);
    ServedStaysAt(config, start, order, mark, t, tx, p);
  }

  lemma ServedNow(config: FxConfig.Config, start: Db, order: seq<Mark>, t: nat, tx: Tx)
    requires Decided(tx.pc)
    requires ReplyOf(tx.pc) == Apply(config, Run(config, start, Events(order)), tx.request).reply
    ensures ServedAt(config, start, order + [ByTx(t, tx.request)], t, tx, |order|)
  {
    assert (order + [ByTx(t, tx.request)])[..|order|] == order;
  }

  // An undecided transaction is decided, and marked, now.
  lemma HistoryServes(config: FxConfig.Config, start: Db, order: seq<Mark>, txs: seq<Tx>, t: nat, decided: Tx)
    requires HistorySound(config, start, order, txs)
    requires t < |txs| && !Decided(txs[t].pc) && Decided(decided.pc) && decided.request == txs[t].request
    requires ReplyOf(decided.pc) == Apply(config, Run(config, start, Events(order)), decided.request).reply
    ensures HistorySound(config, start, order + [ByTx(t, decided.request)], txs[t := decided])
  {
    AnsweredMore(config, start, order, txs, t, decided);
    MarkedMore(order, txs, t, decided);
  }

  lemma MarkedMore(order: seq<Mark>, txs: seq<Tx>, t: nat, decided: Tx)
    requires MarkedOnce(order, txs)
    requires t < |txs| && !Decided(txs[t].pc) && Decided(decided.pc) && decided.request == txs[t].request
    ensures MarkedOnce(order + [ByTx(t, decided.request)], txs[t := decided])
  {
  }

  lemma AnsweredMore(config: FxConfig.Config, start: Db, order: seq<Mark>, txs: seq<Tx>, t: nat, decided: Tx)
    requires Answered(config, start, order, txs) && t < |txs| && Decided(decided.pc)
    requires ReplyOf(decided.pc) == Apply(config, Run(config, start, Events(order)), decided.request).reply
    ensures Answered(config, start, order + [ByTx(t, decided.request)], txs[t := decided])
  {
    var mark := ByTx(t, decided.request);
    var txs' := txs[t := decided];
    ServedNow(config, start, order, t, decided);
    forall u | 0 <= u < |txs'| && Decided(txs'[u].pc)
      ensures exists p :: ServedAt(config, start, order + [mark], u, txs'[u], p)
    {
      if u != t {
        ServedStays(config, start, order, mark, u, txs[u]);
      }
    }
  }

  lemma HistoryKeeps(config: FxConfig.Config, start: Db, order: seq<Mark>, txs: seq<Tx>, t: nat, tx: Tx)
    requires HistorySound(config, start, order, txs)
    requires t < |txs| && tx.request == txs[t].request
    requires Decided(tx.pc) <==> Decided(txs[t].pc)
    requires Decided(tx.pc) ==> ReplyOf(tx.pc) == ReplyOf(txs[t].pc)
    ensures HistorySound(config, start, order, txs[t := tx])
  {
    var txs' := txs[t := tx];
    forall u | 0 <= u < |txs'| && Decided(txs'[u].pc) ensures exists p :: ServedAt(config, start, order, u, txs'[u], p) {
      var p :| ServedAt(config, start, order, u, txs[u], p);
      assert ServedAt(config, start, order, u, txs'[u], p);
    }
  }

  lemma HistoryOperates(config: FxConfig.Config, start: Db, order: seq<Mark>, txs: seq<Tx>, account: Id, active: bool)
    requires HistorySound(config, start, order, txs)
    ensures HistorySound(config, start, order + [ByOperator(account, active)], txs)
  {
    forall u | 0 <= u < |txs| && Decided(txs[u].pc)
      ensures exists p :: ServedAt(config, start, order + [ByOperator(account, active)], u, txs[u], p)
    {
      ServedStays(config, start, order, ByOperator(account, active), u, txs[u]);
    }
  }

  /* -------------------- one transaction replaced -------------------- */

  lemma KnowReplaced(config: FxConfig.Config, db: Db, txs: seq<Tx>, t: nat, tx: Tx)
    requires AllKnow(config, db, txs) && t < |txs| && Knows(config, db, tx)
    ensures AllKnow(config, db, txs[t := tx])
  {
  }

  lemma DrawsReplaced(db: Db, txs: seq<Tx>, t: nat, tx: Tx)
    requires DrawsSound(db, txs) && t < |txs| && tx.request == txs[t].request
    requires txs[t].pc.Finished? ==> tx.pc.Finished?
    ensures DrawsSound(db, txs[t := tx])
  {
  }

  lemma HoldingsReplaced(txs: seq<Tx>, t: nat, tx: Tx)
    requires t < |txs|
    ensures Holdings(txs[t := tx]) == Holdings(txs)[t := Holds(tx.pc)]
    ensures Endings(txs[t := tx]) == Endings(txs)[t := tx.pc.Ending?]
  {
  }

  lemma MatchTaken(locks: map<Resource, nat>, held: seq<set<Resource>>, ending: seq<bool>, t: nat, r: Resource)
    requires LocksMatch(locks, held, ending) && t < |held| && !ending[t]
    requires r !in locks || locks[r] == t
    ensures LocksMatch(locks[r := t], held[t := held[t] + {r}], ending)
  {
  }

  lemma LocksAfterAdvance(locks: map<Resource, nat>, txs: seq<Tx>, t: nat, e: Effect, tx: Tx)
    requires LocksSound(locks, txs) && t < |txs| && !txs[t].pc.Ending? && !tx.pc.Ending?
    requires TakesOver(e, Holds(txs[t].pc)) && tx.pc == e.pc
    requires e.Take? ==> e.resource !in locks || locks[e.resource] == t
    ensures LocksSound(if e.Take? then locks[e.resource := t] else locks, txs[t := tx])
  {
    HoldingsReplaced(txs, t, tx);
    assert Endings(txs)[t := false] == Endings(txs);
    if e.Take? {
      MatchTaken(locks, Holdings(txs), Endings(txs), t, e.resource);
    } else {
      assert Holds(tx.pc) == Holds(txs[t].pc) == Holdings(txs)[t];
      assert Holdings(txs)[t := Holds(tx.pc)] == Holdings(txs);
    }
  }

  lemma LocksAfterSettling(locks: map<Resource, nat>, txs: seq<Tx>, t: nat, tx: Tx)
    requires LocksSound(locks, txs) && t < |txs| && tx.pc.Ending?
    ensures LocksSound(locks, txs[t := tx])
  {
    HoldingsReplaced(txs, t, tx);
  }

  lemma LocksAfterEnd(locks: map<Resource, nat>, txs: seq<Tx>, t: nat, tx: Tx)
    requires LocksSound(locks, txs) && t < |txs| && tx.pc.Finished?
    ensures LocksSound(Unlocked(locks, t), txs[t := tx])
  {
    HoldingsReplaced(txs, t, tx);
  }

  /* -------------------- every action keeps the invariant -------------------- */

  lemma NeverDecides(config: FxConfig.Config, db: Db, tx: Tx)
    requires Local(config, db, tx).Stay? || Local(config, db, tx).Take?
    ensures !Decided(tx.pc) && !Decided(Local(config, db, tx).pc)
  {
  }

  lemma StepAdvances(config: FxConfig.Config, start: Db, openings: Openings, sys: Sys, t: nat)
    requires Inv(config, start, openings, sys) && Enabled(config, sys, t)
    requires Local(config, sys.db, sys.txs[t]).Stay? || Local(config, sys.db, sys.txs[t]).Take?
    ensures Inv(config, start, openings, Step(config, sys, t))
  {
    TablesSound(config, start, openings, sys);
    var old' := sys.txs[t];
    AdvanceKnows(config, sys.db, old');
    AdvanceHolds(config, sys.db, old');
    NeverDecides(config, sys.db, old');
    var e := Local(config, sys.db, old');
    var tx := Tx(old'.request, e.pc, e.own);
    LocksAfterAdvance(sys.locks, sys.txs, t, e, tx);
    KnowReplaced(config, sys.db, sys.txs, t, tx);
    DrawsReplaced(sys.db, sys.txs, t, tx);
    HistoryKeeps(config, start, sys.order, sys.txs, t, tx);
  }

  lemma SettlingInsertedNothing(config: FxConfig.Config, db: Db, tx: Tx)
    requires Knows(config, db, tx) && Local(config, db, tx).Settle?
    ensures tx.own.transfers == map[]
  {
  }

  lemma StepSettles(config: FxConfig.Config, start: Db, openings: Openings, sys: Sys, t: nat)
    requires Inv(config, start, openings, sys) && Enabled(config, sys, t)
    requires Local(config, sys.db, sys.txs[t]).Settle?
    ensures Inv(config, start, openings, Step(config, sys, t))
  {
    TablesSound(config, start, openings, sys);
    SettleMatches(config, sys.db, sys.txs[t]);
    SettlingInsertedNothing(config, sys.db, sys.txs[t]);
    var tx := sys.txs[t].(pc := Ending(Local(config, sys.db, sys.txs[t]).reply));
    RunOneMoreMark(config, start, sys.order, ByTx(t, tx.request));
    LocksAfterSettling(sys.locks, sys.txs, t, tx);
    KnowReplaced(config, sys.db, sys.txs, t, tx);
    DrawsReplaced(sys.db, sys.txs, t, tx);
    HistoryServes(config, start, sys.order, sys.txs, t, tx);
  }

  lemma OnlyEndingReleases(config: FxConfig.Config, db: Db, tx: Tx)
    requires Local(config, db, tx).Release?
    ensures tx.pc == Ending(Local(config, db, tx).reply)
  {
  }

  lemma ReleaseStep(config: FxConfig.Config, sys: Sys, t: nat)
    requires Enabled(config, sys, t) && Local(config, sys.db, sys.txs[t]).Release?
    ensures sys.txs[t].pc.Ending?
    ensures Step(config, sys, t) ==
            Sys(sys.db, Unlocked(sys.locks, t),
                sys.txs[t := Tx(sys.txs[t].request, Finished(sys.txs[t].pc.reply), EMPTY)], sys.order)
  {
  }

  lemma StepReleases(config: FxConfig.Config, start: Db, openings: Openings, sys: Sys, t: nat)
    requires Inv(config, start, openings, sys) && Enabled(config, sys, t)
    requires Local(config, sys.db, sys.txs[t]).Release?
    ensures Inv(config, start, openings, Step(config, sys, t))
  {
    OnlyEndingReleases(config, sys.db, sys.txs[t]);
    var tx := Tx(sys.txs[t].request, Finished(sys.txs[t].pc.reply), EMPTY);
    ReleaseStep(config, sys, t);
    LocksAfterEnd(sys.locks, sys.txs, t, tx);
    KnowReplaced(config, sys.db, sys.txs, t, tx);
    DrawsReplaced(sys.db, sys.txs, t, tx);
    HistoryKeeps(config, start, sys.order, sys.txs, t, tx);
  }

  /* -------------------- commits -------------------- */

  // The rows a plan inserts carry the UUIDs its request drew.
  lemma PlanDraws(config: FxConfig.Config, db: Db, req: Request, job: Job)
    requires Work(config, db, req, job).Ok?
    ensures var plan := Work(config, db, req, job).value;
            plan.id == req.id && (plan.MovePlan? ==> plan.debitId == req.debitId && plan.creditId == req.creditId)
  {
  }

  ghost predicate Commits(config: FxConfig.Config, db: Db, tx: Tx) {
    && tx.pc.Write? && Knows(config, db, tx) && Unused(db, tx.request)
    && tx.request.debitId != tx.request.creditId && tx.pc.next == Statements(tx.pc.plan)
  }

  lemma CommitsFresh(config: FxConfig.Config, db: Db, tx: Tx)
    requires Commits(config, db, tx)
    ensures Fresh(db, tx.pc.plan) && Feasible(db, tx.pc.plan)
  {
    PlanDraws(config, db, tx.request, tx.pc.k.job);
  }

  // The rows a transaction commits are those of the whole request run at that moment.
  lemma CommitMatches(config: FxConfig.Config, db: Db, tx: Tx)
    requires Commits(config, db, tx) && Fresh(db, tx.pc.plan) && Feasible(db, tx.pc.plan)
    ensures Overlay(db, tx.own) == Commit(db, tx.pc.k, tx.pc.plan)
    ensures Apply(config, db, tx.request) ==
            Outcome(Overlay(db, tx.own), Success(tx.pc.plan.completion.status, tx.pc.plan.completion.body))
  {
    OverlayWritten(db, tx.pc.k, tx.pc.plan);
  }

  lemma MatchApart(locks: map<Resource, nat>, held: seq<set<Resource>>, ending: seq<bool>, t: nat, u: nat)
    requires LocksMatch(locks, held, ending) && t < |held| && u < |held| && t != u
    ensures held[u] !! held[t]
  {
    forall r | r in held[u] ensures r !in held[t] {
      assert locks[r] == u;
    }
  }

  lemma HeldApart(locks: map<Resource, nat>, txs: seq<Tx>, t: nat, u: nat)
    requires LocksSound(locks, txs) && t < |txs| && u < |txs| && t != u
    ensures Holds(txs[u].pc) !! Holds(txs[t].pc)
  {
    MatchApart(locks, Holdings(txs), Endings(txs), t, u);
  }

  lemma OthersKnow(config: FxConfig.Config, db: Db, after: Db, locks: map<Resource, nat>, txs: seq<Tx>, t: nat, tx: Tx)
    requires AllKnow(config, db, txs) && LocksSound(locks, txs) && t < |txs|
    requires tx.pc.Finished? && tx.own == EMPTY
    requires Spares(db, after, Holds(txs[t].pc))
    ensures AllKnow(config, after, txs[t := tx])
  {
    forall u | 0 <= u < |txs| && u != t ensures Knows(config, after, txs[u]) {
      HeldApart(locks, txs, t, u);
      KnowsStable(config, db, after, Holds(txs[t].pc), txs[u]);
    }
  }

  // The tables grew by no more than the UUIDs a request drew.
  ghost predicate GrewBy(db: Db, after: Db, req: Request) {
    && after.accounts.Keys <= db.accounts.Keys + {req.id} && after.transfers.Keys <= db.transfers.Keys + {req.id}
    && after.entries.Keys <= db.entries.Keys + {req.debitId, req.creditId}
  }

  lemma CommitGrewBy(db: Db, k: Keyed, plan: Plan, req: Request)
    requires Feasible(db, plan) && plan.id == req.id
    requires plan.MovePlan? ==> plan.debitId == req.debitId && plan.creditId == req.creditId
    ensures GrewBy(db, Commit(db, k, plan), req)
  {
  }

  lemma StillUnused(db: Db, after: Db, req: Request, other: Request)
    requires GrewBy(db, after, req) && Unused(db, other) && Apart(req, other)
    ensures Unused(after, other)
  {
  }

  lemma DrawsAfterCommit(db: Db, after: Db, txs: seq<Tx>, t: nat, tx: Tx)
    requires DrawsSound(db, txs) && t < |txs| && tx.request == txs[t].request && tx.pc.Finished?
    requires GrewBy(db, after, tx.request)
    ensures DrawsSound(after, txs[t := tx])
  {
    forall u | 0 <= u < |txs| && u != t && !txs[u].pc.Finished? ensures Unused(after, txs[u].request) {
      StillUnused(db, after, txs[t].request, txs[u].request);
    }
  }

  lemma OnlyWritesCommit(config: FxConfig.Config, db: Db, tx: Tx)
    requires Knows(config, db, tx) && Local(config, db, tx).CommitOwn?
    ensures tx.pc.Write? && tx.pc.next == Statements(tx.pc.plan)
    ensures Local(config, db, tx).reply == Success(tx.pc.plan.completion.status, tx.pc.plan.completion.body)
  {
  }

  lemma CommitsWithin(config: FxConfig.Config, db: Db, tx: Tx)
    requires Commits(config, db, tx)
    ensures tx.pc.k.key !in db.records && Holds(tx.pc) == PlanLocks(tx.pc.k, tx.pc.plan)
    ensures tx.pc.plan.MovePlan? ==> tx.pc.plan.transfer.source != tx.pc.plan.transfer.destination
  {
  }

  lemma CommitDraws(config: FxConfig.Config, db: Db, tx: Tx)
    requires Commits(config, db, tx)
    ensures var plan, req := tx.pc.plan, tx.request;
            plan.id == req.id && (plan.MovePlan? ==> plan.debitId == req.debitId && plan.creditId == req.creditId)
  {
    PlanDraws(config, db, tx.request, tx.pc.k.job);
  }

  // What the step of a committing transaction leaves alone.
  lemma CommitStaysWithin(config: FxConfig.Config, db: Db, tx: Tx)
    requires Commits(config, db, tx) && Fresh(db, tx.pc.plan) && Feasible(db, tx.pc.plan)
    ensures Spares(db, Commit(db, tx.pc.k, tx.pc.plan), Holds(tx.pc))
  {
    CommitsWithin(config, db, tx);
    CommitSpares(db, tx.pc.k, tx.pc.plan);
  }

  lemma CommitAddsOwn(config: FxConfig.Config, db: Db, tx: Tx)
    requires Commits(config, db, tx) && Feasible(db, tx.pc.plan)
    ensures GrewBy(db, Commit(db, tx.pc.k, tx.pc.plan), tx.request)
  {
    CommitDraws(config, db, tx);
    CommitGrewBy(db, tx.pc.k, tx.pc.plan, tx.request);
  }

  lemma StepCommits(config: FxConfig.Config, start: Db, openings: Openings, sys: Sys, t: nat)
    requires Inv(config, start, openings, sys) && Enabled(config, sys, t)
    requires Local(config, sys.db, sys.txs[t]).CommitOwn?
    ensures Inv(config, start, openings, Step(config, sys, t))
  {
    var was := sys.txs[t];
    OnlyWritesCommit(config, sys.db, was);
    CommitsFresh(config, sys.db, was);
    CommitMatches(config, sys.db, was);
    CommitStaysWithin(config, sys.db, was);
    CommitAddsOwn(config, sys.db, was);
    var after := Overlay(sys.db, was.own);
    var tx := Tx(was.request, Finished(Local(config, sys.db, was).reply), EMPTY);
    RunOneMoreMark(config, start, sys.order, ByTx(t, tx.request));
    LocksAfterEnd(sys.locks, sys.txs, t, tx);
    OthersKnow(config, sys.db, after, sys.locks, sys.txs, t, tx);
    DrawsAfterCommit(sys.db, after, sys.txs, t, tx);
    HistoryServes(config, start, sys.order, sys.txs, t, tx);
  }

  lemma UnlockedUnheld(locks: map<Resource, nat>, txs: seq<Tx>, r: Resource, u: nat)
    requires LocksSound(locks, txs) && r !in locks && u < |txs|
    ensures r !in Holds(txs[u].pc)
  {
    assert Holdings(txs)[u] == Holds(txs[u].pc);
  }

  lemma OperatorSpares(config: FxConfig.Config, sys: Sys, account: Id, active: bool)
    requires AllKnow(config, sys.db, sys.txs) && LocksSound(sys.locks, sys.txs) && CanOperate(sys, account)
    ensures AllKnow(config, WithStatus(sys.db, account, active), sys.txs)
  {
    var after := WithStatus(sys.db, account, active);
    StatusSpares(sys.db, account, active);
    forall u | 0 <= u < |sys.txs| ensures Knows(config, after, sys.txs[u]) {
      UnlockedUnheld(sys.locks, sys.txs, AccountRow(account), u);
      KnowsStable(config, sys.db, after, {AccountRow(account)}, sys.txs[u]);
    }
  }

  lemma OperateKeeps(config: FxConfig.Config, start: Db, openings: Openings, sys: Sys, account: Id, active: bool)
    requires Inv(config, start, openings, sys) && CanOperate(sys, account)
    ensures Inv(config, start, openings, Operate(sys, account, active))
  {
    RunOneMoreMark(config, start, sys.order, ByOperator(account, active));
    OperatorSpares(config, sys, account, active);
    HistoryOperates(config, start, sys.order, sys.txs, account, active);
  }

  lemma ActKeeps(config: FxConfig.Config, start: Db, openings: Openings, sys: Sys, action: Action)
    requires Inv(config, start, openings, sys) && Possible(config, sys, action)
    ensures Inv(config, start, openings, Act(config, sys, action))
  {
    match action
    case Administer(account, active) => OperateKeeps(config, start, openings, sys, account, active);
    case Advance(t) =>
      match Local(config, sys.db, sys.txs[t]) {
        case Stay(_, _) => StepAdvances(config, start, openings, sys, t);
        case Take(_, _, _) => StepAdvances(config, start, openings, sys, t);
        case Settle(_) => StepSettles(config, start, openings, sys, t);
        case CommitOwn(_) => StepCommits(config, start, openings, sys, t);
        case Release(_) => StepReleases(config, start, openings, sys, t);
        case Nothing =>
      }
  }

  /* -------------------- runs -------------------- */

  // The requests of a run draw UUIDs that are unused at its start and different from each other.
  ghost predicate Drawn(db: Db, requests: seq<Request>) {
    && (forall t :: 0 <= t < |requests| ==> Unused(db, requests[t]) && requests[t].debitId != requests[t].creditId)
    && (forall t, u :: 0 <= t < |requests| && 0 <= u < |requests| && t != u ==> Apart(requests[t], requests[u]))
  }

  // A run of all the requests, from sound tables.
  ghost predicate IsExecution(
      config: FxConfig.Config, start: Db, openings: Openings, requests: seq<Request>, states: seq<Sys>, actions: seq<Action>)
  {
    && Sound(start, openings) && Drawn(start, requests)
    && IsRun(config, states, actions) && states[0] == Start(start, requests)
  }

  lemma StartKeeps(config: FxConfig.Config, start: Db, openings: Openings, requests: seq<Request>)
    requires Sound(start, openings) && Drawn(start, requests)
    ensures Inv(config, start, openings, Start(start, requests))
  {
    var txs := Start(start, requests).txs;
    forall t | 0 <= t < |txs| ensures txs[t] == Tx(requests[t], Begin, EMPTY) {
    }
  }

  lemma {:induction false} ExecutionKeeps(
      config: FxConfig.Config, start: Db, openings: Openings, requests: seq<Request>,
      states: seq<Sys>, actions: seq<Action>, i: nat)
    requires IsExecution(config, start, openings, requests, states, actions) && i < |states|
    ensures Inv(config, start, openings, states[i])
  {
    if i == 0 {
      StartKeeps(config, start, openings, requests);
    } else {
      ExecutionKeeps(config, start, openings, requests, states, actions, i - 1);
      ActKeeps(config, start, openings, states[i - 1], actions[i - 1]);
    }
  }

  lemma ActKeepsRequests(config: FxConfig.Config, sys: Sys, action: Action)
    requires Possible(config, sys, action)
    ensures var after := Act(config, sys, action);
            && |after.txs| == |sys.txs|
            && forall t :: 0 <= t < |sys.txs| ==> after.txs[t].request == sys.txs[t].request
  {
  }

  lemma {:induction false} RequestsStay(
      config: FxConfig.Config, start: Db, openings: Openings, requests: seq<Request>,
      states: seq<Sys>, actions: seq<Action>, i: nat)
    requires IsExecution(config, start, openings, requests, states, actions) && i < |states|
    ensures |states[i].txs| == |requests|
    ensures forall t :: 0 <= t < |requests| ==> states[i].txs[t].request == requests[t]
  {
    if i > 0 {
      RequestsStay(config, start, openings, requests, states, actions, i - 1);
      ActKeepsRequests(config, states[i - 1], actions[i - 1]);
    }
  }

  // Request t took effect at place p of the order, and the reply is the one it gets there.
  ghost predicate TookEffect(
      config: FxConfig.Config, start: Db, order: seq<Mark>, t: nat, request: Request, reply: Reply, p: nat)
  {
    && p < |order| && order[p] == ByTx(t, request)
    && reply == Apply(config, Run(config, start, Events(order[..p])), request).reply
  }

  // In every state of every execution the committed tables are those of a serial run of the
  // requests decided so far, each once; every client's reply is the serial one.
  lemma Serializable(
      config: FxConfig.Config, start: Db, openings: Openings, requests: seq<Request>,
      states: seq<Sys>, actions: seq<Action>, i: nat)
    requires IsExecution(config, start, openings, requests, states, actions) && i < |states|
    ensures var sys := states[i];
            && sys.db == Run(config, start, Events(sys.order))
            && |sys.txs| == |requests|
            && (forall t :: 0 <= t < |requests| && sys.txs[t].pc.Finished? ==>
                  exists p :: TookEffect(config, start, sys.order, t, requests[t], sys.txs[t].pc.reply, p))
            && (forall p, q | 0 <= p < q < |sys.order| && sys.order[p].ByTx? && sys.order[q].ByTx? ::
                  sys.order[p].t != sys.order[q].t)
            && (forall p :: 0 <= p < |sys.order| && sys.order[p].ByTx? ==>
                  sys.order[p].t < |requests| && sys.order[p].request == requests[sys.order[p].t])
  {
    ExecutionKeeps(config, start, openings, requests, states, actions, i);
    RequestsStay(config, start, openings, requests, states, actions, i);
    var sys := states[i];
    forall t | 0 <= t < |requests| && sys.txs[t].pc.Finished?
      ensures exists p :: TookEffect(config, start, sys.order, t, requests[t], sys.txs[t].pc.reply, p)
    {
      var p :| ServedAt(config, start, sys.order, t, sys.txs[t], p);
      assert TookEffect(config, start, sys.order, t, requests[t], sys.txs[t].pc.reply, p);
    }
  }

  lemma {:induction false} EventsPrefix(order: seq<Mark>, p: nat)
    requires p <= |order|
    ensures Events(order[..p]) == Events(order)[..p]
    ensures p < |order| ==> Events(order)[p] == EventOf(order[p])
  {
    var n := |order| - 1;
    if p < n {
      EventsPrefix(order[..n], p);
      assert order[..n][..p] == order[..p];
    } else if p == n {
      assert Events(order)[..n] == Events(order[..n]);
    } else {
      assert order[..p] == order;
    }
  }

  // Of all requests under one key only the first to succeed has an effect, whatever the
  // interleaving: a later one gets its reply, or a conflict if it asks for something else, and
  // leaves the tables alone.
  lemma OneEffectPerKey(
      config: FxConfig.Config, start: Db, openings: Openings, requests: seq<Request>,
      states: seq<Sys>, actions: seq<Action>, i: nat, t: nat, u: nat, p: nat, q: nat,
      key: RecordKey, asked: Fingerprint, other: Fingerprint)
    requires IsExecution(config, start, openings, requests, states, actions) && i < |states|
    requires t < |requests| && t < |states[i].txs| && states[i].txs[t].pc.Finished?
    requires u < |requests| && u < |states[i].txs| && states[i].txs[u].pc.Finished?
    requires TookEffect(config, start, states[i].order, t, requests[t], states[i].txs[t].pc.reply, p)
    requires TookEffect(config, start, states[i].order, u, requests[u], states[i].txs[u].pc.reply, q)
    requires p < q && states[i].txs[t].pc.reply.Success?
    requires Asks(Run(config, start, Events(states[i].order[..p])), Serve(requests[t]), key, asked)
    requires Asks(Run(config, start, Events(states[i].order[..q])), Serve(requests[u]), key, other)
    ensures states[i].txs[u].pc.reply ==
            if asked == other then states[i].txs[t].pc.reply else Failure(IdempotencyConflict)
    ensures Run(config, start, Events(states[i].order[..q + 1])) == Run(config, start, Events(states[i].order[..q]))
  {
    LaterMarkAnswered(config, start, states[i].order, t, u, requests[t], requests[u], p, q, key, asked, other);
  }

  lemma LaterMarkAnswered(
      config: FxConfig.Config, start: Db, order: seq<Mark>, t: nat, u: nat, first: Request, later: Request,
      p: nat, q: nat, key: RecordKey, asked: Fingerprint, other: Fingerprint)
    requires p < q < |order| && order[p] == ByTx(t, first) && order[q] == ByTx(u, later)
    requires Succeeds(config, Run(config, start, Events(order[..p])), Serve(first))
    requires Asks(Run(config, start, Events(order[..p])), Serve(first), key, asked)
    requires Asks(Run(config, start, Events(order[..q])), Serve(later), key, other)
    ensures var now := Run(config, start, Events(order[..q]));
            && Apply(config, now, later) ==
               Outcome(now, if asked == other then Apply(config, Run(config, start, Events(order[..p])), first).reply
                            else Failure(IdempotencyConflict))
            && Run(config, start, Events(order[..q + 1])) == now
  {
    var events := Events(order);
    MarkAsks(config, start, order, p, first, key, asked);
    MarkAsks(config, start, order, q, later, key, other);
    LaterAnswer(config, start, events, p, q, key, asked, other);
    MarkServes(config, start, order, q, later);
  }

  lemma MarkAsks(
      config: FxConfig.Config, start: Db, order: seq<Mark>, p: nat, request: Request, key: RecordKey, asked: Fingerprint)
    requires p < |order| && EventOf(order[p]) == Serve(request)
    requires Asks(Run(config, start, Events(order[..p])), Serve(request), key, asked)
    ensures Events(order)[p] == Serve(request)
    ensures Run(config, start, Events(order)[..p]) == Run(config, start, Events(order[..p]))
    ensures AsksAt(config, start, Events(order), p, key, asked)
  {
    EventsPrefix(order, p);
  }

  lemma MarkServes(config: FxConfig.Config, start: Db, order: seq<Mark>, q: nat, later: Request)
    requires q < |order| && EventOf(order[q]) == Serve(later)
    ensures Run(config, start, Events(order[..q + 1])) ==
            Apply(config, Run(config, start, Events(order[..q])), later).db
  {
    assert order[..q + 1] == order[..q] + [order[q]];
    RunOneMoreMark(config, start, order[..q], order[q]);
  }

  // Every ledger invariant holds of the committed tables in every concurrent state: no balance
  // update is lost, no incomplete record is committed, no transfer is reversed twice.
  lemma AlwaysSound(
      config: FxConfig.Config, start: Db, openings: Openings, requests: seq<Request>,
      states: seq<Sys>, actions: seq<Action>, i: nat)
    requires IsExecution(config, start, openings, requests, states, actions) && i < |states|
    ensures Sound(states[i].db, OpeningsAfter(config, start, openings, Events(states[i].order)))
  {
    ExecutionKeeps(config, start, openings, requests, states, actions, i);
    TablesSound(config, start, openings, states[i]);
  }

  // No client ever sees the `expect` or the `unreachable!` on an incomplete record.
  lemma NobodyPanics(
      config: FxConfig.Config, start: Db, openings: Openings, requests: seq<Request>,
      states: seq<Sys>, actions: seq<Action>, i: nat, t: nat)
    requires IsExecution(config, start, openings, requests, states, actions) && i < |states|
    requires t < |states[i].txs| && states[i].txs[t].pc.Finished?
    ensures states[i].txs[t].pc.reply != Panicked
  {
    Serializable(config, start, openings, requests, states, actions, i);
    var order := states[i].order;
    var p: nat :| TookEffect(config, start, order, t, requests[t], states[i].txs[t].pc.reply, p);
    RunKeepsSound(config, start, openings, Events(order[..p]));
    NeverPanics(config, Run(config, start, Events(order[..p])),
                OpeningsAfter(config, start, openings, Events(order[..p])), requests[t]);
  }

  lemma {:induction false} OrderGrows(config: FxConfig.Config, states: seq<Sys>, actions: seq<Action>, i: nat, j: nat)
    requires IsRun(config, states, actions) && i <= j < |states|
    ensures states[i].order <= states[j].order
  {
    if i < j {
      OrderGrows(config, states, actions, i, j - 1);
      assert states[j - 1].order <= Act(config, states[j - 1], actions[j - 1]).order;
    }
  }

  predicate MarksAt(order: seq<Mark>, t: nat, p: nat) {
    p < |order| && order[p].ByTx? && order[p].t == t
  }

  lemma MarkedEarlier(order: seq<Mark>, later: seq<Mark>, txs: seq<Tx>, after: seq<Tx>, t: nat, u: nat, p: nat, q: nat)
    requires order <= later && MarkedOnce(order, txs) && MarkedOnce(later, after)
    requires t < |txs| && u < |txs| && !Decided(txs[u].pc)
    requires exists p' :: MarksAt(order, t, p')
    requires MarksAt(later, t, p) && MarksAt(later, u, q)
    ensures p < q
  {
    var p': nat :| MarksAt(order, t, p');
    assert later[p'] == order[p'];
    assert p == p';
    assert forall x :: 0 <= x < |order| ==> later[x] == order[x];
  }

  // The serial order respects real time: a request answered before another one begins comes first.
  lemma RealTimeOrder(
      config: FxConfig.Config, start: Db, openings: Openings, requests: seq<Request>,
      states: seq<Sys>, actions: seq<Action>, i: nat, j: nat, t: nat, u: nat, p: nat, q: nat)
    requires IsExecution(config, start, openings, requests, states, actions) && i <= j < |states|
    requires t < |states[i].txs| && states[i].txs[t].pc.Finished?
    requires u < |states[i].txs| && states[i].txs[u].pc.Begin?
    requires MarksAt(states[j].order, t, p) && MarksAt(states[j].order, u, q)
    ensures p < q
  {
    OrderGrows(config, states, actions, i, j);
    ExecutionMarksOnce(config, start, openings, requests, states, actions, i);
    ExecutionMarksOnce(config, start, openings, requests, states, actions, j);
    FinishedIsMarked(config, start, openings, requests, states, actions, i, t);
    MarkedEarlier(states[i].order, states[j].order, states[i].txs, states[j].txs, t, u, p, q);
  }

  lemma ExecutionMarksOnce(
      config: FxConfig.Config, start: Db, openings: Openings, requests: seq<Request>,
      states: seq<Sys>, actions: seq<Action>, i: nat)
    requires IsExecution(config, start, openings, requests, states, actions) && i < |states|
    ensures MarkedOnce(states[i].order, states[i].txs)
  {
    ExecutionKeeps(config, start, openings, requests, states, actions, i);
  }

  lemma FinishedIsMarked(
      config: FxConfig.Config, start: Db, openings: Openings, requests: seq<Request>,
      states: seq<Sys>, actions: seq<Action>, i: nat, t: nat)
    requires IsExecution(config, start, openings, requests, states, actions) && i < |states|
    requires t < |states[i].txs| && states[i].txs[t].pc.Finished?
    ensures exists p :: MarksAt(states[i].order, t, p)
  {
    ExecutionKeeps(config, start, openings, requests, states, actions, i);
    DecidedIsMarked(config, start, states[i].order, states[i].txs, t);
  }

  lemma DecidedIsMarked(config: FxConfig.Config, start: Db, order: seq<Mark>, txs: seq<Tx>, t: nat)
    requires Answered(config, start, order, txs) && t < |txs| && Decided(txs[t].pc)
    ensures exists p :: MarksAt(order, t, p)
  {
    var p: nat :| ServedAt(config, start, order, t, txs[t], p);
    ServedMarks(config, start, order, t, txs[t], p);
  }

  lemma ServedMarks(config: FxConfig.Config, start: Db, order: seq<Mark>, t: nat, tx: Tx, p: nat)
    requires ServedAt(config, start, order, t, tx, p)
    ensures MarksAt(order, t, p)
  {
  }

  lemma OwnReversalsHeld(config: FxConfig.Config, db: Db, tx: Tx, r: Id, o: Id)
    requires Knows(config, db, tx) && r in tx.own.transfers && tx.own.transfers[r].reverses == Some(o)
    ensures TransferRow(o) in Holds(tx.pc)
  {
  }

  lemma CheckedUnreversed(config: FxConfig.Config, db: Db, tx: Tx, o: Id)
    requires Knows(config, db, tx) && tx.pc.Write? && tx.pc.plan.MovePlan? && tx.pc.plan.transfer.reverses == Some(o)
    ensures !Reversed(db.transfers, o) && TransferRow(o) in Holds(tx.pc)
  {
    if !tx.pc.k.job.Open? {
      WorkShape(config, db, tx.request, tx.pc.k);
    }
  }

  // When a reversal is about to be inserted, no committed row and no row that any other transaction
  // has written reverses the same original: the row lock and the check alone see to it, and the
  // unique index never rejects.
  lemma UniqueIndexNeverRejects(
      config: FxConfig.Config, start: Db, openings: Openings, requests: seq<Request>,
      states: seq<Sys>, actions: seq<Action>, i: nat, t: nat, o: Id)
    requires IsExecution(config, start, openings, requests, states, actions) && i < |states|
    requires t < |states[i].txs| && states[i].txs[t].pc.Write?
    requires states[i].txs[t].pc.plan.MovePlan? && states[i].txs[t].pc.plan.transfer.reverses == Some(o)
    ensures !Reversed(states[i].db.transfers, o)
    ensures forall u :: 0 <= u < |states[i].txs| && u != t ==> !Reversed(states[i].txs[u].own.transfers, o)
  {
    ExecutionKeeps(config, start, openings, requests, states, actions, i);
    var sys := states[i];
    CheckedUnreversed(config, sys.db, sys.txs[t], o);
    forall u | 0 <= u < |sys.txs| && u != t ensures !Reversed(sys.txs[u].own.transfers, o) {
      HeldApart(sys.locks, sys.txs, t, u);
      forall r | r in sys.txs[u].own.transfers && sys.txs[u].own.transfers[r].reverses == Some(o) ensures false {
        OwnReversalsHeld(config, sys.db, sys.txs[u], r, o);
      }
    }
  }
}
