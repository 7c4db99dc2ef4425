/** The interleaved transactions never deadlock and always come to an end. Every transaction takes
    its key, then the original transfer's row, then account rows by ascending id
    (src/api/transfers.rs, src/api/reversals.rs). */
module ProtocolLiveness {
  import opened Common
  import opened Ledger
  import opened LedgerInvariants
  import opened Protocol
  import opened ProtocolSafety
  import opened Serializability
  import FxConfig

  /* -------------------- the order of acquisition -------------------- */

  function Class(r: Resource): nat {
    match r
    case KeyOf(_) => 0
    case TransferRow(_) => 1
    case AccountRow(_) => 2
  }

  predicate Below(r: Resource, s: Resource) {
    Class(r) < Class(s) || (r.AccountRow? && s.AccountRow? && r.account < s.account)
  }

  // The transaction's next step asks for r.
  predicate Wants(config: FxConfig.Config, db: Db, tx: Tx, r: Resource) {
    Local(config, db, tx).Take? && Local(config, db, tx).resource == r
  }

  // t cannot step because u has the lock it wants.
  predicate WaitsFor(config: FxConfig.Config, sys: Sys, t: nat, u: nat) {
    t < |sys.txs| && t != u &&
    match Local(config, sys.db, sys.txs[t])
    case Take(r, _, _) => r in sys.locks && sys.locks[r] == u
    case _ => false
  }

  function Wanted(config: FxConfig.Config, sys: Sys, t: nat, u: nat): Resource
    requires WaitsFor(config, sys, t, u)
  {
    Local(config, sys.db, sys.txs[t]).resource
  }

  // A transaction only asks for what lies above everything it holds.
  lemma AsksUpwards(config: FxConfig.Config, db: Db, tx: Tx, held: Resource, r: Resource)
    requires Knows(config, db, tx) && Wants(config, db, tx, r) && held in Holds(tx.pc)
    ensures Below(held, r)
  {
    match tx.pc {
      case LockOriginal(_) =>
      case LockLower(_, _) =>
      case LockUpper(k, basis, _) => assert Lower(k, basis) < Upper(k, basis);
      case _ =>
    }
  }

  lemma OnlyUnfinishedHold(locks: map<Resource, nat>, txs: seq<Tx>, r: Resource)
    requires LocksSound(locks, txs) && r in locks
    ensures locks[r] < |txs| && (txs[locks[r]].pc.Ending? || r in Holds(txs[locks[r]].pc))
  {
    assert Holdings(txs)[locks[r]] == Holds(txs[locks[r]].pc);
    assert Endings(txs)[locks[r]] == txs[locks[r]].pc.Ending?;
  }

  // Whoever is waited for and itself waits, waits for something higher.
  lemma WaitsUpwards(config: FxConfig.Config, sys: Sys, t: nat, u: nat, v: nat)
    requires AllKnow(config, sys.db, sys.txs) && LocksSound(sys.locks, sys.txs)
    requires WaitsFor(config, sys, t, u) && WaitsFor(config, sys, u, v)
    ensures Below(Wanted(config, sys, t, u), Wanted(config, sys, u, v))
  {
    OnlyUnfinishedHold(sys.locks, sys.txs, Wanted(config, sys, t, u));
    AsksUpwards(config, sys.db, sys.txs[u], Wanted(config, sys, t, u), Wanted(config, sys, u, v));
  }

  ghost predicate WaitChain(config: FxConfig.Config, sys: Sys, path: seq<nat>) {
    forall i :: 0 <= i < |path| - 1 ==> WaitsFor(config, sys, path[i], path[i + 1])
  }

  lemma {:induction false} ChainAscends(config: FxConfig.Config, sys: Sys, path: seq<nat>, n: nat)
    requires AllKnow(config, sys.db, sys.txs) && LocksSound(sys.locks, sys.txs)
    requires WaitChain(config, sys, path) && 0 < n < |path| - 1
    ensures Below(Wanted(config, sys, path[0], path[1]), Wanted(config, sys, path[n], path[n + 1]))
  {
    WaitsUpwards(config, sys, path[n - 1], path[n], path[n + 1]);
    if n > 1 {
      ChainAscends(config, sys, path, n - 1);
    }
  }

  // In no reachable state do transactions wait for each other in a circle.
  lemma NoDeadlock(
      config: FxConfig.Config, start: Db, openings: Openings, requests: seq<Request>,
      states: seq<Sys>, actions: seq<Action>, i: nat, path: seq<nat>)
    requires IsExecution(config, start, openings, requests, states, actions) && i < |states|
    requires |path| >= 2 && WaitChain(config, states[i], path)
    ensures path[0] != path[|path| - 1]
  {
    ExecutionKeeps(config, start, openings, requests, states, actions, i);
    if |path| > 2 && path[0] == path[|path| - 1] {
      var n := |path| - 2;
      ChainAscends(config, states[i], path, n);
      WaitsUpwards(config, states[i], path[n], path[n + 1], path[1]);
    }
  }

  /* -------------------- progress -------------------- */

  // The transactions that want something above r.
  ghost function Above(config: FxConfig.Config, sys: Sys, r: Resource): set<nat> {
    set t | 0 <= t < |sys.txs| && Local(config, sys.db, sys.txs[t]).Take?
            && Below(r, Local(config, sys.db, sys.txs[t]).resource)
  }

  lemma AboveShrinks(config: FxConfig.Config, sys: Sys, t: nat, u: nat, v: nat)
    requires WaitsFor(config, sys, t, u) && WaitsFor(config, sys, u, v)
    requires Below(Wanted(config, sys, t, u), Wanted(config, sys, u, v))
    ensures Above(config, sys, Wanted(config, sys, u, v)) < Above(config, sys, Wanted(config, sys, t, u))
  {
    assert u in Above(config, sys, Wanted(config, sys, t, u));
    assert u !in Above(config, sys, Wanted(config, sys, u, v));
  }

  lemma StuckWaits(config: FxConfig.Config, sys: Sys, t: nat) returns (u: nat)
    requires LocksSound(sys.locks, sys.txs)
    requires t < |sys.txs| && !sys.txs[t].pc.Finished? && !Enabled(config, sys, t)
    ensures WaitsFor(config, sys, t, u) && u < |sys.txs| && !sys.txs[u].pc.Finished?
  {
    var r := Local(config, sys.db, sys.txs[t]).resource;
    u := sys.locks[r];
    OnlyUnfinishedHold(sys.locks, sys.txs, r);
  }

  // Following who waits for whom leads to a transaction that can step.
  lemma {:induction false} Follow(config: FxConfig.Config, sys: Sys, t: nat, u: nat) returns (v: nat)
    requires AllKnow(config, sys.db, sys.txs) && LocksSound(sys.locks, sys.txs)
    requires WaitsFor(config, sys, t, u) && u < |sys.txs| && !sys.txs[u].pc.Finished?
    ensures Enabled(config, sys, v)
    decreases Above(config, sys, Wanted(config, sys, t, u))
  {
    if Enabled(config, sys, u) {
      v := u;
    } else {
      var w := StuckWaits(config, sys, u);
      WaitsUpwards(config, sys, t, u, w);
      AboveShrinks(config, sys, t, u, w);
      v := Follow(config, sys, u, w);
    }
  }

  lemma SomeCanStep(config: FxConfig.Config, sys: Sys, t: nat) returns (v: nat)
    requires AllKnow(config, sys.db, sys.txs) && LocksSound(sys.locks, sys.txs)
    requires t < |sys.txs| && !sys.txs[t].pc.Finished?
    ensures Enabled(config, sys, v)
  {
    if Enabled(config, sys, t) {
      v := t;
    } else {
      var u := StuckWaits(config, sys, t);
      v := Follow(config, sys, t, u);
    }
  }

  // In every reachable state with an unfinished transaction, some transaction can step.
  lemma Progress(
      config: FxConfig.Config, start: Db, openings: Openings, requests: seq<Request>,
      states: seq<Sys>, actions: seq<Action>, i: nat, t: nat)
    requires IsExecution(config, start, openings, requests, states, actions) && i < |states|
    requires t < |states[i].txs| && !states[i].txs[t].pc.Finished?
    ensures exists v :: Enabled(config, states[i], v)
  {
    ExecutionKeeps(config, start, openings, requests, states, actions, i);
    var v := SomeCanStep(config, states[i], t);
  }

  /* -------------------- termination -------------------- */

  const MAX_STEPS: nat := 16

  // An upper bound on the steps a transaction still has to take.
  function StepsLeft(pc: Pc): (n: nat)
    ensures n <= MAX_STEPS && (n == 0 <==> pc.Finished?)
  {
    match pc
    case Begin => 16
    case FastPath(_) => 15
    case Reserve(_) => 14
    case Reread(_) => 2
    case ReadConfiguration(_) => 11
    case LockOriginal(_) => 13
    case CheckOwner(_, _) => 12
    case CheckReversed(_, _) => 11
    case LockLower(_, _) => 10
    case LockUpper(_, _, _) => 9
    case Decide(_, _, _, _) => 8
    case Write(_, plan, n) => if n <= Statements(plan) then Statements(plan) + 1 - n else 1
    case Ending(_) => 1
    case Finished(_) => 0
  }

  function TotalLeft(txs: seq<Tx>): nat {
    if txs == [] then 0 else TotalLeft(txs[..|txs| - 1]) + StepsLeft(txs[|txs| - 1].pc)
  }

  lemma {:induction false} TotalReplaced(txs: seq<Tx>, t: nat, tx: Tx)
    requires t < |txs|
    ensures TotalLeft(txs[t := tx]) == TotalLeft(txs) - StepsLeft(txs[t].pc) + StepsLeft(tx.pc)
  {
    var n := |txs| - 1;
    if t < n {
      TotalReplaced(txs[..n], t, tx);
      assert txs[t := tx][..n] == txs[..n][t := tx];
    } else {
      assert txs[t := tx][..n] == txs[..n];
    }
  }

  lemma MovesOn(config: FxConfig.Config, db: Db, tx: Tx)
    requires Local(config, db, tx).Stay? || Local(config, db, tx).Take?
    ensures StepsLeft(Local(config, db, tx).pc) < StepsLeft(tx.pc)
  {
  }

  lemma Ends(config: FxConfig.Config, db: Db, tx: Tx)
    ensures Local(config, db, tx).Settle? ==> StepsLeft(tx.pc) > 1
    ensures Local(config, db, tx).CommitOwn? || Local(config, db, tx).Release? ==> StepsLeft(tx.pc) > 0
  {
  }

  lemma StepsLeftAfter(config: FxConfig.Config, sys: Sys, t: nat)
    requires Enabled(config, sys, t)
    ensures var after := Step(config, sys, t);
            && |after.txs| == |sys.txs| && after.txs == sys.txs[t := after.txs[t]]
            && StepsLeft(after.txs[t].pc) < StepsLeft(sys.txs[t].pc)
  {
    Ends(config, sys.db, sys.txs[t]);
    if Local(config, sys.db, sys.txs[t]).Stay? || Local(config, sys.db, sys.txs[t]).Take? {
      MovesOn(config, sys.db, sys.txs[t]);
    }
  }

  lemma StepDecreases(config: FxConfig.Config, sys: Sys, t: nat)
    requires Enabled(config, sys, t)
    ensures TotalLeft(Step(config, sys, t).txs) < TotalLeft(sys.txs)
  {
    StepsLeftAfter(config, sys, t);
    TotalReplaced(sys.txs, t, Step(config, sys, t).txs[t]);
  }

  function StepCount(actions: seq<Action>): nat {
    if actions == [] then 0
    else StepCount(actions[..|actions| - 1]) + (if actions[|actions| - 1].Advance? then 1 else 0)
  }

  lemma RunPrefix(config: FxConfig.Config, states: seq<Sys>, actions: seq<Action>, n: nat)
    requires IsRun(config, states, actions) && n <= |actions|
    ensures IsRun(config, states[..n + 1], actions[..n])
  {
  }

  lemma ActDecreases(config: FxConfig.Config, sys: Sys, action: Action)
    requires Possible(config, sys, action)
    ensures TotalLeft(Act(config, sys, action).txs) + (if action.Advance? then 1 else 0) <= TotalLeft(sys.txs)
  {
    match action
    case Advance(t) => StepDecreases(config, sys, t);
    case Administer(_, _) =>
  }

  lemma {:induction false} StepsBounded(config: FxConfig.Config, states: seq<Sys>, actions: seq<Action>)
    requires IsRun(config, states, actions)
    ensures StepCount(actions) + TotalLeft(states[|actions|].txs) <= TotalLeft(states[0].txs)
  {
    if actions != [] {
      var n := |actions| - 1;
      RunPrefix(config, states, actions, n);
      StepsBounded(config, states[..n + 1], actions[..n]);
      ActDecreases(config, states[n], actions[n]);
    }
  }

  lemma {:induction false} TotalAtStart(txs: seq<Tx>)
    ensures TotalLeft(txs) <= MAX_STEPS * |txs|
  {
    if txs != [] {
      TotalAtStart(txs[..|txs| - 1]);
    }
  }

  // Whatever the interleaving, a run of n requests takes at most sixteen steps a request.
  lemma RunsAreBounded(config: FxConfig.Config, start: Db, requests: seq<Request>, states: seq<Sys>, actions: seq<Action>)
    requires IsRun(config, states, actions) && states[0] == Start(start, requests)
    ensures StepCount(actions) <= MAX_STEPS * |requests|
  {
    StepsBounded(config, states, actions);
    TotalAtStart(states[0].txs);
  }

  predicate AllFinished(sys: Sys) {
    forall t :: 0 <= t < |sys.txs| ==> sys.txs[t].pc.Finished?
  }

  lemma RunPrepended(config: FxConfig.Config, sys: Sys, action: Action, states: seq<Sys>, actions: seq<Action>)
    requires Possible(config, sys, action) && IsRun(config, states, actions) && states[0] == Act(config, sys, action)
    ensures IsRun(config, [sys] + states, [action] + actions)
    ensures ([sys] + states)[|actions| + 1] == states[|actions|]
  {
  }

  // From every state of the invariant the transactions can be run to their ends.
  lemma {:induction false} CanFinish(config: FxConfig.Config, start: Db, openings: Openings, sys: Sys)
    returns (states: seq<Sys>, actions: seq<Action>)
    requires Inv(config, start, openings, sys)
    ensures IsRun(config, states, actions) && states[0] == sys && AllFinished(states[|actions|])
    decreases TotalLeft(sys.txs)
  {
    if AllFinished(sys) {
      states, actions := [sys], [];
    } else {
      var t :| 0 <= t < |sys.txs| && !sys.txs[t].pc.Finished?;
      var v := SomeCanStep(config, sys, t);
      ActDecreases(config, sys, Advance(v));
      ActKeeps(config, start, openings, sys, Advance(v));
      var s, a := CanFinish(config, start, openings, Act(config, sys, Advance(v)));
      RunPrepended(config, sys, Advance(v), s, a);
      states, actions := [sys] + s, [Advance(v)] + a;
    }
  }

  // However many requests begin on sound tables, some execution answers them all.
  lemma EveryStartCanFinish(config: FxConfig.Config, start: Db, openings: Openings, requests: seq<Request>)
    returns (states: seq<Sys>, actions: seq<Action>)
    requires Sound(start, openings) && Drawn(start, requests)
    ensures IsExecution(config, start, openings, requests, states, actions) && AllFinished(states[|actions|])
  {
    StartKeeps(config, start, openings, requests);
    states, actions := CanFinish(config, start, openings, Start(start, requests));
  }

  ghost predicate Marked(order: seq<Mark>, t: nat) {
    exists p :: MarksAt(order, t, p)
  }

  // A run that cannot go on has answered every request, each at its own place in the order.
  lemma StuckRunsAreFinished(
      config: FxConfig.Config, start: Db, openings: Openings, requests: seq<Request>,
      states: seq<Sys>, actions: seq<Action>)
    requires IsExecution(config, start, openings, requests, states, actions)
    requires forall v :: !Enabled(config, states[|actions|], v)
    ensures AllFinished(states[|actions|])
    ensures forall t :: 0 <= t < |requests| ==> Marked(states[|actions|].order, t)
  {
    var last := |actions|;
    RequestsStay(config, start, openings, requests, states, actions, last);
    forall t | 0 <= t < |requests|
      ensures states[last].txs[t].pc.Finished? && Marked(states[last].order, t)
    {
      if !states[last].txs[t].pc.Finished? {
        Progress(config, start, openings, requests, states, actions, last, t);
      }
      FinishedIsMarked(config, start, openings, requests, states, actions, last, t);
    }
  }
}
