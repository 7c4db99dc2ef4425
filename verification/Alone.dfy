/** A transaction that nobody stands in the way of runs to its end by itself and does exactly what its
    whole request does: every serial run of requests is an execution of the interleaved handlers. */
module Alone {
  import opened Common
  import opened Ledger
  import opened LedgerInvariants
  import opened ExactlyOnce
  import opened Protocol
  import opened ProtocolSafety
  import opened Serializability
  import opened ProtocolLiveness
  import FxConfig

  /* -------------------- nobody in the way -------------------- */

  // The keys a request can reserve.
  predicate MayReserve(req: Request, key: RecordKey) {
    key.client == req.client && key.key == req.key &&
    match req.call
    case CreateAccount(_, _) => key.operation == AccountCreation
    case CreateTransfer(_, _, _) => key.operation == PlainTransfer || key.operation == FxTransfer
    case ReverseTransfer(_) => key.operation == TransferReversal
  }

  // All that others hold are keys that the request cannot reserve.
  ghost predicate Clear(locks: map<Resource, nat>, t: nat, req: Request) {
    forall r :: r in locks && locks[r] != t ==> r.KeyOf? && !MayReserve(req, r.key)
  }

  lemma ClassifiedKey(accounts: map<Id, Account>, req: Request)
    requires Classify(accounts, req).Ok?
    ensures MayReserve(req, Classify(accounts, req).value.key)
  {
  }

  lemma TakenKey(config: FxConfig.Config, db: Db, tx: Tx)
    requires Local(config, db, tx).Take? && Local(config, db, tx).resource.KeyOf?
    ensures tx.pc.Reserve? && Local(config, db, tx).resource == KeyOf(tx.pc.k.key)
  {
  }

  lemma WantsItsOwn(config: FxConfig.Config, db: Db, tx: Tx)
    requires Knows(config, db, tx) && Local(config, db, tx).Take? && Local(config, db, tx).resource.KeyOf?
    ensures MayReserve(tx.request, Local(config, db, tx).resource.key)
  {
    TakenKey(config, db, tx);
    ClassifiedKey(db.accounts, tx.request);
  }

  lemma ClearIsEnabled(config: FxConfig.Config, sys: Sys, t: nat)
    requires t < |sys.txs| && Knows(config, sys.db, sys.txs[t]) && !sys.txs[t].pc.Finished?
    requires Clear(sys.locks, t, sys.txs[t].request)
    ensures Enabled(config, sys, t)
  {
    UnfinishedGoesOn(config, sys.db, sys.txs[t]);
    if Local(config, sys.db, sys.txs[t]).Take? && Local(config, sys.db, sys.txs[t]).resource.KeyOf? {
      WantsItsOwn(config, sys.db, sys.txs[t]);
    }
  }

  lemma UnfinishedGoesOn(config: FxConfig.Config, db: Db, tx: Tx)
    requires !tx.pc.Finished?
    ensures !Local(config, db, tx).Nothing?
  {
  }

  /* -------------------- one transaction -------------------- */

  // Only transaction t, and the locks it holds, may differ.
  ghost predicate OthersSame(sys: Sys, after: Sys, t: nat) {
    && t < |sys.txs| == |after.txs| && after.txs[t].request == sys.txs[t].request
    && (forall u :: 0 <= u < |sys.txs| && u != t ==> after.txs[u] == sys.txs[u])
    && OthersLocks(sys.locks, after.locks, t)
  }

  ghost predicate OthersLocks(locks: map<Resource, nat>, after: map<Resource, nat>, t: nat) {
    && (forall r :: r in locks && locks[r] != t ==> r in after && after[r] == locks[r])
    && (forall r :: r in after && after[r] != t ==> r in locks && locks[r] == after[r])
  }

  lemma OthersSameTwice(a: Sys, b: Sys, c: Sys, t: nat)
    requires OthersSame(a, b, t) && OthersSame(b, c, t)
    ensures OthersSame(a, c, t)
  {
  }

  lemma StepOthersSame(config: FxConfig.Config, sys: Sys, t: nat)
    requires Enabled(config, sys, t)
    ensures OthersSame(sys, Step(config, sys, t), t)
  {
  }

  lemma StillClear(sys: Sys, after: Sys, t: nat, req: Request)
    requires OthersSame(sys, after, t) && Clear(sys.locks, t, req)
    ensures Clear(after.locks, t, req)
  {
  }

  lemma OneMoreStep(config: FxConfig.Config, states: seq<Sys>, actions: seq<Action>, sys: Sys, t: nat, next: Sys)
    returns (longer: seq<Sys>, more: seq<Action>)
    requires IsRun(config, states, actions) && states[|actions|] == sys
    requires Enabled(config, sys, t) && Step(config, sys, t) == next
    ensures IsRun(config, longer, more) && longer[0] == states[0] && longer[|more|] == next
    ensures |more| == |actions| + 1 && more[|actions|] == Advance(t) && longer[|actions|] == sys
  {
    longer, more := states + [next], actions + [Advance(t)];
  }

  // The transaction's next step decides its answer.
  ghost predicate AtDecision(config: FxConfig.Config, sys: Sys, t: nat) {
    && t < |sys.txs| && !Decided(sys.txs[t].pc) && Enabled(config, sys, t)
    && (Local(config, sys.db, sys.txs[t]).Settle? || Local(config, sys.db, sys.txs[t]).CommitOwn?)
  }

  lemma UndecidedEffects(config: FxConfig.Config, db: Db, tx: Tx)
    requires !Decided(tx.pc)
    ensures !Local(config, db, tx).Release? && !Local(config, db, tx).Nothing?
  {
  }

  lemma AdvancingStep(config: FxConfig.Config, sys: Sys, t: nat)
    requires Enabled(config, sys, t) && (Local(config, sys.db, sys.txs[t]).Stay? || Local(config, sys.db, sys.txs[t]).Take?)
    ensures var next := Step(config, sys, t);
            && next.db == sys.db && |next.txs| == |sys.txs| && !Decided(next.txs[t].pc)
            && StepsLeft(next.txs[t].pc) < StepsLeft(sys.txs[t].pc)
  {
    MovesOn(config, sys.db, sys.txs[t]);
    NeverDecides(config, sys.db, sys.txs[t]);
  }

  lemma StepKeepsInv(config: FxConfig.Config, start: Db, openings: Openings, sys: Sys, t: nat)
    requires Inv(config, start, openings, sys) && Enabled(config, sys, t)
    ensures Inv(config, start, openings, Step(config, sys, t))
  {
    ActKeeps(config, start, openings, sys, Advance(t));
  }

  // Left alone, a transaction comes to its decision with the tables as they were.
  lemma {:induction false} RunToDecision(
      config: FxConfig.Config, start: Db, openings: Openings, states: seq<Sys>, actions: seq<Action>, sys: Sys, t: nat)
    returns (longer: seq<Sys>, more: seq<Action>, last: Sys)
    requires IsRun(config, states, actions) && states[|actions|] == sys && Inv(config, start, openings, sys)
    requires t < |sys.txs| && !Decided(sys.txs[t].pc) && Clear(sys.locks, t, sys.txs[t].request)
    ensures IsRun(config, longer, more) && longer[0] == states[0] && longer[|more|] == last
    ensures Inv(config, start, openings, last) && OthersSame(sys, last, t) && last.db == sys.db
    ensures AtDecision(config, last, t)
    decreases StepsLeft(sys.txs[t].pc)
  {
    ClearIsEnabled(config, sys, t);
    UndecidedEffects(config, sys.db, sys.txs[t]);
    if Local(config, sys.db, sys.txs[t]).Settle? || Local(config, sys.db, sys.txs[t]).CommitOwn? {
      longer, more, last := states, actions, sys;
    } else {
      var next := Step(config, sys, t);
      AdvancingStep(config, sys, t);
      StepKeepsInv(config, start, openings, sys, t);
      StepOthersSame(config, sys, t);
      StillClear(sys, next, t, sys.txs[t].request);
      longer, more := OneMoreStep(config, states, actions, sys, t, next);
      longer, more, last := RunToDecision(config, start, openings, longer, more, next, t);
      OthersSameTwice(sys, next, last, t);
    }
  }

  lemma CommitDecision(config: FxConfig.Config, db: Db, tx: Tx)
    requires Knows(config, db, tx) && Unused(db, tx.request) && tx.request.debitId != tx.request.creditId
    requires Local(config, db, tx).CommitOwn?
    ensures Apply(config, db, tx.request) == Outcome(Overlay(db, tx.own), Local(config, db, tx).reply)
    ensures Local(config, db, tx).reply.Success?
  {
    OnlyWritesCommit(config, db, tx);
    CommitsFresh(config, db, tx);
    CommitMatches(config, db, tx);
  }

  lemma DecidedTables(config: FxConfig.Config, sys: Sys, t: nat)
    requires AtDecision(config, sys, t)
    ensures Step(config, sys, t).db ==
            if Local(config, sys.db, sys.txs[t]).Settle? then sys.db else Overlay(sys.db, sys.txs[t].own)
  {
  }

  // The answer decided next is the whole request's, and so are the tables it leaves.
  lemma DecisionMatches(config: FxConfig.Config, start: Db, openings: Openings, sys: Sys, t: nat)
    requires Inv(config, start, openings, sys) && AtDecision(config, sys, t)
    ensures Apply(config, sys.db, sys.txs[t].request) ==
            Outcome(Step(config, sys, t).db, Local(config, sys.db, sys.txs[t]).reply)
    ensures Local(config, sys.db, sys.txs[t]).CommitOwn? ==> Local(config, sys.db, sys.txs[t]).reply.Success?
  {
    DecidedTables(config, sys, t);
    if Local(config, sys.db, sys.txs[t]).Settle? {
      TablesSound(config, start, openings, sys);
      SettleMatches(config, sys.db, sys.txs[t]);
    } else {
      CommitDecision(config, sys.db, sys.txs[t]);
    }
  }

  lemma DecidingStep(config: FxConfig.Config, sys: Sys, t: nat)
    requires AtDecision(config, sys, t)
    ensures var next, reply := Step(config, sys, t), Local(config, sys.db, sys.txs[t]).reply;
            && |next.txs| == |sys.txs|
            && (Local(config, sys.db, sys.txs[t]).Settle? ==>
                  next.db == sys.db && next.txs[t].pc == Ending(reply) && next.locks == sys.locks)
            && (Local(config, sys.db, sys.txs[t]).CommitOwn? ==>
                  next.txs[t].pc == Finished(reply) && next.locks == Unlocked(sys.locks, t))
  {
  }

  lemma ReleasingStep(config: FxConfig.Config, sys: Sys, t: nat)
    requires t < |sys.txs| && sys.txs[t].pc.Ending?
    ensures Enabled(config, sys, t)
    ensures var next := Step(config, sys, t);
            && next.db == sys.db && |next.txs| == |sys.txs| && next.locks == Unlocked(sys.locks, t)
            && next.txs[t].pc == Finished(sys.txs[t].pc.reply)
  {
  }

  ghost predicate HoldsNothing(locks: map<Resource, nat>, t: nat) {
    forall r :: r in locks ==> locks[r] != t
  }

  lemma EndAlone(
      config: FxConfig.Config, start: Db, openings: Openings, states: seq<Sys>, actions: seq<Action>, sys: Sys, t: nat)
    returns (longer: seq<Sys>, more: seq<Action>, last: Sys)
    requires IsRun(config, states, actions) && states[|actions|] == sys && Inv(config, start, openings, sys)
    requires AtDecision(config, sys, t)
    ensures IsRun(config, longer, more) && longer[0] == states[0] && longer[|more|] == last
    ensures Inv(config, start, openings, last) && OthersSame(sys, last, t) && HoldsNothing(last.locks, t)
    ensures last.txs[t].pc.Finished?
    ensures Apply(config, sys.db, sys.txs[t].request) == Outcome(last.db, last.txs[t].pc.reply)
  {
    DecisionMatches(config, start, openings, sys, t);
    DecidingStep(config, sys, t);
    StepKeepsInv(config, start, openings, sys, t);
    StepOthersSame(config, sys, t);
    var next := Step(config, sys, t);
    longer, more := OneMoreStep(config, states, actions, sys, t, next);
    last := next;
    if Local(config, sys.db, sys.txs[t]).Settle? {
      ReleasingStep(config, next, t);
      StepKeepsInv(config, start, openings, next, t);
      StepOthersSame(config, next, t);
      last := Step(config, next, t);
      OthersSameTwice(sys, next, last, t);
      longer, more := OneMoreStep(config, longer, more, next, t, last);
    }
  }

  // Left alone, a transaction ends with the tables and the reply of its whole request.
  lemma RunAlone(
      config: FxConfig.Config, start: Db, openings: Openings, states: seq<Sys>, actions: seq<Action>, sys: Sys, t: nat)
    returns (longer: seq<Sys>, more: seq<Action>, last: Sys)
    requires IsRun(config, states, actions) && states[|actions|] == sys && Inv(config, start, openings, sys)
    requires t < |sys.txs| && !Decided(sys.txs[t].pc) && Clear(sys.locks, t, sys.txs[t].request)
    ensures IsRun(config, longer, more) && longer[0] == states[0] && longer[|more|] == last
    ensures Inv(config, start, openings, last) && OthersSame(sys, last, t) && HoldsNothing(last.locks, t)
    ensures last.txs[t].pc.Finished?
    ensures Apply(config, sys.db, sys.txs[t].request) == Outcome(last.db, last.txs[t].pc.reply)
  {
    var middle;
    longer, more, middle := RunToDecision(config, start, openings, states, actions, sys, t);
    longer, more, last := EndAlone(config, start, openings, longer, more, middle, t);
    OthersSameTwice(sys, middle, last, t);
  }

  /* -------------------- one after the other -------------------- */

  function ServeAll(requests: seq<Request>): (events: seq<Event>)
    ensures |events| == |requests|
  {
    seq(|requests|, i requires 0 <= i < |requests| => Serve(requests[i]))
  }

  function RequestsOf(txs: seq<Tx>): (requests: seq<Request>)
    ensures |requests| == |txs|
  {
    seq(|txs|, i requires 0 <= i < |txs| => txs[i].request)
  }

  // A transaction that has not begun and that no lock is in the way of.
  ghost predicate Ready(locks: map<Resource, nat>, u: nat, tx: Tx) {
    && tx.pc == Begin
    && forall r :: r in locks ==> locks[r] != u && r.KeyOf? && !MayReserve(tx.request, r.key)
  }

  ghost predicate Waiting(sys: Sys, from: nat) {
    from <= |sys.txs| && forall u :: from <= u < |sys.txs| ==> Ready(sys.locks, u, sys.txs[u])
  }

  lemma BackToLocks(locks: map<Resource, nat>, after: map<Resource, nat>, t: nat)
    requires OthersLocks(locks, after, t) && HoldsNothing(locks, t) && HoldsNothing(after, t)
    ensures after == locks
  {
  }

  lemma RunFirst(config: FxConfig.Config, db: Db, first: Event, rest: seq<Event>)
    ensures Run(config, db, [first] + rest) == Run(config, Next(config, db, first), rest)
  {
    RunConcat(config, db, [first], rest);
    RunOneMore(config, db, [], first);
    assert [] + [first] == [first];
  }

  lemma StillWaiting(sys: Sys, next: Sys, from: nat)
    requires Waiting(sys, from) && from < |sys.txs| && OthersSame(sys, next, from) && HoldsNothing(next.locks, from)
    ensures next.locks == sys.locks && Waiting(next, from + 1) && next.txs[from + 1..] == sys.txs[from + 1..]
    ensures next.txs[..from] == sys.txs[..from]
  {
    assert Ready(sys.locks, from, sys.txs[from]);
    BackToLocks(sys.locks, next.locks, from);
    RestSame(sys.txs, next.txs, from);
  }

  lemma RestSame(txs: seq<Tx>, next: seq<Tx>, t: nat)
    requires t < |txs| == |next| && forall u :: 0 <= u < |txs| && u != t ==> next[u] == txs[u]
    ensures next[t + 1..] == txs[t + 1..] && next[..t] == txs[..t]
  {
  }

  lemma TurnIsClear(sys: Sys, from: nat)
    requires Waiting(sys, from) && from < |sys.txs|
    ensures !Decided(sys.txs[from].pc) && Clear(sys.locks, from, sys.txs[from].request)
  {
    assert Ready(sys.locks, from, sys.txs[from]);
  }

  lemma TakeTurn(
      config: FxConfig.Config, start: Db, openings: Openings, states: seq<Sys>, actions: seq<Action>, sys: Sys, from: nat)
    returns (longer: seq<Sys>, more: seq<Action>, next: Sys)
    requires IsRun(config, states, actions) && states[|actions|] == sys && Inv(config, start, openings, sys)
    requires Waiting(sys, from) && from < |sys.txs|
    ensures IsRun(config, longer, more) && longer[0] == states[0] && longer[|more|] == next
    ensures Inv(config, start, openings, next) && Waiting(next, from + 1) && next.locks == sys.locks
    ensures |next.txs| == |sys.txs| && next.txs[..from] == sys.txs[..from] && next.txs[from + 1..] == sys.txs[from + 1..]
    ensures next.db == Apply(config, sys.db, sys.txs[from].request).db
  {
    TurnIsClear(sys, from);
    longer, more, next := RunAlone(config, start, openings, states, actions, sys, from);
    StillWaiting(sys, next, from);
  }

  lemma ServeSplits(txs: seq<Tx>, from: nat)
    requires from < |txs|
    ensures ServeAll(RequestsOf(txs[from..])) == [Serve(txs[from].request)] + ServeAll(RequestsOf(txs[from + 1..]))
  {
    var all, rest := RequestsOf(txs[from..]), RequestsOf(txs[from + 1..]);
    assert all[0] == txs[from].request;
    forall i | 0 <= i < |rest| ensures all[i + 1] == rest[i] {
    }
  }

  lemma ServedFirst(config: FxConfig.Config, db: Db, txs: seq<Tx>, from: nat)
    requires from < |txs|
    ensures Run(config, db, ServeAll(RequestsOf(txs[from..]))) ==
            Run(config, Apply(config, db, txs[from].request).db, ServeAll(RequestsOf(txs[from + 1..])))
  {
    ServeSplits(txs, from);
    RunFirst(config, db, Serve(txs[from].request), ServeAll(RequestsOf(txs[from + 1..])));
  }

  lemma SamePrefix(txs: seq<Tx>, next: seq<Tx>, last: seq<Tx>, from: nat)
    requires from < |txs| == |next| == |last|
    requires next[..from] == txs[..from] && last[..from + 1] == next[..from + 1]
    ensures last[..from] == txs[..from]
  {
    assert last[..from] == last[..from + 1][..from];
    assert next[..from] == next[..from + 1][..from];
  }

  // The waiting transactions can run one after the other, as their whole requests would; nobody
  // else notices.
  lemma {:induction false} RunInTurn(
      config: FxConfig.Config, start: Db, openings: Openings, states: seq<Sys>, actions: seq<Action>, sys: Sys, from: nat)
    returns (longer: seq<Sys>, more: seq<Action>, last: Sys)
    requires IsRun(config, states, actions) && states[|actions|] == sys && Inv(config, start, openings, sys)
    requires Waiting(sys, from)
    ensures IsRun(config, longer, more) && longer[0] == states[0] && longer[|more|] == last
    ensures |last.txs| == |sys.txs| && last.txs[..from] == sys.txs[..from] && last.locks == sys.locks
    ensures last.db == Run(config, sys.db, ServeAll(RequestsOf(sys.txs[from..])))
    decreases |sys.txs| - from
  {
    if from == |sys.txs| {
      longer, more, last := states, actions, sys;
    } else {
      var next;
      longer, more, next := TakeTurn(config, start, openings, states, actions, sys, from);
      longer, more, last := RunInTurn(config, start, openings, longer, more, next, from + 1);
      ServedFirst(config, sys.db, sys.txs, from);
      SamePrefix(sys.txs, next.txs, last.txs, from);
    }
  }

  // Every serial run of requests is an execution of the interleaved handlers.
  lemma SerialRunsAreExecutions(config: FxConfig.Config, start: Db, openings: Openings, requests: seq<Request>)
    returns (states: seq<Sys>, actions: seq<Action>)
    requires Sound(start, openings) && Drawn(start, requests)
    ensures IsExecution(config, start, openings, requests, states, actions)
    ensures states[|actions|].db == Run(config, start, ServeAll(requests))
  {
    StartKeeps(config, start, openings, requests);
    var sys := Start(start, requests);
    var last;
    states, actions, last := RunInTurn(config, start, openings, [sys], [], sys, 0);
    assert RequestsOf(sys.txs[0..]) == requests;
  }
}
