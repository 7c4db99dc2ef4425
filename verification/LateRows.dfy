/** Executions in which a client is told what was true when its transaction looked for a row and is
    no longer true when the transaction ends (src/api/transfers.rs, src/api/reversals.rs). */
module LateRows {
  import opened Common
  import opened Ledger
  import opened LedgerInvariants
  import opened ExactlyOnce
  import opened Protocol
  import opened ProtocolSafety
  import opened Serializability
  import opened Finishing
  import opened Alone
  import opened Outdated
  import FxConfig
  import Money

  /* -------------------- a request that finds a row missing -------------------- */

  // The transfer's account, or the reversal's original, is in no table; the reversal's key is free.
  ghost predicate MissesAtStart(start: Db, req: Request) {
    match req.call
    case CreateAccount(_, _) => false
    case CreateTransfer(_, _, _) => MissesParty(start, req)
    case ReverseTransfer(original) =>
      original !in start.transfers && RecordKey(req.client, TransferReversal, req.key) !in start.records
  }

  // Until it has decided, a transfer that misses an account is where it looked for it.
  lemma DecidesAtBegin(config: FxConfig.Config, db: Db, tx: Tx)
    requires Knows(config, db, tx) && !Decided(tx.pc) && MissesParty(db, tx.request)
    ensures tx.pc.Begin? && tx.own == EMPTY && MissesRow(db, tx)
  {
    assert Classify(db.accounts, tx.request) == Err(AccountUnavailable);
  }

  ghost predicate MissesOriginal(db: Db, req: Request) {
    && req.call.ReverseTransfer? && req.call.original !in db.transfers
    && RecordKey(req.client, TransferReversal, req.key) !in db.records
  }

  lemma ReversalClassified(accounts: map<Id, Account>, req: Request)
    requires req.call.ReverseTransfer?
    ensures Classify(accounts, req) ==
            Ok(Keyed(RecordKey(req.client, TransferReversal, req.key), OfReversal(req.call.original), Undo(req.call.original)))
  {
  }

  // A reversal that misses its original decides where it looked for it.
  lemma DecidesAtOriginal(config: FxConfig.Config, db: Db, tx: Tx)
    requires Knows(config, db, tx) && !Decided(tx.pc) && MissesOriginal(db, tx.request)
    requires Local(config, db, tx).Settle? || Local(config, db, tx).CommitOwn?
    ensures tx.pc.LockOriginal? && MissesRow(db, tx)
    ensures Holds(tx.pc) == {KeyOf(RecordKey(tx.request.client, TransferReversal, tx.request.key))}
  {
    ReversalClassified(db.accounts, tx.request);
    if tx.pc.Begin? || tx.pc.FastPath? || tx.pc.Reserve? {
      OverlayNothing(db);
    }
  }

  predicate IsReversalKey(r: Resource, req: Request) {
    r.KeyOf? && r.key.operation == TransferReversal && req.call.ReverseTransfer?
  }

  // What it then holds is at most the reversal's key.
  lemma DecidesHolding(config: FxConfig.Config, sys: Sys)
    requires AtDecision(config, sys, 0) && Knows(config, sys.db, sys.txs[0])
    requires MissesAtStart(sys.db, sys.txs[0].request)
    ensures MissesRow(sys.db, sys.txs[0]) && Local(config, sys.db, sys.txs[0]).Settle?
    ensures forall r :: r in Holds(sys.txs[0].pc) ==> IsReversalKey(r, sys.txs[0].request)
  {
    var tx := sys.txs[0];
    if tx.request.call.CreateTransfer? {
      DecidesAtBegin(config, sys.db, tx);
      MissingAccountSettles(config, sys.db, tx);
    } else {
      DecidesAtOriginal(config, sys.db, tx);
      MissingOriginalSettles(config, sys.db, tx);
    }
  }

  // Requests that do not reverse anything, or follow a request that does not.
  predicate StandClear(req: Request, helpers: seq<Request>) {
    req.call.ReverseTransfer? ==> forall i :: 0 <= i < |helpers| ==> !helpers[i].call.ReverseTransfer?
  }

  lemma HeldByFirst(sys: Sys, start: Sys, r: Resource)
    requires OthersSame(start, sys, 0) && start.locks == map[] && LocksSound(sys.locks, sys.txs)
    requires !sys.txs[0].pc.Ending? && r in sys.locks
    ensures sys.locks[r] == 0 && r in Holds(sys.txs[0].pc)
  {
    assert Holdings(sys.txs)[0] == Holds(sys.txs[0].pc);
  }

  lemma HelpersWait(config: FxConfig.Config, start: Sys, sys: Sys, helpers: seq<Request>)
    requires OthersSame(start, sys, 0) && start.locks == map[] && LocksSound(sys.locks, sys.txs)
    requires AtDecision(config, sys, 0) && Knows(config, sys.db, sys.txs[0])
    requires MissesAtStart(sys.db, sys.txs[0].request) && StandClear(sys.txs[0].request, helpers)
    requires |sys.txs| == |helpers| + 1
    requires forall u :: 0 < u < |sys.txs| ==> start.txs[u] == Tx(helpers[u - 1], Begin, EMPTY)
    ensures Waiting(Step(config, sys, 0), 1)
  {
    DecidesHolding(config, sys);
    DecidingStep(config, sys, 0);
    StepOthersSame(config, sys, 0);
    forall r | r in sys.locks ensures sys.locks[r] == 0 && IsReversalKey(r, sys.txs[0].request) {
      HeldByFirst(sys, start, r);
    }
  }

  // The first request has decided on a missing row; the helpers have not begun.
  ghost predicate FirstDecided(config: FxConfig.Config, start: Db, sys: Sys, req: Request, helpers: seq<Request>) {
    && Waiting(sys, 1) && |sys.txs| == |helpers| + 1 && RequestsOf(sys.txs[1..]) == helpers
    && sys.db == start && sys.txs[0].pc == Ending(Apply(config, start, req).reply)
  }

  lemma StartShape(start: Db, req: Request, helpers: seq<Request>)
    ensures var sys := Start(start, [req] + helpers);
            && sys.db == start && sys.locks == map[] && |sys.txs| == |helpers| + 1
            && sys.txs[0] == Tx(req, Begin, EMPTY)
            && forall u :: 0 < u < |sys.txs| ==> sys.txs[u] == Tx(helpers[u - 1], Begin, EMPTY)
  {
  }

  lemma HelpersSame(start: Sys, sys: Sys, helpers: seq<Request>)
    requires OthersSame(start, sys, 0) && |sys.txs| == |helpers| + 1
    requires forall u :: 0 < u < |sys.txs| ==> start.txs[u] == Tx(helpers[u - 1], Begin, EMPTY)
    ensures RequestsOf(sys.txs[1..]) == helpers
  {
  }

  lemma DecideFirst(config: FxConfig.Config, start: Db, openings: Openings, req: Request, helpers: seq<Request>)
    returns (states: seq<Sys>, actions: seq<Action>, sys: Sys)
    requires Sound(start, openings) && Drawn(start, [req] + helpers)
    requires MissesAtStart(start, req) && StandClear(req, helpers)
    ensures IsRun(config, states, actions) && states[0] == Start(start, [req] + helpers) && states[|actions|] == sys
    ensures Inv(config, start, openings, sys) && FirstDecided(config, start, sys, req, helpers)
  {
    var s0 := Start(start, [req] + helpers);
    StartShape(start, req, helpers);
    StartKeeps(config, start, openings, [req] + helpers);
    var s1;
    states, actions, s1 := RunToDecision(config, start, openings, [s0], [], s0, 0);
    HelpersWait(config, s0, s1, helpers);
    DecisionMatches(config, start, openings, s1, 0);
    DecidesHolding(config, s1);
    DecidingStep(config, s1, 0);
    StepKeepsInv(config, start, openings, s1, 0);
    StepOthersSame(config, s1, 0);
    sys := Step(config, s1, 0);
    OthersSameTwice(s0, s1, sys, 0);
    HelpersSame(s0, sys, helpers);
    states, actions := OneMoreStep(config, states, actions, s1, 0, sys);
  }

  // A first request decides on a missing row, the helpers are served, and only then the first one ends.
  lemma LateRun(config: FxConfig.Config, start: Db, openings: Openings, req: Request, helpers: seq<Request>)
    returns (states: seq<Sys>, actions: seq<Action>, j: nat)
    requires Sound(start, openings) && Drawn(start, [req] + helpers)
    requires MissesAtStart(start, req) && StandClear(req, helpers)
    ensures IsExecution(config, start, openings, [req] + helpers, states, actions)
    ensures FinishesAt(config, states, actions, j, 0)
    ensures states[j].db == Run(config, start, ServeAll(helpers))
    ensures states[j + 1].txs[0].pc.reply == Apply(config, start, req).reply
  {
    var sys, last;
    states, actions, sys := DecideFirst(config, start, openings, req, helpers);
    states, actions, last := RunInTurn(config, start, openings, states, actions, sys, 1);
    assert last.txs[0] == last.txs[..1][0] == sys.txs[..1][0];
    ReleasingStep(config, last, 0);
    j := |actions|;
    states, actions := OneMoreStep(config, states, actions, last, 0, Step(config, last, 0));
  }

  /* -------------------- helpers for every such request -------------------- */

  // The UUIDs a request names, and does not find, are in no table and are not those it draws.
  ghost predicate NamesNew(start: Db, req: Request) {
    match req.call
    case CreateAccount(_, _) => true
    case CreateTransfer(source, destination, _) =>
      && (source !in start.accounts ==> source !in start.transfers && source != req.id)
      && (destination !in start.accounts ==> destination !in start.transfers && destination != req.id)
    case ReverseTransfer(original) => original !in start.accounts && original != req.id
  }

  function Helpers(start: Db, req: Request, f: Id, n: nat): seq<Request> {
    match req.call
    case CreateAccount(_, _) => []
    case CreateTransfer(_, _, _) => AfterTransfer(start, req, f, n)
    case ReverseTransfer(_) => AfterReversal(req, f, n)
  }

  // Requests whose UUIDs are unused, different from each other, and different from those of another one.
  ghost predicate DrawnBeside(start: Db, req: Request, helpers: seq<Request>) {
    && (forall i :: 0 <= i < |helpers| ==>
          Unused(start, helpers[i]) && helpers[i].debitId != helpers[i].creditId
          && Apart(req, helpers[i]) && Apart(helpers[i], req))
    && (forall i, j :: 0 <= i < |helpers| && 0 <= j < |helpers| && i != j ==> Apart(helpers[i], helpers[j]))
  }

  lemma DrawnTogether(start: Db, req: Request, helpers: seq<Request>)
    requires Unused(start, req) && req.debitId != req.creditId && DrawnBeside(start, req, helpers)
    ensures Drawn(start, [req] + helpers)
  {
  }

  lemma BesideBoth(start: Db, req: Request, first: seq<Request>, second: seq<Request>)
    requires DrawnBeside(start, req, first) && DrawnBeside(start, req, second)
    requires forall i, j :: 0 <= i < |first| && 0 <= j < |second| ==> Apart(first[i], second[j]) && Apart(second[j], first[i])
    ensures DrawnBeside(start, req, first + second)
  {
  }

  lemma PartiesDrawn(start: Db, req: Request, f: Id, n: nat)
    requires MissesParty(start, req) && NamesNew(start, req) && Choice(start, req, f, n)
    ensures DrawnBeside(start, req, BothParties(start, req.client, n, req.call.source, req.call.destination, f))
  {
  }

  lemma PaymentsDrawn(start: Db, req: Request, f: Id, n: nat)
    requires Choice(start, req, f, n)
    ensures DrawnBeside(start, req, Payment(req.client, req.key, n + 2, f, f + 2, f + 4))
  {
  }

  lemma TransferHelpersDrawn(start: Db, req: Request, f: Id, n: nat)
    requires MissesParty(start, req) && NamesNew(start, req) && Choice(start, req, f, n)
    requires Unused(start, req) && req.debitId != req.creditId
    ensures Drawn(start, [req] + AfterTransfer(start, req, f, n))
  {
    PartiesDrawn(start, req, f, n);
    PaymentsDrawn(start, req, f, n);
    BesideBoth(start, req, BothParties(start, req.client, n, req.call.source, req.call.destination, f),
               Payment(req.client, req.key, n + 2, f, f + 2, f + 4));
    DrawnTogether(start, req, AfterTransfer(start, req, f, n));
  }

  lemma ReversalHelpersDrawn(start: Db, req: Request, f: Id, n: nat)
    requires MissesOriginal(start, req) && NamesNew(start, req) && Choice(start, req, f, n)
    requires Unused(start, req) && req.debitId != req.creditId
    ensures Drawn(start, [req] + AfterReversal(req, f, n))
  {
  }

  lemma HelpersStandClear(start: Db, req: Request, f: Id, n: nat)
    requires MissesAtStart(start, req)
    ensures StandClear(req, Helpers(start, req, f, n))
  {
  }

  lemma MissingReply(config: FxConfig.Config, start: Db, req: Request)
    requires MissesAtStart(start, req)
    ensures Apply(config, start, req).reply == Failure(if req.call.CreateTransfer? then AccountUnavailable else NotFound)
  {
  }

  lemma HelpersChangeAnswer(config: FxConfig.Config, start: Db, req: Request, f: Id, n: nat)
    requires Listed(start.accounts) && MissesAtStart(start, req) && Choice(start, req, f, n)
    ensures Apply(config, Run(config, start, ServeAll(Helpers(start, req, f, n))), req).reply != Apply(config, start, req).reply
  {
    MissingReply(config, start, req);
    if req.call.CreateTransfer? {
      var after := TransferAnsweredOtherwise(config, start, req, f, n);
    } else {
      var after := ReversalAnsweredOtherwise(config, start, req, f, n);
    }
  }

  // Whatever the tables, a request that misses a row on them has an execution, among a few other
  // requests, in which it is told so when that is no longer the answer.
  lemma CanFinishOutdated(config: FxConfig.Config, start: Db, openings: Openings, req: Request)
    returns (requests: seq<Request>, states: seq<Sys>, actions: seq<Action>, j: nat)
    requires Sound(start, openings) && Listed(start.accounts)
    requires Unused(start, req) && req.debitId != req.creditId && NamesNew(start, req)
    requires MissesAtStart(start, req)
    ensures IsExecution(config, start, openings, requests, states, actions) && requests != [] && requests[0] == req
    ensures FinishesAt(config, states, actions, j, 0)
    ensures states[j + 1].txs[0].pc.reply == Apply(config, start, req).reply
    ensures Apply(config, states[j].db, req).reply != states[j + 1].txs[0].pc.reply
  {
    var f, n := Choose(start, req);
    var helpers := Helpers(start, req, f, n);
    requests := [req] + helpers;
    if req.call.CreateTransfer? {
      TransferHelpersDrawn(start, req, f, n);
    } else {
      ReversalHelpersDrawn(start, req, f, n);
    }
    HelpersStandClear(start, req, f, n);
    HelpersChangeAnswer(config, start, req, f, n);
    states, actions, j := LateRun(config, start, openings, req, helpers);
  }

  /* -------------------- one in full -------------------- */

  // A client sends a transfer between accounts 1 and 2 and the two requests that create them.
  const TRANSFER: Request := Request("client", "a", 0, 3, 11, 12, CreateTransfer(1, 2, ""))

  function Opener(n: nat, id: Id, draw: Id): Request {
    Creation("client", n, id, "PLN", "0", draw)
  }

  lemma RequestsDrawn()
    ensures Sound(EMPTY, map[]) && Drawn(EMPTY, [TRANSFER] + [Opener(0, 1, 13), Opener(1, 2, 15)])
  {
    EmptyIsSound();
  }

  lemma OpenersServed(config: FxConfig.Config)
    ensures var db := Run(config, EMPTY, ServeAll([Opener(0, 1, 13), Opener(1, 2, 15)]));
            && 1 in db.accounts && 2 in db.accounts && CurrencyOf(db.accounts[1]) == CurrencyOf(db.accounts[2]) == ZLOTY
  {
    assert ZLOTY == Money.CURRENCIES[0];
    var mid := Apply(config, EMPTY, Opener(0, 1, 13)).db;
    Created(config, EMPTY, "client", 0, 1, ZLOTY, "0", 13);
    KeysDiffer("client", 0);
    Created(config, mid, "client", 1, 2, ZLOTY, "0", 15);
    ServedOne(config, EMPTY, Opener(0, 1, 13));
    ServedOne(config, mid, Opener(1, 2, 15));
    ServedTwo(config, EMPTY, [Opener(0, 1, 13)], [Opener(1, 2, 15)]);
    assert [Opener(0, 1, 13)] + [Opener(1, 2, 15)] == [Opener(0, 1, 13), Opener(1, 2, 15)];
  }

  lemma EmptyTextIsMalformed(config: FxConfig.Config, db: Db)
    requires 1 in db.accounts && 2 in db.accounts && CurrencyOf(db.accounts[1]) == CurrencyOf(db.accounts[2])
    ensures Apply(config, db, TRANSFER).reply == Failure(MalformedAmount)
  {
  }

  // From empty tables: the accounts are created after the transfer has looked for them and before it
  // ends, and the client is told that an account is unavailable when the request would be refused for
  // its amount.
  lemma OutdatedExecution(config: FxConfig.Config) returns (states: seq<Sys>, actions: seq<Action>, j: nat)
    ensures IsExecution(config, EMPTY, map[], [TRANSFER] + [Opener(0, 1, 13), Opener(1, 2, 15)], states, actions)
    ensures FinishesAt(config, states, actions, j, 0)
    ensures states[j + 1].txs[0].pc.reply == Failure(AccountUnavailable)
    ensures Apply(config, states[j].db, TRANSFER).reply == Failure(MalformedAmount)
  {
    RequestsDrawn();
    MissingReply(config, EMPTY, TRANSFER);
    states, actions, j := LateRun(config, EMPTY, map[], TRANSFER, [Opener(0, 1, 13), Opener(1, 2, 15)]);
    OpenersServed(config);
    EmptyTextIsMalformed(config, states[j].db);
  }
}
