/** What clients can rely on in every interleaved execution: nobody else spends their money, what they
    are told is on the books, and the books name who moved what. */
module Clients {
  import opened Common
  import opened Ledger
  import opened LedgerInvariants
  import opened ExactlyOnce
  import opened Protocol
  import opened Serializability
  import Finishing
  import opened Replies
  import opened Authority
  import FxConfig

  // A step of a transaction that changes the committed tables is the whole request, at that moment.
  lemma ChangingStep(
      config: FxConfig.Config, start: Db, openings: Openings, requests: seq<Request>,
      states: seq<Sys>, actions: seq<Action>, i: nat, t: nat)
    requires IsExecution(config, start, openings, requests, states, actions)
    requires i < |actions| && actions[i] == Advance(t) && states[i + 1].db != states[i].db
    ensures t < |requests| && t < |states[i + 1].txs| && states[i + 1].txs[t].pc.Finished?
    ensures Apply(config, states[i].db, requests[t]) == Outcome(states[i + 1].db, states[i + 1].txs[t].pc.reply)
  {
    RequestsStay(config, start, openings, requests, states, actions, i);
    RequestsStay(config, start, openings, requests, states, actions, i + 1);
    ExecutionKeeps(config, start, openings, requests, states, actions, i);
    var sys := states[i];
    if !states[i + 1].txs[t].pc.Finished? {
      Finishing.OnlyFinishingWrites(config, sys, t);
    }
    Finishing.FinishingEffects(config, sys, t);
    OnlyWritesCommit(config, sys.db, sys.txs[t]);
    CommitsFresh(config, sys.db, sys.txs[t]);
    CommitMatches(config, sys.db, sys.txs[t]);
  }

  lemma CommittedTransfersSound(
      config: FxConfig.Config, start: Db, openings: Openings, requests: seq<Request>,
      states: seq<Sys>, actions: seq<Action>, i: nat)
    requires IsExecution(config, start, openings, requests, states, actions) && i < |states|
    ensures TransfersSound(states[i].db) && EntriesSound(states[i].db.transfers, states[i].db.entries)
  {
    AlwaysSound(config, start, openings, requests, states, actions, i);
  }

  // No account is left with less but by a request of its owner.
  ghost predicate SpentByOwners(db: Db, after: Db, client: string) {
    forall a :: a in db.accounts ==>
      a in after.accounts && (after.accounts[a].balance < db.accounts[a].balance ==> db.accounts[a].owner == client)
  }

  lemma RequestSpendsOwn(config: FxConfig.Config, db: Db, req: Request)
    requires TransfersSound(db)
    ensures SpentByOwners(db, Apply(config, db, req).db, req.client)
  {
    forall a | a in db.accounts
      ensures a in Apply(config, db, req).db.accounts
              && (Apply(config, db, req).db.accounts[a].balance < db.accounts[a].balance ==> db.accounts[a].owner == req.client)
    {
      OnlyOwnersSpend(config, db, req, a);
    }
  }

  // Whatever runs at the same time, the committed tables only change by the steps of requests that
  // the tables of that very moment authorise, and nobody's balance falls by another client's doing.
  lemma EveryChangeIsAuthorised(
      config: FxConfig.Config, start: Db, openings: Openings, requests: seq<Request>,
      states: seq<Sys>, actions: seq<Action>, i: nat)
    requires IsExecution(config, start, openings, requests, states, actions)
    requires i < |actions| && actions[i].Advance? && states[i + 1].db != states[i].db
    ensures actions[i].t < |requests|
    ensures Authorised(states[i].db, requests[actions[i].t])
    ensures SpentByOwners(states[i].db, states[i + 1].db, requests[actions[i].t].client)
  {
    ChangingStep(config, start, openings, requests, states, actions, i, actions[i].t);
    CommittedTransfersSound(config, start, openings, requests, states, actions, i);
    ChangesAreAuthorised(config, states[i].db, requests[actions[i].t]);
    RequestSpendsOwn(config, states[i].db, requests[actions[i].t]);
  }

  // In every state the owner of the account that a transfer debited initiated it, and each transfer is on
  // the books once on either side.
  lemma BooksAreInOrder(
      config: FxConfig.Config, start: Db, openings: Openings, requests: seq<Request>,
      states: seq<Sys>, actions: seq<Action>, i: nat)
    requires IsExecution(config, start, openings, requests, states, actions) && Initiated(start) && i < |states|
    ensures Initiated(states[i].db)
    ensures forall id :: id in states[i].db.transfers ==> exists debit, credit :: OnTheBooks(states[i].db, id, debit, credit)
  {
    Serializable(config, start, openings, requests, states, actions, i);
    RunKeepsInitiated(config, start, openings, Events(states[i].order));
    CommittedTransfersSound(config, start, openings, requests, states, actions, i);
    EveryTransferIsBooked(states[i].db);
  }

  lemma MarkedReplyTells(config: FxConfig.Config, start: Db, openings: Openings, order: seq<Mark>, p: nat, request: Request)
    requires Sound(start, openings) && RecordsTell(start, openings)
    requires p < |order| && EventOf(order[p]) == Serve(request)
    requires Apply(config, Run(config, start, Events(order[..p])), request).reply.Success?
    ensures var reply := Apply(config, Run(config, start, Events(order[..p])), request).reply;
            Tells(Run(config, start, Events(order)), OpeningsAfter(config, start, openings, Events(order)),
                  reply.status, reply.body)
  {
    var before := Run(config, start, Events(order[..p]));
    SuccessIsRecorded(config, before, request);
    var k := Classify(before.accounts, request).value.key;
    MarkServes(config, start, order, p, request);
    MarksGrow(config, start, order, p + 1);
    RunKeepsTelling(config, start, openings, Events(order));
    assert TellsAt(Run(config, start, Events(order)), OpeningsAfter(config, start, openings, Events(order)), k);
  }

  lemma MarksGrow(config: FxConfig.Config, start: Db, order: seq<Mark>, n: nat)
    requires n <= |order|
    ensures Grows(Run(config, start, Events(order[..n])), Run(config, start, Events(order)))
  {
    EventsPrefix(order, n);
    assert Events(order) == Events(order)[..n] + Events(order)[n..];
    RunConcat(config, start, Events(order[..n]), Events(order)[n..]);
    RunGrows(config, Run(config, start, Events(order[..n])), Events(order)[n..]);
  }

  // Every success a client has been told of, a replay included, tells of an account or a transfer
  // that is there, by what it opened with or by its row.
  lemma EveryClientIsToldTheBooks(
      config: FxConfig.Config, start: Db, openings: Openings, requests: seq<Request>,
      states: seq<Sys>, actions: seq<Action>, i: nat, t: nat)
    requires IsExecution(config, start, openings, requests, states, actions) && RecordsTell(start, openings)
    requires i < |states| && t < |states[i].txs| && states[i].txs[t].pc.Finished? && states[i].txs[t].pc.reply.Success?
    ensures Tells(states[i].db, OpeningsAfter(config, start, openings, Events(states[i].order)),
                  states[i].txs[t].pc.reply.status, states[i].txs[t].pc.reply.body)
  {
    Serializable(config, start, openings, requests, states, actions, i);
    var order, reply := states[i].order, states[i].txs[t].pc.reply;
    var p: nat :| TookEffect(config, start, order, t, requests[t], reply, p);
    MarkedReplyTells(config, start, openings, order, p, requests[t]);
  }

  // A reversal's reply carries the balances of the moment it commits.
  lemma ReversalsTellTheirBalances(
      config: FxConfig.Config, start: Db, openings: Openings, requests: seq<Request>,
      states: seq<Sys>, actions: seq<Action>, i: nat, t: nat)
    requires IsExecution(config, start, openings, requests, states, actions)
    requires i < |actions| && actions[i] == Advance(t) && states[i + 1].db != states[i].db
    requires t < |requests| && requests[t].call.ReverseTransfer?
    ensures var after, id := states[i + 1], requests[t].id;
            && t < |after.txs| && after.txs[t].pc.Finished? && after.txs[t].pc.reply.Success?
            && id in after.db.transfers
            && var row := after.db.transfers[id];
            && row.source in after.db.accounts && row.destination in after.db.accounts
            && TellsBalances(after.txs[t].pc.reply.body, after.db.accounts[row.source], after.db.accounts[row.destination])
  {
    ChangingStep(config, start, openings, requests, states, actions, i, t);
    CommittedTransfersSound(config, start, openings, requests, states, actions, i);
    ReversalReply(config, states[i].db, requests[t]);
  }
}
