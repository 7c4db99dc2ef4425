/** Paging through an account's history while transactions run interleaved. */
module Paging {
  import opened Common
  import opened Ledger
  import opened LedgerInvariants
  import opened ExactlyOnce
  import opened Protocol
  import opened Serializability
  import opened History
  import FxConfig

  lemma PrefixGrows(config: FxConfig.Config, start: Db, order: seq<Mark>, later: seq<Mark>)
    requires order <= later
    ensures Grows(Run(config, start, Events(order)), Run(config, start, Events(later)))
  {
    var n := |order|;
    assert later[..n] == order;
    EventsPrefix(later, n);
    assert Events(later) == Events(later)[..n] + Events(later)[n..];
    RunConcat(config, start, Events(order), Events(later)[n..]);
    RunGrows(config, Run(config, start, Events(order)), Events(later)[n..]);
  }

  lemma TablesAre(
      config: FxConfig.Config, start: Db, openings: Openings, requests: seq<Request>,
      states: seq<Sys>, actions: seq<Action>, i: nat)
    requires IsExecution(config, start, openings, requests, states, actions) && i < |states|
    ensures states[i].db == Run(config, start, Events(states[i].order))
  {
    ExecutionKeeps(config, start, openings, requests, states, actions, i);
  }

  // Along an execution the committed tables only grow.
  lemma ExecutionGrows(
      config: FxConfig.Config, start: Db, openings: Openings, requests: seq<Request>,
      states: seq<Sys>, actions: seq<Action>, i: nat, j: nat)
    requires IsExecution(config, start, openings, requests, states, actions) && i <= j < |states|
    ensures Grows(states[i].db, states[j].db)
  {
    OrderGrows(config, states, actions, i, j);
    TablesAre(config, start, openings, requests, states, actions, i);
    TablesAre(config, start, openings, requests, states, actions, j);
    PrefixGrows(config, start, states[i].order, states[j].order);
  }

  // Page i is read in state at[i].
  ghost predicate ReadFrom(states: seq<Sys>, at: seq<nat>, tables: seq<map<Id, Entry>>) {
    && |at| == |tables|
    && (forall i :: 0 <= i < |at| ==> at[i] < |states| && tables[i] == states[at[i]].db.entries)
    && (forall i, j :: 0 <= i <= j < |at| ==> at[i] <= at[j])
  }

  lemma ReadingGrows(
      config: FxConfig.Config, start: Db, openings: Openings, requests: seq<Request>,
      states: seq<Sys>, actions: seq<Action>, at: seq<nat>, tables: seq<map<Id, Entry>>)
    requires IsExecution(config, start, openings, requests, states, actions) && ReadFrom(states, at, tables)
    ensures Growing(tables)
  {
    forall i, j | 0 <= i <= j < |tables| ensures Extends(tables[i], tables[j]) {
      ExecutionGrows(config, start, openings, requests, states, actions, at[i], at[j]);
    }
  }

  // Reading page by page in later and later states of any execution misses nothing that was there at
  // the first page, repeats nothing, and shows nothing that is not there at the last page.
  lemma PagingWhileInterleaved(
      config: FxConfig.Config, start: Db, openings: Openings, requests: seq<Request>,
      states: seq<Sys>, actions: seq<Action>, at: seq<nat>, tables: seq<map<Id, Entry>>,
      s: Selection, limits: seq<nat>, pages: seq<Page>, p: Position)
    requires IsExecution(config, start, openings, requests, states, actions) && ReadFrom(states, at, tables)
    requires IsTraversal(tables, s, limits, pages) && IsComplete(pages)
    ensures Descending(Items(pages))
    ensures Wanted(tables[0], s, p) ==> p in Items(pages)
    ensures p in Items(pages) ==> Wanted(tables[|tables| - 1], s, p)
  {
    ReadingGrows(config, start, openings, requests, states, actions, at, tables);
    TraversalDescends(tables, s, limits, pages);
    if Wanted(tables[0], s, p) {
      NothingIsMissed(tables, s, limits, pages, p);
    }
    if p in Items(pages) {
      NothingForeign(tables, s, limits, pages, p);
    }
  }
}
