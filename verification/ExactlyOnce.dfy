/** Idempotency over whole runs: a request takes effect once, its retries are answered from the
    stored record, and committed rows are never changed or removed (src/idempotency.rs). */
module ExactlyOnce {
  import opened Common
  import opened Ledger
  import opened LedgerInvariants
  import FxConfig

  // Rows are only added; of an account only the balance, the version and the status may change.
  ghost predicate Grows(db: Db, after: Db) {
    && (forall a :: a in db.accounts ==> a in after.accounts && SameIdentity(db.accounts[a], after.accounts[a]))
    && (forall t :: t in db.transfers ==> t in after.transfers && after.transfers[t] == db.transfers[t])
    && (forall e :: e in db.entries ==> e in after.entries && after.entries[e] == db.entries[e])
    && (forall k :: k in db.records ==> k in after.records && after.records[k] == db.records[k])
  }

  predicate SameIdentity(a: Account, b: Account) {
    a.owner == b.owner && a.currency == b.currency && a.scale == b.scale
  }

  lemma CommitGrows(db: Db, k: Keyed, plan: Plan)
    requires Fresh(db, plan) && Feasible(db, plan) && k.key !in db.records
    ensures Grows(db, Commit(db, k, plan))
  {
  }

  lemma NextGrows(config: FxConfig.Config, db: Db, event: Event)
    ensures Grows(db, Next(config, db, event))
  {
    if event.Serve? && Next(config, db, event) != db {
      var req := event.request;
      ApplyCommits(config, db, req);
      var k := Classify(db.accounts, req).value;
      CommitGrows(db, k, Work(config, db, req, k.job).value);
    }
  }

  lemma GrowsTransitive(a: Db, b: Db, c: Db)
    requires Grows(a, b) && Grows(b, c)
    ensures Grows(a, c)
  {
  }

  // No run ever changes or deletes a committed transfer, entry or record.
  lemma {:induction false} RunGrows(config: FxConfig.Config, db: Db, events: seq<Event>)
    ensures Grows(db, Run(config, db, events))
  {
    if events != [] {
      var n := |events| - 1;
      RunGrows(config, db, events[..n]);
      NextGrows(config, Run(config, db, events[..n]), events[n]);
      GrowsTransitive(db, Run(config, db, events[..n]), Run(config, db, events));
    }
  }

  lemma RunOneMore(config: FxConfig.Config, db: Db, events: seq<Event>, event: Event)
    ensures Run(config, db, events + [event]) == Next(config, Run(config, db, events), event)
  {
    assert (events + [event])[..|events|] == events;
  }

  lemma {:induction false} RunConcat(config: FxConfig.Config, db: Db, first: seq<Event>, second: seq<Event>)
    ensures Run(config, db, first + second) == Run(config, Run(config, db, first), second)
  {
    if second == [] {
      assert first + second == first;
    } else {
      var front, last := second[..|second| - 1], second[|second| - 1];
      assert second == front + [last] && first + second == (first + front) + [last];
      RunConcat(config, db, first, front);
      RunOneMore(config, db, first + front, last);
      RunOneMore(config, Run(config, db, first), front, last);
    }
  }

  // A run up to position i goes through the event at position j before it.
  lemma RunThrough(config: FxConfig.Config, db: Db, events: seq<Event>, j: nat, i: nat)
    requires j < i <= |events|
    ensures Run(config, db, events[..i]) ==
            Run(config, Next(config, Run(config, db, events[..j]), events[j]), events[j + 1..i])
  {
    assert events[..i] == events[..j + 1] + events[j + 1..i];
    RunConcat(config, db, events[..j + 1], events[j + 1..i]);
    assert events[..j + 1] == events[..j] + [events[j]];
    RunOneMore(config, db, events[..j], events[j]);
  }

  // The currencies a request was classified by stay what they are.
  lemma ClassifyStable(db: Db, after: Db, req: Request)
    requires Grows(db, after) && Classify(db.accounts, req).Ok?
    ensures Classify(after.accounts, req) == Classify(db.accounts, req)
  {
  }

  // A retry: the same client sends the same call under the same key, at another time and with
  // other UUIDs drawn for it.
  predicate SameIntent(req: Request, retry: Request) {
    req.client == retry.client && req.key == retry.key && req.call == retry.call
  }

  lemma ClassifyIgnoresDraws(accounts: map<Id, Account>, req: Request, retry: Request)
    requires SameIntent(req, retry)
    ensures Classify(accounts, req) == Classify(accounts, retry)
  {
  }

  // The fast path decides as the reservation would: it lets a request go on exactly when the key
  // is free, and otherwise gives the same answer.
  lemma FastPathAgrees(records: map<RecordKey, Record>, k: Keyed)
    requires RecordsComplete(records)
    ensures FastReply(records, k) ==
            if k.key in records then Some(TakenReply(records[k.key], k.fingerprint)) else None
  {
  }

  // On sound tables the `expect` and the `unreachable!` are never reached.
  lemma NeverPanics(config: FxConfig.Config, db: Db, openings: Openings, req: Request)
    requires Sound(db, openings)
    ensures Apply(config, db, req).reply != Panicked
  {
  }

  // Only a success changes anything, so a failed attempt leaves its key free.
  lemma FailureChangesNothing(config: FxConfig.Config, db: Db, req: Request)
    ensures !Apply(config, db, req).reply.Success? ==> Apply(config, db, req).db == db
  {
  }

  lemma SuccessIsRecorded(config: FxConfig.Config, db: Db, req: Request)
    requires Apply(config, db, req).reply.Success?
    ensures Classify(db.accounts, req).Ok?
    ensures var k, after := Classify(db.accounts, req).value, Apply(config, db, req);
            && k.key in after.db.records
            && after.db.records[k.key].fingerprint == k.fingerprint
            && after.db.records[k.key].completion.Some?
            && after.reply == Success(after.db.records[k.key].completion.value.status,
                                      after.db.records[k.key].completion.value.body)
  {
  }

  // After a success, whatever else runs in between, a request with the same key and an equal
  // fingerprint gets the stored reply and changes nothing; another fingerprint gets a conflict.
  lemma AnsweredOnce(config: FxConfig.Config, db: Db, req: Request, between: seq<Event>, retry: Request)
    requires Apply(config, db, req).reply.Success?
    ensures Classify(db.accounts, req).Ok?
    ensures var first := Apply(config, db, req);
            var later := Run(config, first.db, between);
            var k := Classify(db.accounts, req).value;
            Classify(later.accounts, retry).Ok? && Classify(later.accounts, retry).value.key == k.key ==>
              Apply(config, later, retry) ==
              Outcome(later, if Classify(later.accounts, retry).value.fingerprint == k.fingerprint
                             then first.reply else Failure(IdempotencyConflict))
  {
    SuccessIsRecorded(config, db, req);
    RunGrows(config, Apply(config, db, req).db, between);
  }

  // In particular a retry of the same call is answered alike, for ever.
  lemma RetryAnsweredAlike(config: FxConfig.Config, db: Db, req: Request, between: seq<Event>, retry: Request)
    requires Apply(config, db, req).reply.Success? && SameIntent(req, retry)
    ensures var first := Apply(config, db, req);
            var later := Run(config, first.db, between);
            Apply(config, later, retry) == Outcome(later, first.reply)
  {
    SuccessIsRecorded(config, db, req);
    var first := Apply(config, db, req);
    var later := Run(config, first.db, between);
    NextGrows(config, db, Serve(req));
    RunGrows(config, first.db, between);
    GrowsTransitive(db, first.db, later);
    ClassifyStable(db, later, req);
    ClassifyIgnoresDraws(later.accounts, req, retry);
    AnsweredOnce(config, db, req, between, retry);
  }

  // A request the tables answer with success.
  predicate Succeeds(config: FxConfig.Config, db: Db, event: Event) {
    event.Serve? && Apply(config, db, event.request).reply.Success?
  }

  // Under which key a request asks the tables for what.
  predicate Asks(db: Db, event: Event, key: RecordKey, asked: Fingerprint) {
    event.Serve? &&
    var k := Classify(db.accounts, event.request);
    k.Ok? && k.value.key == key && k.value.fingerprint == asked
  }

  ghost predicate AnsweredAt(config: FxConfig.Config, db: Db, events: seq<Event>, j: nat) {
    j < |events| && Succeeds(config, Run(config, db, events[..j]), events[j])
  }

  ghost predicate AsksAt(config: FxConfig.Config, db: Db, events: seq<Event>, i: nat, key: RecordKey, asked: Fingerprint) {
    i < |events| && Asks(Run(config, db, events[..i]), events[i], key, asked)
  }

  // Event i asks, under the key of an earlier request answered with success, for the same thing.
  ghost predicate Repeats(
      config: FxConfig.Config, db: Db, events: seq<Event>, j: nat, i: nat, key: RecordKey, asked: Fingerprint)
  {
    && j < i && AnsweredAt(config, db, events, j)
    && AsksAt(config, db, events, j, key, asked) && AsksAt(config, db, events, i, key, asked)
  }

  ghost predicate IsRetry(config: FxConfig.Config, db: Db, events: seq<Event>, i: nat) {
    exists j, key, asked :: Repeats(config, db, events, j, i, key, asked)
  }

  // The answer to an event, if it is a request.
  function ReplyTo(config: FxConfig.Config, db: Db, event: Event): Option<Reply> {
    if event.Serve? then Some(Apply(config, db, event.request).reply) else None
  }

  function Replies(config: FxConfig.Config, db: Db, events: seq<Event>): (replies: seq<Option<Reply>>)
    ensures |replies| == |events|
  {
    if events == [] then []
    else
      var n := |events| - 1;
      Replies(config, db, events[..n]) + [ReplyTo(config, Run(config, db, events[..n]), events[n])]
  }

  function Kept<T>(items: seq<T>, keep: seq<bool>): seq<T>
    requires |items| == |keep|
  {
    if items == [] then []
    else
      var n := |items| - 1;
      Kept(items[..n], keep[..n]) + (if keep[n] then [items[n]] else [])
  }

  // A later request under the key of an answered one gets the first reply if it asks for the same
  // thing, a conflict if it does not, and changes nothing.
  lemma LaterAnswer(
      config: FxConfig.Config, db: Db, events: seq<Event>, j: nat, i: nat,
      key: RecordKey, asked: Fingerprint, other: Fingerprint)
    requires j < i && AnsweredAt(config, db, events, j)
    requires AsksAt(config, db, events, j, key, asked) && AsksAt(config, db, events, i, key, other)
    ensures var now := Run(config, db, events[..i]);
            Apply(config, now, events[i].request) ==
            Outcome(now, if asked == other
                         then Apply(config, Run(config, db, events[..j]), events[j].request).reply
                         else Failure(IdempotencyConflict))
  {
    var before, first, later := Run(config, db, events[..j]), events[j].request, events[i].request;
    RunThrough(config, db, events, j, i);
    assert events[j] == Serve(first);
    AnsweredOnce(config, before, first, events[j + 1..i], later);
  }

  lemma RetryIsNoOp(config: FxConfig.Config, db: Db, events: seq<Event>, i: nat)
    requires IsRetry(config, db, events, i)
    ensures i < |events| && Next(config, Run(config, db, events[..i]), events[i]) == Run(config, db, events[..i])
  {
    var j: nat, key, asked :| Repeats(config, db, events, j, i, key, asked);
    LaterAnswer(config, db, events, j, i, key, asked, asked);
    assert events[i] == Serve(events[i].request);
  }

  ghost predicate OnlyRetriesDropped(config: FxConfig.Config, db: Db, events: seq<Event>, keep: seq<bool>) {
    |events| == |keep| && forall i: nat :: i < |events| && !keep[i] ==> IsRetry(config, db, events, i)
  }

  lemma PrefixDropsRetries(config: FxConfig.Config, db: Db, events: seq<Event>, keep: seq<bool>, n: nat)
    requires OnlyRetriesDropped(config, db, events, keep) && n <= |events|
    ensures OnlyRetriesDropped(config, db, events[..n], keep[..n])
  {
    forall i: nat | i < n && !keep[i] ensures IsRetry(config, db, events[..n], i) {
      RetryOfPrefix(config, db, events, n, i);
    }
  }

  lemma AsksInPrefix(
      config: FxConfig.Config, db: Db, events: seq<Event>, n: nat, i: nat, key: RecordKey, asked: Fingerprint)
    requires i < n <= |events| && AsksAt(config, db, events, i, key, asked)
    ensures AsksAt(config, db, events[..n], i, key, asked)
  {
    assert events[..n][..i] == events[..i];
  }

  lemma AnsweredInPrefix(config: FxConfig.Config, db: Db, events: seq<Event>, n: nat, j: nat)
    requires j < n <= |events| && AnsweredAt(config, db, events, j)
    ensures AnsweredAt(config, db, events[..n], j)
  {
    assert events[..n][..j] == events[..j];
  }

  lemma RetryOfPrefix(config: FxConfig.Config, db: Db, events: seq<Event>, n: nat, i: nat)
    requires i < n <= |events| && IsRetry(config, db, events, i)
    ensures IsRetry(config, db, events[..n], i)
  {
    var j: nat, key, asked :| Repeats(config, db, events, j, i, key, asked);
    AsksInPrefix(config, db, events, n, j, key, asked);
    AsksInPrefix(config, db, events, n, i, key, asked);
    AnsweredInPrefix(config, db, events, n, j);
    assert Repeats(config, db, events[..n], j, i, key, asked);
  }

  // The kept events alone lead to the same tables, with the same answers.
  ghost predicate DropsQuietly(config: FxConfig.Config, db: Db, events: seq<Event>, keep: seq<bool>)
    requires |events| == |keep|
  {
    && Run(config, db, Kept(events, keep)) == Run(config, db, events)
    && Replies(config, db, Kept(events, keep)) == Kept(Replies(config, db, events), keep)
  }

  lemma KeptOneMore<T>(front: seq<T>, last: T, keep: seq<bool>)
    requires |keep| == |front| + 1
    ensures keep[|front|] ==> Kept(front + [last], keep) == Kept(front, keep[..|front|]) + [last]
    ensures !keep[|front|] ==> Kept(front + [last], keep) == Kept(front, keep[..|front|])
  {
    assert (front + [last])[..|front|] == front;
  }

  lemma RepliesOneMore(config: FxConfig.Config, db: Db, front: seq<Event>, last: Event)
    ensures Replies(config, db, front + [last]) ==
            Replies(config, db, front) + [ReplyTo(config, Run(config, db, front), last)]
  {
    assert (front + [last])[..|front|] == front;
  }

  lemma LastKept(config: FxConfig.Config, db: Db, front: seq<Event>, last: Event, keep: seq<bool>)
    requires |keep| == |front| + 1 && keep[|front|] && DropsQuietly(config, db, front, keep[..|front|])
    ensures DropsQuietly(config, db, front + [last], keep)
  {
    var kept := Kept(front, keep[..|front|]);
    KeptOneMore(front, last, keep);
    KeptOneMore(Replies(config, db, front), ReplyTo(config, Run(config, db, front), last), keep);
    RepliesOneMore(config, db, front, last);
    RepliesOneMore(config, db, kept, last);
    RunOneMore(config, db, front, last);
    RunOneMore(config, db, kept, last);
  }

  lemma LastDropped(config: FxConfig.Config, db: Db, front: seq<Event>, last: Event, keep: seq<bool>)
    requires |keep| == |front| + 1 && !keep[|front|] && DropsQuietly(config, db, front, keep[..|front|])
    requires Next(config, Run(config, db, front), last) == Run(config, db, front)
    ensures DropsQuietly(config, db, front + [last], keep)
  {
    KeptOneMore(front, last, keep);
    KeptOneMore(Replies(config, db, front), ReplyTo(config, Run(config, db, front), last), keep);
    RepliesOneMore(config, db, front, last);
    RunOneMore(config, db, front, last);
  }

  // Leaving out any of a run's retries leaves its final tables, and the answers to all requests that
  // are kept, as they are.
  lemma {:induction false} RetriesCanBeDropped(config: FxConfig.Config, db: Db, events: seq<Event>, keep: seq<bool>)
    requires OnlyRetriesDropped(config, db, events, keep)
    ensures Run(config, db, Kept(events, keep)) == Run(config, db, events)
    ensures Replies(config, db, Kept(events, keep)) == Kept(Replies(config, db, events), keep)
  {
    if events != [] {
      var n := |events| - 1;
      assert events == events[..n] + [events[n]];
      PrefixDropsRetries(config, db, events, keep, n);
      RetriesCanBeDropped(config, db, events[..n], keep[..n]);
      if keep[n] {
        LastKept(config, db, events[..n], events[n], keep);
      } else {
        RetryIsNoOp(config, db, events, n);
        LastDropped(config, db, events[..n], events[n], keep);
      }
    }
  }
}
