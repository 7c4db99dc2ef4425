/** The account-pool schedule of the benchmark: transfers around a ring of accounts, run in chunks
    whose transfers may complete in any order (benchmarks/src/dataset.rs, benchmarks/src/main.rs). */
module Ring {

  // One transfer of 1.00 from one account of the pool to another.
  datatype Move = Move(source: nat, destination: nat)

  const INITIAL: int := 10_000
  const AMOUNT: int := 100
  const U64_LIMIT: nat := 0x1_0000_0000_0000_0000

  // The schedule needs a pool of two, and seed plus index within a u64.
  predicate Schedulable(seed: nat, poolSize: nat, count: nat) {
    poolSize >= 2 && seed + count <= U64_LIMIT
  }

  function Offset(seed: nat, poolSize: nat): (offset: nat)
    requires poolSize >= 2
    ensures 1 <= offset < poolSize
  {
    seed % (poolSize - 1) + 1
  }

  function MoveAt(seed: nat, poolSize: nat, index: nat): Move
    requires poolSize >= 2
  {
    var source := (index + seed) % poolSize;
    Move(source, (source + Offset(seed, poolSize)) % poolSize)
  }

  function AccountPoolPlans(seed: nat, poolSize: nat, warmup: nat, measured: nat): (plans: seq<Move>)
    requires Schedulable(seed, poolSize, warmup + measured)
    ensures |plans| == warmup + measured
  {
    seq(warmup + measured, index requires index >= 0 => MoveAt(seed, poolSize, index))
  }

  /* -------------------- what moves do to a balance -------------------- */

  function Payments(plans: seq<Move>, a: nat): nat {
    if plans == [] then 0
    else Payments(plans[..|plans| - 1], a) + (if plans[|plans| - 1].source == a then 1 else 0)
  }

  function Receipts(plans: seq<Move>, a: nat): nat {
    if plans == [] then 0
    else Receipts(plans[..|plans| - 1], a) + (if plans[|plans| - 1].destination == a then 1 else 0)
  }

  function Net(plans: seq<Move>, a: nat): int {
    AMOUNT * (Receipts(plans, a) - Payments(plans, a))
  }

  predicate WithinPool(plans: seq<Move>, poolSize: nat) {
    forall i :: 0 <= i < |plans| ==> plans[i].source < poolSize && plans[i].destination < poolSize
  }

  lemma OneMore(plans: seq<Move>, i: nat, a: nat)
    requires i < |plans|
    ensures Net(plans[..i + 1], a) ==
            Net(plans[..i], a) + (if plans[i].destination == a then AMOUNT else 0)
            - (if plans[i].source == a then AMOUNT else 0)
  {
    assert plans[..i + 1][..i] == plans[..i];
  }

  method ExpectedPoolBalances(poolSize: nat, plans: seq<Move>) returns (balances: array<int>)
    requires WithinPool(plans, poolSize)
    ensures fresh(balances) && balances.Length == poolSize
    ensures forall a :: 0 <= a < poolSize ==> balances[a] == INITIAL + Net(plans, a)
  {
    balances := new int[poolSize](_ => INITIAL);
    for i := 0 to |plans|
      invariant forall a :: 0 <= a < poolSize ==> balances[a] == INITIAL + Net(plans[..i], a)
    {
      forall a | 0 <= a < poolSize {
        OneMore(plans, i, a);
      }
      balances[plans[i].source] := balances[plans[i].source] - AMOUNT;
      balances[plans[i].destination] := balances[plans[i].destination] + AMOUNT;
    }
    assert plans[..|plans|] == plans;
  }

  /* -------------------- positions on the ring -------------------- */

  lemma ModStep(x: nat, n: nat)
    requires n > 0
    ensures (x + 1) % n == if x % n + 1 == n then 0 else x % n + 1
    ensures (x + 1) / n == if x % n + 1 == n then x / n + 1 else x / n
  {
    var q, r := x / n, x % n;
    if r + 1 == n {
      assert x + 1 == (q + 1) * n + 0;
      DivModUnique(x + 1, n, q + 1, 0);
    } else {
      DivModUnique(x + 1, n, q, r + 1);
    }
  }

  lemma Multiples(d: int, n: nat)
    ensures d >= 1 ==> d * n >= n
    ensures d <= -1 ==> d * n <= 0 - n
  {
  }

  lemma DivModUnique(x: nat, n: nat, q: nat, r: nat)
    requires r < n && x == q * n + r
    ensures x / n == q && x % n == r
  {
    var d := x / n - q;
    assert x == (x / n) * n + x % n;
    assert d * n == r - x % n;
    Multiples(d, n);
  }

  // How many steps a start is before a position.
  function Distance(start: nat, a: nat, n: nat): nat
    requires start < n && a < n
  {
    if a >= start then a - start else a + n - start
  }

  lemma {:induction false} PositionAfter(start: nat, m: nat, n: nat)
    requires n > 0
    ensures (start + m) % n == (var p := start % n + m % n; if p >= n then p - n else p)
  {
    if m > 0 {
      PositionAfter(start, m - 1, n);
      ModStep(start + m - 1, n);
      ModStep(m - 1, n);
    } else {
      DivModUnique(0, n, 0, 0);
    }
  }

  // Moves with consecutive indices, sources and destinations both going round the ring.
  predicate GoesRound(plans: seq<Move>, n: nat, source: nat, destination: nat) {
    n > 0 && forall i :: 0 <= i < |plans| ==> plans[i] == Move((source + i) % n, (destination + i) % n)
  }

  // What a walk of m steps round the ring visits: every position once a round.
  function Visits(start: nat, m: nat, n: nat, a: nat): nat
    requires n > 0 && a < n
  {
    m / n + (if Distance(start % n, a, n) < m % n then 1 else 0)
  }

  lemma VisitsStep(start: nat, m: nat, n: nat, a: nat)
    requires n > 0 && a < n
    ensures Visits(start, m + 1, n, a) == Visits(start, m, n, a) + (if (start + m) % n == a then 1 else 0)
  {
    ModStep(m, n);
    PositionAfter(start, m, n);
  }

  lemma {:induction false} WalkVisits(plans: seq<Move>, n: nat, source: nat, destination: nat, a: nat)
    requires GoesRound(plans, n, source, destination) && a < n
    ensures Payments(plans, a) == Visits(source, |plans|, n, a)
    ensures Receipts(plans, a) == Visits(destination, |plans|, n, a)
  {
    if plans == [] {
      DivModUnique(0, n, 0, 0);
    } else {
      var m := |plans| - 1;
      WalkVisits(plans[..m], n, source, destination, a);
      VisitsStep(source, m, n, a);
      VisitsStep(destination, m, n, a);
    }
  }

  lemma SlicesGoRound(plans: seq<Move>, n: nat, source: nat, destination: nat, i: nat, j: nat)
    requires GoesRound(plans, n, source, destination) && i <= j <= |plans|
    ensures GoesRound(plans[i..j], n, source + i, destination + i)
  {
    forall k | 0 <= k < j - i ensures plans[i..j][k] == Move((source + i + k) % n, (destination + i + k) % n) {
      assert plans[i..j][k] == plans[i + k];
      assert source + (i + k) == source + i + k && destination + (i + k) == destination + i + k;
    }
  }

  lemma ModSum(x: nat, y: nat, n: nat)
    requires n > 0
    ensures (x % n + y) % n == (x + y) % n
  {
    PositionAfter(x, y, n);
    PositionAfter(x % n, y, n);
    DivModUnique(x % n, n, 0, x % n);
  }

  lemma ModSumOf(seed: nat, i: nat, offset: nat, n: nat)
    requires n > 0
    ensures ((i + seed) % n + offset) % n == (seed + offset + i) % n
    ensures (i + seed) % n == (seed + i) % n
  {
    var x := i + seed;
    ModSum(x, offset, n);
    assert x + offset == seed + offset + i;
  }

  lemma MoveOnRing(seed: nat, poolSize: nat, i: nat)
    requires poolSize >= 2
    ensures MoveAt(seed, poolSize, i) == Move((seed + i) % poolSize, (seed + Offset(seed, poolSize) + i) % poolSize)
  {
    ModSumOf(seed, i, Offset(seed, poolSize), poolSize);
  }

  lemma PlansGoRound(seed: nat, poolSize: nat, warmup: nat, measured: nat)
    requires Schedulable(seed, poolSize, warmup + measured)
    ensures GoesRound(AccountPoolPlans(seed, poolSize, warmup, measured), poolSize, seed, seed + Offset(seed, poolSize))
  {
    forall i: nat | i < warmup + measured {
      MoveOnRing(seed, poolSize, i);
    }
  }

  // Any stretch of consecutive moves leaves every balance within one amount.
  lemma StretchWithinOne(plans: seq<Move>, n: nat, source: nat, destination: nat, i: nat, j: nat, a: nat)
    requires GoesRound(plans, n, source, destination) && i <= j <= |plans| && a < n
    ensures -AMOUNT <= Net(plans[i..j], a) <= AMOUNT
  {
    SlicesGoRound(plans, n, source, destination, i, j);
    WalkVisits(plans[i..j], n, source + i, destination + i, a);
  }

  // Whole rounds leave every balance as it was.
  lemma RoundsCancel(plans: seq<Move>, n: nat, source: nat, destination: nat, k: nat, a: nat)
    requires GoesRound(plans, n, source, destination) && |plans| == k * n && a < n
    ensures Net(plans, a) == 0
  {
    WalkVisits(plans, n, source, destination, a);
    DivModUnique(k * n, n, k, 0);
  }

  // Within one round nobody pays twice and nobody receives twice.
  predicate AllDifferent(plans: seq<Move>) {
    forall i, j :: 0 <= i < j < |plans| ==>
      plans[i].source != plans[j].source && plans[i].destination != plans[j].destination
  }

  lemma Apart(start: nat, i: nat, j: nat, n: nat)
    requires i < j < n
    ensures (start + i) % n != (start + j) % n
  {
    PositionAfter(start, i, n);
    PositionAfter(start, j, n);
    DivModUnique(i, n, 0, i);
    DivModUnique(j, n, 0, j);
  }

  lemma RoundIsDifferent(plans: seq<Move>, n: nat, source: nat, destination: nat)
    requires GoesRound(plans, n, source, destination) && |plans| <= n
    ensures AllDifferent(plans) && WithinPool(plans, n)
  {
    forall i, j | 0 <= i < j < |plans|
      ensures plans[i].source != plans[j].source && plans[i].destination != plans[j].destination
    {
      Apart(source, i, j, n);
      Apart(destination, i, j, n);
    }
  }

  /* -------------------- running the schedule -------------------- */

  function Indices(n: nat): (s: set<nat>)
    ensures forall i: nat :: i in s <==> i < n
  {
    if n == 0 then {} else Indices(n - 1) + {n - 1}
  }

  predicate Pays(plans: seq<Move>, done: set<nat>, a: nat) {
    exists i :: i in done && i < |plans| && plans[i].source == a
  }

  predicate Receives(plans: seq<Move>, done: set<nat>, a: nat) {
    exists i :: i in done && i < |plans| && plans[i].destination == a
  }

  // What the finished moves of a round have done to a balance.
  function Change(plans: seq<Move>, done: set<nat>, a: nat): int {
    (if Receives(plans, done, a) then AMOUNT else 0) - (if Pays(plans, done, a) then AMOUNT else 0)
  }

  lemma ChangeMore(plans: seq<Move>, done: set<nat>, i: nat, a: nat)
    requires AllDifferent(plans) && i < |plans| && i !in done && forall j :: j in done ==> j < |plans|
    ensures Change(plans, done + {i}, a) ==
            Change(plans, done, a) + (if plans[i].destination == a then AMOUNT else 0)
            - (if plans[i].source == a then AMOUNT else 0)
  {
    PaysMore(plans, done, i, a);
    ReceivesMore(plans, done, i, a);
  }

  lemma PaysMore(plans: seq<Move>, done: set<nat>, i: nat, a: nat)
    requires AllDifferent(plans) && i < |plans| && i !in done && forall j :: j in done ==> j < |plans|
    ensures Pays(plans, done + {i}, a) <==> Pays(plans, done, a) || plans[i].source == a
    ensures plans[i].source == a ==> !Pays(plans, done, a)
  {
    assert i in done + {i};
    if Pays(plans, done, a) {
      var j :| j in done && plans[j].source == a;
      assert j in done + {i};
    }
  }

  lemma ReceivesMore(plans: seq<Move>, done: set<nat>, i: nat, a: nat)
    requires AllDifferent(plans) && i < |plans| && i !in done && forall j :: j in done ==> j < |plans|
    ensures Receives(plans, done + {i}, a) <==> Receives(plans, done, a) || plans[i].destination == a
    ensures plans[i].destination == a ==> !Receives(plans, done, a)
  {
    assert i in done + {i};
    if Receives(plans, done, a) {
      var j :| j in done && plans[j].destination == a;
      assert j in done + {i};
    }
  }

  // With all of a round finished the change is the net of the round, whatever the order was.
  lemma {:induction false} ChangeIsNet(plans: seq<Move>, n: nat, a: nat)
    requires AllDifferent(plans) && n <= |plans|
    ensures Change(plans, Indices(n), a) == Net(plans[..n], a)
  {
    if n > 0 {
      ChangeIsNet(plans, n - 1, a);
      assert Indices(n) == Indices(n - 1) + {n - 1};
      ChangeMore(plans, Indices(n - 1), n - 1, a);
      OneMore(plans, n - 1, a);
    }
  }

  // At every moment of every run, the finished moves being all those before some chunk and any of
  // the chunk's, a balance is within two amounts of where it started; nobody runs short of funds.
  lemma EveryMomentWithinTwo(
      seed: nat, poolSize: nat, warmup: nat, measured: nat, k: nat, end: nat, done: set<nat>, a: nat)
    requires Schedulable(seed, poolSize, warmup + measured) && a < poolSize
    requires k <= end <= warmup + measured && end - k <= poolSize
    ensures var plans := AccountPoolPlans(seed, poolSize, warmup, measured);
            && AllDifferent(plans[k..end])
            && -2 * AMOUNT <= Net(plans[..k], a) + Change(plans[k..end], done, a) <= 2 * AMOUNT
  {
    var plans := AccountPoolPlans(seed, poolSize, warmup, measured);
    var offset := Offset(seed, poolSize);
    PlansGoRound(seed, poolSize, warmup, measured);
    StretchWithinOne(plans, poolSize, seed, seed + offset, 0, k, a);
    assert plans[0..k] == plans[..k];
    SlicesGoRound(plans, poolSize, seed, seed + offset, k, end);
    RoundIsDifferent(plans[k..end], poolSize, seed + k, seed + offset + k);
  }

  predicate Near(balances: seq<int>, distance: nat) {
    forall a :: 0 <= a < |balances| ==> INITIAL - distance <= balances[a] <= INITIAL + distance
  }

  // One transfer; the service rejects it unless the source has the funds.
  method Transfer(balances: array<int>, move: Move)
    requires move.source < balances.Length && move.destination < balances.Length && move.source != move.destination
    requires balances[move.source] >= AMOUNT
    modifies balances
    ensures forall a :: 0 <= a < balances.Length ==>
              balances[a] == old(balances[a]) + (if move.destination == a then AMOUNT else 0)
                             - (if move.source == a then AMOUNT else 0)
  {
    balances[move.source] := balances[move.source] - AMOUNT;
    balances[move.destination] := balances[move.destination] + AMOUNT;
  }

  // The requests of one chunk complete in any order; no transfer is ever short of funds, and no
  // balance is ever more than two amounts from where it started.
  method RunPhase(plans: seq<Move>, balances: array<int>)
    requires AllDifferent(plans) && WithinPool(plans, balances.Length)
    requires forall i :: 0 <= i < |plans| ==> plans[i].source != plans[i].destination
    requires Near(balances[..], AMOUNT)
    modifies balances
    ensures forall a :: 0 <= a < balances.Length ==> balances[a] == old(balances[a]) + Net(plans, a)
  {
    var done: set<nat> := {};
    while done != Indices(|plans|)
      invariant forall i :: i in done ==> i < |plans|
      invariant forall a :: 0 <= a < balances.Length ==> balances[a] == old(balances[a]) + Change(plans, done, a)
      invariant Near(balances[..], 2 * AMOUNT)
      decreases Indices(|plans|) - done
    {
      var i: nat :| i < |plans| && i !in done;
      forall a | 0 <= a < balances.Length {
        ChangeMore(plans, done, i, a);
      }
      Transfer(balances, plans[i]);
      done := done + {i};
    }
    forall a | 0 <= a < balances.Length {
      ChangeIsNet(plans, |plans|, a);
    }
    assert plans[..|plans|] == plans;
  }

  lemma NetConcat(plans: seq<Move>, i: nat, j: nat, a: nat)
    requires i <= j <= |plans|
    ensures Net(plans[..j], a) == Net(plans[..i], a) + Net(plans[i..j], a)
  {
    if i < j {
      NetConcat(plans, i, j - 1, a);
      OneMore(plans, j - 1, a);
      assert plans[i..j][..j - 1 - i] == plans[i..j - 1];
    } else {
      assert plans[i..i] == [];
    }
  }

  // A chunk of the pool's size after the other.
  method RunOperations(plans: seq<Move>, balances: array<int>, ghost source: nat, ghost destination: nat)
    requires balances.Length >= 2 && GoesRound(plans, balances.Length, source, destination)
    requires forall i :: 0 <= i < |plans| ==> plans[i].source != plans[i].destination
    requires Near(balances[..], AMOUNT)
    modifies balances
    ensures forall a :: 0 <= a < balances.Length ==> balances[a] == old(balances[a]) + Net(plans, a)
  {
    var n := balances.Length;
    var k := 0;
    ghost var rounds := 0;
    while k < |plans|
      invariant 0 <= k <= |plans| && (k < |plans| ==> k == rounds * n)
      invariant forall a :: 0 <= a < n ==> balances[a] == old(balances[a]) + Net(plans[..k], a)
    {
      var end := if k + n <= |plans| then k + n else |plans|;
      SlicesGoRound(plans, n, source, destination, 0, k);
      SlicesGoRound(plans, n, source, destination, k, end);
      RoundIsDifferent(plans[k..end], n, source + k, destination + k);
      forall a | 0 <= a < n ensures Net(plans[..k], a) == 0 && Net(plans[..end], a) == Net(plans[k..end], a) {
        assert plans[0..k] == plans[..k];
        RoundsCancel(plans[..k], n, source, destination, rounds, a);
        NetConcat(plans, k, end, a);
      }
      RunPhase(plans[k..end], balances);
      k, rounds := end, rounds + 1;
    }
    assert plans[..|plans|] == plans;
  }

  lemma NobodyPaysThemselves(seed: nat, poolSize: nat, warmup: nat, measured: nat, i: nat)
    requires Schedulable(seed, poolSize, warmup + measured) && i < warmup + measured
    ensures var m := AccountPoolPlans(seed, poolSize, warmup, measured)[i];
            m.source != m.destination && m.source < poolSize && m.destination < poolSize
  {
    var offset := Offset(seed, poolSize);
    var s := (i + seed) % poolSize;
    if s + offset < poolSize {
      DivModUnique(s + offset, poolSize, 0, s + offset);
    } else {
      DivModUnique(s + offset, poolSize, 1, s + offset - poolSize);
    }
  }

  lemma PoolPlansAreMoves(seed: nat, poolSize: nat, warmup: nat, measured: nat)
    requires Schedulable(seed, poolSize, warmup + measured)
    ensures var plans := AccountPoolPlans(seed, poolSize, warmup, measured);
            && WithinPool(plans, poolSize)
            && forall i :: 0 <= i < |plans| ==> plans[i].source != plans[i].destination
  {
    var plans := AccountPoolPlans(seed, poolSize, warmup, measured);
    forall i | 0 <= i < |plans|
      ensures plans[i].source != plans[i].destination && plans[i].source < poolSize && plans[i].destination < poolSize
    {
      NobodyPaysThemselves(seed, poolSize, warmup, measured, i);
    }
  }

  lemma TwoPhases(plans: seq<Move>, n: nat, source: nat, destination: nat, warmup: nat, a: nat)
    requires GoesRound(plans, n, source, destination) && warmup <= |plans| && a < n
    ensures -AMOUNT <= Net(plans[..warmup], a) <= AMOUNT && -AMOUNT <= Net(plans, a) <= AMOUNT
    ensures Net(plans, a) == Net(plans[..warmup], a) + Net(plans[warmup..], a)
  {
    StretchWithinOne(plans, n, source, destination, 0, warmup, a);
    StretchWithinOne(plans, n, source, destination, 0, |plans|, a);
    NetConcat(plans, warmup, |plans|, a);
    assert plans[0..warmup] == plans[..warmup] && plans[0..|plans|] == plans == plans[..|plans|];
    assert plans[warmup..|plans|] == plans[warmup..];
  }

  // Warm-up and measured operations, each run in chunks of its own: whatever order the requests of a
  // chunk complete in, the balances end as expected_pool_balances computes them.
  method RunBenchmark(seed: nat, poolSize: nat, warmup: nat, measured: nat) returns (balances: array<int>, expected: array<int>)
    requires Schedulable(seed, poolSize, warmup + measured)
    ensures balances.Length == expected.Length == poolSize && balances[..] == expected[..]
    ensures Near(balances[..], AMOUNT)
  {
    var plans := AccountPoolPlans(seed, poolSize, warmup, measured);
    ghost var destination := seed + Offset(seed, poolSize);
    PlansGoRound(seed, poolSize, warmup, measured);
    PoolPlansAreMoves(seed, poolSize, warmup, measured);
    forall a | 0 <= a < poolSize {
      TwoPhases(plans, poolSize, seed, destination, warmup, a);
    }
    balances := new int[poolSize](_ => INITIAL);
    SlicesGoRound(plans, poolSize, seed, destination, 0, warmup);
    assert plans[0..warmup] == plans[..warmup];
    RunOperations(plans[..warmup], balances, seed, destination);
    SlicesGoRound(plans, poolSize, seed, destination, warmup, |plans|);
    assert plans[warmup..|plans|] == plans[warmup..];
    RunOperations(plans[warmup..], balances, seed + warmup, destination + warmup);
    expected := ExpectedPoolBalances(poolSize, plans);
  }
}
