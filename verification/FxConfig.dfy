/** Selection of the exchange rate and the fee rule in force (src/fx.rs, select functions). */
module FxConfig {
  import opened Common

  // A configuration row that is in force during the half-open interval [validFrom, validUntil).
  datatype Row<T> = Row(id: nat, validFrom: int, validUntil: int, item: T)

  datatype Rate = Rate(source: string, destination: string, text: string)

  // A rule for one currency pair, or the default rule when the pair is NULL.
  datatype Rule = Rule(pair: Option<(string, string)>, feeBps: int)

  datatype Config = Config(rates: seq<Row<Rate>>, rules: seq<Row<Rule>>)

  datatype ConfigurationError = RateUnavailable | RateAmbiguous | FeeRuleUnavailable | FeeRuleAmbiguous

  predicate InForce<T>(row: Row<T>, now: int) {
    row.validFrom <= now < row.validUntil
  }

  function Where<T>(rows: seq<T>, p: T -> bool): seq<T> {
    if rows == [] then [] else (if p(rows[0]) then [rows[0]] else []) + Where(rows[1..], p)
  }

  // ORDER BY valid_from, id
  predicate Before<T>(a: Row<T>, b: Row<T>) {
    a.validFrom < b.validFrom || (a.validFrom == b.validFrom && a.id <= b.id)
  }

  function Insert<T>(row: Row<T>, rows: seq<Row<T>>): seq<Row<T>> {
    if rows == [] then [row]
    else if Before(row, rows[0]) then [row] + rows
    else [rows[0]] + Insert(row, rows[1..])
  }

  function Ordered<T>(rows: seq<Row<T>>): seq<Row<T>> {
    if rows == [] then [] else Insert(rows[0], Ordered(rows[1..]))
  }

  // SELECT ... WHERE p ORDER BY valid_from, id LIMIT 2
  function FirstTwo<T>(rows: seq<Row<T>>, p: Row<T> -> bool): seq<Row<T>> {
    var found := Ordered(Where(rows, p));
    if |found| > 2 then found[..2] else found
  }

  function RateApplies(source: string, destination: string, now: int): Row<Rate> -> bool {
    (row: Row<Rate>) => row.item.source == source && row.item.destination == destination && InForce(row, now)
  }

  function RuleApplies(pair: Option<(string, string)>, now: int): Row<Rule> -> bool {
    (row: Row<Rule>) => row.item.pair == pair && InForce(row, now)
  }

  function SelectExchangeRate(rows: seq<Row<Rate>>, source: string, destination: string, now: int)
    : Result<Row<Rate>, ConfigurationError>
  {
    var found := FirstTwo(rows, RateApplies(source, destination, now));
    if found == [] then Err(RateUnavailable)
    else if |found| == 1 then Ok(found[0])
    else Err(RateAmbiguous)
  }

  function SelectFeeRule(rows: seq<Row<Rule>>, source: string, destination: string, now: int)
    : Result<Row<Rule>, ConfigurationError>
  {
    var pair := FirstTwo(rows, RuleApplies(Some((source, destination)), now));
    if |pair| == 1 then Ok(pair[0])
    else if pair != [] then Err(FeeRuleAmbiguous)
    else
      var defaults := FirstTwo(rows, RuleApplies(None, now));
      if defaults == [] then Err(FeeRuleUnavailable)
      else if |defaults| == 1 then Ok(defaults[0])
      else Err(FeeRuleAmbiguous)
  }

  /* -------------------- agreement with counting -------------------- */

  // What a fail-closed choice over a whole table should be: the only row, or why there is none.
  ghost predicate OnlyRow<T>(rows: seq<Row<T>>, p: Row<T> -> bool, k: nat) {
    k < |rows| && p(rows[k]) && forall i :: 0 <= i < |rows| && i != k ==> !p(rows[i])
  }

  ghost predicate NoRow<T>(rows: seq<Row<T>>, p: Row<T> -> bool) {
    forall i :: 0 <= i < |rows| ==> !p(rows[i])
  }

  ghost predicate SeveralRows<T>(rows: seq<Row<T>>, p: Row<T> -> bool) {
    exists i, j :: 0 <= i < j < |rows| && p(rows[i]) && p(rows[j])
  }

  lemma {:induction false} InsertKeeps<T>(row: Row<T>, rows: seq<Row<T>>)
    ensures multiset(Insert(row, rows)) == multiset(rows) + multiset{row}
  {
    if rows == [] {
    } else if Before(row, rows[0]) {
      assert multiset([row] + rows) == multiset{row} + multiset(rows);
    } else {
      var rest := rows[1..];
      InsertKeeps(row, rest);
      assert multiset([rows[0]] + Insert(row, rest)) == multiset{rows[0]} + multiset(Insert(row, rest));
      assert multiset(rows) == multiset{rows[0]} + multiset(rest) by {
        assert rows == [rows[0]] + rest;
      }
    }
  }

  lemma {:induction false} OrderedKeeps<T>(rows: seq<Row<T>>)
    ensures multiset(Ordered(rows)) == multiset(rows)
  {
    if rows != [] {
      OrderedKeeps(rows[1..]);
      InsertKeeps(rows[0], Ordered(rows[1..]));
      assert rows == [rows[0]] + rows[1..];
    }
  }

  lemma SameSize<T>(a: seq<T>, b: seq<T>)
    requires multiset(a) == multiset(b)
    ensures |a| == |b|
    ensures |a| == 1 ==> a == b
  {
    assert |a| == |multiset(a)| == |multiset(b)| == |b|;
    if |a| == 1 {
      assert a[0] in multiset(b);
    }
  }

  lemma FirstTwoShape<T>(rows: seq<Row<T>>, p: Row<T> -> bool)
    ensures var all := Where(rows, p);
            && |FirstTwo(rows, p)| == (if |all| > 2 then 2 else |all|)
            && (|all| == 1 ==> FirstTwo(rows, p) == all)
  {
    OrderedKeeps(Where(rows, p));
    SameSize(Ordered(Where(rows, p)), Where(rows, p));
  }

  lemma {:induction false} WhereNone<T>(rows: seq<Row<T>>, p: Row<T> -> bool)
    requires NoRow(rows, p)
    ensures Where(rows, p) == []
  {
    if rows != [] {
      WhereNone(rows[1..], p);
    }
  }

  lemma {:induction false} WhereConcat<T>(a: seq<Row<T>>, b: seq<Row<T>>, p: Row<T> -> bool)
    ensures Where(a + b, p) == Where(a, p) + Where(b, p)
  {
    if a == [] {
      assert a + b == b;
    } else {
      WhereConcat(a[1..], b, p);
      assert (a + b)[1..] == a[1..] + b;
      var first := if p(a[0]) then [a[0]] else [];
      Associate(first, Where(a[1..], p), Where(b, p));
    }
  }

  // The rows found fall into those before some row, that row if it matches, and those after it.
  lemma WhereSplit<T>(rows: seq<Row<T>>, p: Row<T> -> bool, k: nat)
    requires k < |rows|
    ensures Where(rows, p) == Where(rows[..k], p) + (if p(rows[k]) then [rows[k]] else []) + Where(rows[k + 1..], p)
  {
    var before, after := rows[..k], rows[k..];
    assert rows == before + after;
    WhereConcat(before, after, p);
    assert Where(rows, p) == Where(before, p) + Where(after, p);
    WhereFirst(after, p);
    assert after[1..] == rows[k + 1..];
    Associate(Where(before, p), if p(rows[k]) then [rows[k]] else [], Where(after[1..], p));
  }

  lemma WhereFirst<T>(rows: seq<Row<T>>, p: Row<T> -> bool)
    requires rows != []
    ensures Where(rows, p) == (if p(rows[0]) then [rows[0]] else []) + Where(rows[1..], p)
  {
  }

  lemma Associate<T>(a: seq<T>, b: seq<T>, c: seq<T>)
    ensures a + (b + c) == a + b + c
  {
  }

  lemma WhereCounts<T>(rows: seq<Row<T>>, p: Row<T> -> bool)
    ensures |Where(rows, p)| == 0 <==> NoRow(rows, p)
    ensures |Where(rows, p)| > 1 <==> SeveralRows(rows, p)
    ensures forall k: nat :: OnlyRow(rows, p, k) ==> Where(rows, p) == [rows[k]]
    ensures |Where(rows, p)| == 1 ==> exists k: nat :: OnlyRow(rows, p, k)
  {
    forall k: nat | OnlyRow(rows, p, k) ensures Where(rows, p) == [rows[k]] {
      WhereSplit(rows, p, k);
      WhereNone(rows[..k], p);
      WhereNone(rows[k + 1..], p);
    }
    if NoRow(rows, p) {
      WhereNone(rows, p);
    } else {
      var k: nat :| k < |rows| && p(rows[k]);
      WhereSplit(rows, p, k);
      if !OnlyRow(rows, p, k) {
        var i: nat :| i < |rows| && i != k && p(rows[i]);
        TwoFound(rows, p, if i < k then i else k, if i < k then k else i);
      }
    }
  }

  lemma TwoFound<T>(rows: seq<Row<T>>, p: Row<T> -> bool, i: nat, j: nat)
    requires i < j < |rows| && p(rows[i]) && p(rows[j])
    ensures |Where(rows, p)| > 1 && SeveralRows(rows, p)
  {
    WhereSplit(rows, p, i);
    var rest := rows[i + 1..];
    assert rest[j - i - 1] == rows[j];
    WhereSplit(rest, p, j - i - 1);
  }

  // Row k of the table is in force for the pair.
  ghost predicate RateAt(rows: seq<Row<Rate>>, source: string, destination: string, now: int, k: nat) {
    && k < |rows| && rows[k].item.source == source && rows[k].item.destination == destination
    && rows[k].validFrom <= now < rows[k].validUntil
  }

  ghost predicate OnlyRate(rows: seq<Row<Rate>>, source: string, destination: string, now: int, k: nat) {
    RateAt(rows, source, destination, now, k) && forall i: nat :: RateAt(rows, source, destination, now, i) ==> i == k
  }

  // Row k of the table is in force at one level: for a pair, or by default.
  ghost predicate RuleAt(rows: seq<Row<Rule>>, pair: Option<(string, string)>, now: int, k: nat) {
    k < |rows| && rows[k].item.pair == pair && rows[k].validFrom <= now < rows[k].validUntil
  }

  ghost predicate OnlyRule(rows: seq<Row<Rule>>, pair: Option<(string, string)>, now: int, k: nat) {
    RuleAt(rows, pair, now, k) && forall i: nat :: RuleAt(rows, pair, now, i) ==> i == k
  }

  ghost predicate NoRule(rows: seq<Row<Rule>>, pair: Option<(string, string)>, now: int) {
    forall k: nat :: !RuleAt(rows, pair, now, k)
  }

  ghost predicate SeveralRules(rows: seq<Row<Rule>>, pair: Option<(string, string)>, now: int) {
    exists i: nat, j: nat :: i < j && RuleAt(rows, pair, now, i) && RuleAt(rows, pair, now, j)
  }

  // The LIMIT 2 query tells no row, one row and several rows of the whole table apart.
  lemma FirstTwoCounts<T>(rows: seq<Row<T>>, p: Row<T> -> bool)
    ensures FirstTwo(rows, p) == [] <==> NoRow(rows, p)
    ensures |FirstTwo(rows, p)| > 1 <==> SeveralRows(rows, p)
    ensures |FirstTwo(rows, p)| == 1 ==> exists k: nat :: OnlyRow(rows, p, k)
    ensures forall k: nat :: OnlyRow(rows, p, k) ==> FirstTwo(rows, p) == [rows[k]]
  {
    FirstTwoShape(rows, p);
    WhereCounts(rows, p);
  }

  lemma RatesFound(rows: seq<Row<Rate>>, source: string, destination: string, now: int)
    ensures var p := RateApplies(source, destination, now);
            && (NoRow(rows, p) <==> forall k: nat :: !RateAt(rows, source, destination, now, k))
            && (forall k: nat :: OnlyRow(rows, p, k) <==> OnlyRate(rows, source, destination, now, k))
            && (SeveralRows(rows, p) <==>
                exists i: nat, j: nat ::
                  i < j && RateAt(rows, source, destination, now, i) && RateAt(rows, source, destination, now, j))
  {
    var p := RateApplies(source, destination, now);
    assert forall k: nat :: RateAt(rows, source, destination, now, k) <==> k < |rows| && p(rows[k]);
    if SeveralRows(rows, p) {
      var i: nat, j: nat :| i < j < |rows| && p(rows[i]) && p(rows[j]);
      assert RateAt(rows, source, destination, now, i) && RateAt(rows, source, destination, now, j);
    }
  }

  lemma RulesFound(rows: seq<Row<Rule>>, pair: Option<(string, string)>, now: int)
    ensures var p := RuleApplies(pair, now);
            && (NoRow(rows, p) <==> NoRule(rows, pair, now))
            && (forall k: nat :: OnlyRow(rows, p, k) <==> OnlyRule(rows, pair, now, k))
            && (SeveralRows(rows, p) <==> SeveralRules(rows, pair, now))
  {
    var p := RuleApplies(pair, now);
    assert forall k: nat :: RuleAt(rows, pair, now, k) <==> k < |rows| && p(rows[k]);
    if SeveralRows(rows, p) {
      var i: nat, j: nat :| i < j < |rows| && p(rows[i]) && p(rows[j]);
      assert RuleAt(rows, pair, now, i) && RuleAt(rows, pair, now, j);
    }
  }

  // A rate is chosen exactly if one row of the whole table has the source, the destination and the
  // time in its half-open interval; no such row and several such rows are told apart.
  lemma RateSelection(rows: seq<Row<Rate>>, source: string, destination: string, now: int)
    ensures var r := SelectExchangeRate(rows, source, destination, now);
            && (r.Ok? <==> exists k: nat :: OnlyRate(rows, source, destination, now, k))
            && (forall k: nat :: OnlyRate(rows, source, destination, now, k) ==> r == Ok(rows[k]))
            && (r == Err(RateUnavailable) <==> forall k: nat :: !RateAt(rows, source, destination, now, k))
            && (r == Err(RateAmbiguous) <==>
                exists i: nat, j: nat ::
                  i < j && RateAt(rows, source, destination, now, i) && RateAt(rows, source, destination, now, j))
  {
    FirstTwoCounts(rows, RateApplies(source, destination, now));
    RatesFound(rows, source, destination, now);
  }

  // The rules for the pair decide if there is one in force, and else the default rules; ambiguity is
  // judged within one level only.
  lemma FeeSelection(rows: seq<Row<Rule>>, source: string, destination: string, now: int)
    ensures var pair := Some((source, destination));
            var level := if NoRule(rows, pair, now) then None else pair;
            var r := SelectFeeRule(rows, source, destination, now);
            && (r.Ok? <==> exists k: nat :: OnlyRule(rows, level, now, k))
            && (forall k: nat :: OnlyRule(rows, level, now, k) ==> r == Ok(rows[k]))
            && (r == Err(FeeRuleUnavailable) <==> NoRule(rows, level, now))
            && (r == Err(FeeRuleAmbiguous) <==> SeveralRules(rows, level, now))
  {
    FirstTwoCounts(rows, RuleApplies(Some((source, destination)), now));
    RulesFound(rows, Some((source, destination)), now);
    FirstTwoCounts(rows, RuleApplies(None, now));
    RulesFound(rows, None, now);
  }

  function Without<T>(rows: seq<T>, k: nat): seq<T>
    requires k < |rows|
  {
    rows[..k] + rows[k + 1..]
  }

  lemma WithoutKeeps<T>(rows: seq<T>, k: nat)
    requires k < |rows|
    ensures multiset(Without(rows, k)) == multiset(rows) - multiset{rows[k]}
  {
    assert rows == rows[..k] + [rows[k]] + rows[k + 1..];
  }

  lemma WhereWithout<T>(rows: seq<Row<T>>, p: Row<T> -> bool, k: nat)
    requires k < |rows|
    ensures multiset(Where(rows, p)) ==
            multiset(Where(Without(rows, k), p)) + (if p(rows[k]) then multiset{rows[k]} else multiset{})
  {
    WhereSplit(rows, p, k);
    WhereConcat(rows[..k], rows[k + 1..], p);
    MiddleOut(Where(rows[..k], p), if p(rows[k]) then [rows[k]] else [], Where(rows[k + 1..], p));
  }

  lemma MiddleOut<T>(a: seq<T>, b: seq<T>, c: seq<T>)
    ensures multiset(a + b + c) == multiset(a + c) + multiset(b)
  {
  }

  lemma {:induction false} WherePermuted<T>(rows: seq<Row<T>>, permuted: seq<Row<T>>, p: Row<T> -> bool)
    requires multiset(rows) == multiset(permuted)
    ensures multiset(Where(rows, p)) == multiset(Where(permuted, p))
    decreases |rows|
  {
    SameSize(rows, permuted);
    if rows != [] {
      assert rows[0] in multiset(permuted);
      var k :| 0 <= k < |permuted| && permuted[k] == rows[0];
      WithoutKeeps(rows, 0);
      WithoutKeeps(permuted, k);
      WherePermuted(Without(rows, 0), Without(permuted, k), p);
      WhereWithout(rows, p, 0);
      WhereWithout(permuted, p, k);
    }
  }

  lemma FirstTwoIgnoresOrder<T>(rows: seq<Row<T>>, permuted: seq<Row<T>>, p: Row<T> -> bool)
    requires multiset(rows) == multiset(permuted)
    ensures |FirstTwo(rows, p)| == |FirstTwo(permuted, p)|
    ensures |FirstTwo(rows, p)| == 1 ==> FirstTwo(rows, p) == FirstTwo(permuted, p)
  {
    WherePermuted(rows, permuted, p);
    SameSize(Where(rows, p), Where(permuted, p));
    FirstTwoShape(rows, p);
    FirstTwoShape(permuted, p);
  }

  // The order in which a table holds its rows is irrelevant.
  lemma SelectionIgnoresOrder(config: Config, permuted: Config, source: string, destination: string, now: int)
    requires multiset(config.rates) == multiset(permuted.rates)
    requires multiset(config.rules) == multiset(permuted.rules)
    ensures SelectExchangeRate(config.rates, source, destination, now)
         == SelectExchangeRate(permuted.rates, source, destination, now)
    ensures SelectFeeRule(config.rules, source, destination, now)
         == SelectFeeRule(permuted.rules, source, destination, now)
  {
    FirstTwoIgnoresOrder(config.rates, permuted.rates, RateApplies(source, destination, now));
    FirstTwoIgnoresOrder(config.rules, permuted.rules, RuleApplies(Some((source, destination)), now));
    FirstTwoIgnoresOrder(config.rules, permuted.rules, RuleApplies(None, now));
  }

  ghost predicate Disjoint<T>(a: Row<T>, b: Row<T>) {
    a.validUntil <= b.validFrom || b.validUntil <= a.validFrom
  }

  // The rows of every currency pair, and the default rules, never overlap in time.
  ghost predicate WellKept(config: Config) {
    && (forall i, j | 0 <= i < j < |config.rates| ::
          config.rates[i].item.source == config.rates[j].item.source
          && config.rates[i].item.destination == config.rates[j].item.destination ==>
            Disjoint(config.rates[i], config.rates[j]))
    && (forall i, j :: 0 <= i < j < |config.rules| && config.rules[i].item.pair == config.rules[j].item.pair ==>
                         Disjoint(config.rules[i], config.rules[j]))
  }

  // Non-overlapping intervals never report ambiguity, at no time and for no pair.
  lemma WellKeptNeverAmbiguous(config: Config, source: string, destination: string, now: int)
    requires WellKept(config)
    ensures SelectExchangeRate(config.rates, source, destination, now) != Err(RateAmbiguous)
    ensures SelectFeeRule(config.rules, source, destination, now) != Err(FeeRuleAmbiguous)
  {
    RatesNeverOverlap(config, source, destination, now);
    RulesNeverOverlap(config, Some((source, destination)), now);
    RulesNeverOverlap(config, None, now);
    RateSelection(config.rates, source, destination, now);
    FeeSelection(config.rules, source, destination, now);
  }

  lemma RatesNeverOverlap(config: Config, source: string, destination: string, now: int)
    requires WellKept(config)
    ensures !exists i: nat, j: nat ::
              i < j && RateAt(config.rates, source, destination, now, i) && RateAt(config.rates, source, destination, now, j)
  {
    forall i: nat, j: nat | i < j && RateAt(config.rates, source, destination, now, i)
      ensures !RateAt(config.rates, source, destination, now, j)
    {
      assert j < |config.rates| && config.rates[j].item.source == source && config.rates[j].item.destination == destination
             ==> Disjoint(config.rates[i], config.rates[j]);
    }
  }

  lemma RulesNeverOverlap(config: Config, pair: Option<(string, string)>, now: int)
    requires WellKept(config)
    ensures !SeveralRules(config.rules, pair, now)
  {
    forall i: nat, j: nat | i < j && RuleAt(config.rules, pair, now, i) ensures !RuleAt(config.rules, pair, now, j) {
      assert j < |config.rules| && config.rules[j].item.pair == pair ==> Disjoint(config.rules[i], config.rules[j]);
    }
  }
}
