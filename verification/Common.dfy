/** Result types, machine-integer ranges and finite sums shared by the other modules. */
module Common {

  datatype Option<+T> = None | Some(value: T)

  datatype Result<+T, +E> = Ok(value: T) | Err(error: E)

  const I64_MIN: int := -0x8000_0000_0000_0000
  const I64_MAX: int := 0x7fff_ffff_ffff_ffff
  const I128_MAX: int := 0x7fff_ffff_ffff_ffff_ffff_ffff_ffff_ffff

  predicate InI64(n: int) {
    I64_MIN <= n <= I64_MAX
  }

  // Decimal places of a currency, as the accounts table bounds them.
  type Scale = n: nat | n <= 18

  type Byte = n: nat | n < 256

  function Lookup<K, V>(m: map<K, V>, k: K): Option<V> {
    if k in m then Some(m[k]) else None
  }
}

/** Sums over finite sets, used to total balances, entries and transfers. */
module Sums {

  ghost function Sum<K(!new)>(s: set<K>, f: K -> int): int {
    if s == {} then 0 else var x :| x in s; f(x) + Sum(s - {x}, f)
  }

  // The sum does not depend on the element taken out first.
  lemma {:induction false} SumRemove<K(!new)>(s: set<K>, f: K -> int, x: K)
    requires x in s
    ensures Sum(s, f) == f(x) + Sum(s - {x}, f)
  {
    var y :| y in s && Sum(s, f) == f(y) + Sum(s - {y}, f);
    if y != x {
      SumRemove(s - {y}, f, x);
      SumRemove(s - {x}, f, y);
      assert s - {y} - {x} == s - {x} - {y};
    }
  }

  lemma SumInsert<K(!new)>(s: set<K>, f: K -> int, x: K)
    requires x !in s
    ensures Sum(s + {x}, f) == Sum(s, f) + f(x)
  {
    SumRemove(s + {x}, f, x);
    assert s + {x} - {x} == s;
  }

  lemma {:induction false} SumCongruence<K(!new)>(s: set<K>, f: K -> int, g: K -> int)
    requires forall x :: x in s ==> f(x) == g(x)
    ensures Sum(s, f) == Sum(s, g)
  {
    if s != {} {
      var x :| x in s;
      SumRemove(s, f, x);
      SumRemove(s, g, x);
      SumCongruence(s - {x}, f, g);
    }
  }

  lemma {:induction false} SumZero<K(!new)>(s: set<K>, f: K -> int)
    requires forall x :: x in s ==> f(x) == 0
    ensures Sum(s, f) == 0
  {
    if s != {} {
      var x :| x in s;
      SumRemove(s, f, x);
      SumZero(s - {x}, f);
    }
  }

  lemma {:induction false} SumNonNegative<K(!new)>(s: set<K>, f: K -> int)
    requires forall x :: x in s ==> f(x) >= 0
    ensures Sum(s, f) >= 0
  {
    if s != {} {
      var x :| x in s;
      SumRemove(s, f, x);
      SumNonNegative(s - {x}, f);
    }
  }

  lemma {:induction false} SumAdd<K(!new)>(s: set<K>, f: K -> int, g: K -> int, h: K -> int)
    requires forall x :: x in s ==> h(x) == f(x) + g(x)
    ensures Sum(s, h) == Sum(s, f) + Sum(s, g)
  {
    if s != {} {
      var x :| x in s;
      SumRemove(s, f, x);
      SumRemove(s, g, x);
      SumRemove(s, h, x);
      SumAdd(s - {x}, f, g, h);
    }
  }

  // Elements that contribute nothing may be left out.
  lemma {:induction false} SumSupport<K(!new)>(s: set<K>, t: set<K>, f: K -> int)
    requires t <= s && forall x :: x in s && x !in t ==> f(x) == 0
    ensures Sum(s, f) == Sum(t, f)
  {
    if s == t {
    } else {
      var x :| x in s && x !in t;
      SumRemove(s, f, x);
      SumSupport(s - {x}, t, f);
    }
  }

  lemma SumPoint<K(!new)>(s: set<K>, p: K, n: int, f: K -> int)
    requires forall x :: x in s ==> f(x) == if x == p then n else 0
    ensures Sum(s, f) == if p in s then n else 0
  {
    if p in s {
      SumSupport(s, {p}, f);
      SumRemove({p}, f, p);
    } else {
      SumZero(s, f);
    }
  }

  // A double sum may be taken in either order.
  lemma {:induction false} SumExchange<A(!new), B(!new)>(
      s: set<A>, t: set<B>, row: A -> (B -> int), column: B -> (A -> int), rows: A -> int, columns: B -> int)
    requires forall a, b :: a in s && b in t ==> row(a)(b) == column(b)(a)
    requires forall a :: a in s ==> rows(a) == Sum(t, row(a))
    requires forall b :: b in t ==> columns(b) == Sum(s, column(b))
    ensures Sum(s, rows) == Sum(t, columns)
  {
    if s == {} {
      SumZero(t, columns);
    } else {
      var x :| x in s;
      SumRemove(s, rows, x);
      var rest := b => Sum(s - {x}, column(b));
      forall b | b in t ensures columns(b) == row(x)(b) + rest(b) {
        SumRemove(s, column(b), x);
      }
      SumAdd(t, row(x), rest, columns);
      SumExchange(s - {x}, t, row, column, rows, rest);
    }
  }

  lemma {:induction false} UpperBound<K(!new)>(s: set<K>, f: K -> int) returns (n: int)
    ensures n >= 0 && forall x :: x in s ==> f(x) < n
  {
    if s == {} {
      n := 0;
    } else {
      var x :| x in s;
      var m := UpperBound(s - {x}, f);
      n := if m > f(x) then m else f(x) + 1;
      forall y | y in s ensures f(y) < n {
        assert y == x || y in s - {x};
      }
    }
  }
}
