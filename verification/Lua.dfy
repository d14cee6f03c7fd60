/**
 The part of the Lua machine the configuration code touches: a stack of values, and
 tables that live in a heap and are shared by reference.
 */
module Lua {
  import opened Arithmetic
  import opened Wrappers

  type TableId = nat

  /** Numbers are integers or reals, `User` is a light user datum, and a table value is a reference. */
  datatype Value = Nil | Bool(b: bool) | Int(i: int) | Num(x: real) | Str(s: string) | Func | User | Tab(id: TableId)

  type Table = map<string, Value>
  type Heap = map<TableId, Table>

  /** A field that was never set, and a field of a table nobody made, are nil. */
  function Field(h: Heap, t: TableId, key: string): Value {
    if t in h && key in h[t] then h[t][key] else Nil
  }

  function Assign(h: Heap, t: TableId, key: string, v: Value): Heap {
    h[t := (if t in h then h[t] else map[])[key := v]]
  }

  // ---------------------------------------------------------------- numbers

  const TWO_53: int := 0x20_0000_0000_0000

  /** The spacing of doubles around `n`, from a spacing already known to be too small or right. */
  function Spacing(n: nat, unit: nat): (u: nat)
    requires unit > 0
    ensures u >= unit && n < TWO_53 * u
    decreases n - TWO_53 * unit + TWO_53
  {
    if n < TWO_53 * unit then unit else Spacing(n, 2 * unit)
  }

  /** The double nearest to `n`, ties to even. */
  function Nearest(n: nat): nat {
    var u := Spacing(n, 1);
    var q, r := n / u, n % u;
    if 2 * r < u || (2 * r == u && q % 2 == 0) then q * u else (q + 1) * u
  }

  function ToDouble(i: int): int { if i >= 0 then Nearest(i) else 0 - Nearest(-i) }

  /** A double holds `i` exactly. */
  predicate Exact(i: int) {
    var n := if i >= 0 then i else -i;
    n % Spacing(n, 1) == 0
  }

  lemma NearestExactly(n: nat)
    ensures Nearest(n) == n <==> n % Spacing(n, 1) == 0
  {
    var u := Spacing(n, 1);
    var q, r := n / u, n % u;
    assert n == q * u + r;
    assert (q + 1) * u == q * u + u;
  }

  /** An integer survives the conversion exactly when a double holds it; those up to 2^53 always do. */
  lemma ToDoubleExactly(i: int)
    ensures ToDouble(i) == i <==> Exact(i)
    ensures -0x20_0000_0000_0000 < i < 0x20_0000_0000_0000 ==> Exact(i)
  {
    NearestExactly(if i >= 0 then i else -i);
  }

  /** A double is a mantissa of at most 2 to the 53 times a power of two. */
  ghost predicate Holds(i: int, mantissa: nat, exponent: nat) {
    mantissa <= 0x20_0000_0000_0000 && (i == mantissa * Pow2(exponent) || i == 0 - mantissa * Pow2(exponent))
  }

  /** The spacing is a power of two, and the least one that will do. */
  lemma {:induction false} SpacingPower(n: nat, from: nat) returns (k: nat)
    ensures k >= from && Spacing(n, Pow2(from)) == Pow2(k)
    ensures k > from ==> n >= TWO_53 * Pow2(k - 1)
    decreases n - TWO_53 * Pow2(from) + TWO_53
  {
    if n < TWO_53 * Pow2(from) {
      k := from;
    } else {
      k := SpacingPower(n, from + 1);
    }
  }

  lemma HeldIsMultiple(n: nat, k: nat, m: nat, e: nat)
    requires m <= TWO_53 && n == m * Pow2(e) && (k > 0 ==> n >= TWO_53 * Pow2(k - 1))
    ensures n % Pow2(k) == 0
  {
    if e >= k {
      hide Pow2;
      Pow2Sum(e - k, k);
      MulAssociates(m, Pow2(e - k), Pow2(k));
      MultipleOf(m * Pow2(e - k), Pow2(k));
    } else {
      var p := Pow2(k - 1);
      Pow2Grows(e, k - 1);
      MulMonotone(m, Pow2(e), TWO_53, p);
      assert Pow2(k) == 2 * p;
      hide Pow2;
      assert n == (TWO_53 / 2) * (2 * p);
      MultipleOf(TWO_53 / 2, 2 * p);
    }
  }

  lemma MultipleIsHeld(n: nat, k: nat) returns (m: nat)
    requires n % Pow2(k) == 0 && n < TWO_53 * Pow2(k)
    ensures m <= TWO_53 && n == m * Pow2(k)
  {
    m := n / Pow2(k);
    assert n == m * Pow2(k);
    if m > TWO_53 { assert (m - TWO_53) * Pow2(k) >= 0; }
  }

  lemma HeldWhenExact(i: int) returns (m: nat, e: nat)
    requires Exact(i)
    ensures Holds(i, m, e)
  {
    hide Pow2;
    var n: nat := if i >= 0 then i else -i;
    e := SpacingZero(n);
    m := MultipleIsHeld(n, e);
  }

  lemma ExactWhenHeld(i: int, m: nat, e: nat)
    requires Holds(i, m, e)
    ensures Exact(i)
  {
    hide Pow2, Spacing;
    var n: nat := if i >= 0 then i else -i;
    assert m * Pow2(e) >= 0;
    var k := SpacingZero(n);
    HeldIsMultiple(n, k, m, e);
  }

  lemma SpacingZero(n: nat) returns (k: nat)
    ensures Spacing(n, 1) == Pow2(k) && n < TWO_53 * Pow2(k)
    ensures k > 0 ==> n >= TWO_53 * Pow2(k - 1)
  {
    k := SpacingPower(n, 0);
  }

  /** What `Exact` means: some mantissa and exponent of a double give the integer, and then it survives the conversion. */
  lemma ExactMeansHeld(i: int)
    ensures Exact(i) <==> exists m: nat, e: nat :: Holds(i, m, e)
    ensures Exact(i) <==> ToDouble(i) == i
  {
    ToDoubleExactly(i);
    hide ToDouble, Exact, Holds;
    if Exact(i) {
      var m, e := HeldWhenExact(i);
    }
    forall m: nat, e: nat | Holds(i, m, e) ensures Exact(i) {
      ExactWhenHeld(i, m, e);
    }
  }

  function Distance(a: int, b: int): nat { if a <= b then b - a else a - b }

  /** Nearest in terms of the two multiples of the spacing around `n`. */
  lemma NearestParts(n: nat, u: nat)
    requires u == Spacing(n, 1)
    ensures var q, r := n / u, n % u;
            && n == q * u + r && r < u
            && Nearest(n) == if 2 * r < u || (2 * r == u && q % 2 == 0) then q * u else q * u + u
  {
    var q := n / u;
    assert (q + 1) * u == q * u + u;
  }

  /** No multiple of the spacing is nearer. */
  lemma NearestMultiple(n: nat, j: int)
    ensures Distance(Nearest(n), n) <= Distance(j * Spacing(n, 1), n)
  {
    hide Nearest, Spacing;
    var u := Spacing(n, 1);
    NearestParts(n, u);
    MultiplesApart(j, n / u, u);
  }

  /** Of two multiples equally near the even one is taken. */
  lemma TiesToEven(n: nat)
    ensures var u := Spacing(n, 1);
            2 * Distance(Nearest(n), n) == u ==> exists q: nat :: Nearest(n) == q * u && q % 2 == 0
  {
    hide Nearest, Spacing;
    var u := Spacing(n, 1);
    NearestParts(n, u);
    var q := n / u;
    if 2 * Distance(Nearest(n), n) == u {
      if q % 2 == 0 {
        assert Nearest(n) == q * u;
      } else {
        assert (q + 1) * u == q * u + u;
        assert Nearest(n) == (q + 1) * u;
      }
    }
  }

  /** The conversion gives a nearest double: none that a mantissa and an exponent can give is nearer. */
  lemma ToDoubleIsNearest(i: int, x: int, m: nat, e: nat)
    requires Holds(x, m, e)
    ensures Distance(ToDouble(i), i) <= Distance(x, i)
  {
    hide Spacing, Nearest, Pow2;
    if i >= 0 { NearestHeld(i, x, m, e); } else { NearestHeld(-i, -x, m, e); }
  }

  lemma NearestHeld(n: nat, x: int, m: nat, e: nat)
    requires Holds(x, m, e)
    ensures Distance(Nearest(n), n) <= Distance(x, n)
  {
    hide Nearest, Spacing, Pow2;
    var k := SpacingZero(n);
    if x < 0 {
      NearestOnGrid(n, 0);
    } else if k > 0 && x < TWO_53 * Pow2(k - 1) {
      GridBelow(n, k);
      NearestOnGrid(n, TWO_53 * Pow2(k - 1));
    } else {
      assert x == m * Pow2(e) by { NoNegativeProduct(m, Pow2(e)); }
      HeldIsMultiple(x, k, m, e);
      NearestOnGrid(n, x);
    }
  }

  lemma NearestOnGrid(n: nat, x: nat)
    requires x % Spacing(n, 1) == 0
    ensures Distance(Nearest(n), n) <= Distance(x, n)
  {
    hide Nearest, Spacing;
    var u := Spacing(n, 1);
    NearestMultiple(n, x / u);
    assert x == (x / u) * u;
  }

  /** The first double with this spacing is a multiple of it. */
  lemma GridBelow(n: nat, k: nat)
    requires k > 0 && Spacing(n, 1) == Pow2(k)
    ensures TWO_53 * Pow2(k - 1) % Spacing(n, 1) == 0
  {
    var p := Pow2(k - 1);
    assert Pow2(k) == 2 * p;
    hide Pow2, Spacing;
    MultipleOf(TWO_53 / 2, 2 * p);
    assert TWO_53 * p == (TWO_53 / 2) * (2 * p);
  }

  /** A C cast to an integer drops the fraction. */
  function Truncate(x: real): int { if x >= 0.0 then x.Floor else -((-x).Floor) }

  /** It gives the integer next to `x` on the side of zero. */
  lemma TruncateExactly(x: real, t: int)
    ensures Truncate(x) == t <==> if x >= 0.0 then t as real <= x < t as real + 1.0 else t as real - 1.0 < x <= t as real
  {}

  /** How strings are read as numbers, which is the interpreter's business. */
  type Numeral = string -> Option<real>

  function ToNumber(numeral: Numeral, v: Value): Option<real> {
    match v
    case Int(i) => Some(ToDouble(i) as real)
    case Num(x) => Some(x)
    case Str(s) => numeral(s)
    case _ => None
  }

  /** Numbers count as strings too. */
  predicate IsString(v: Value) { v.Str? || v.Int? || v.Num? }

  // ---------------------------------------------------------------- the machine

  class State {
    var stack: seq<Value>
    var heap: Heap
    const numeral: Numeral

    constructor (root: Value, heap: Heap, numeral: Numeral)
      ensures stack == [root] && this.heap == heap && this.numeral == numeral
    {
      stack := [root];
      this.heap, this.numeral := heap, numeral;
    }

    /** Pushes a field of the table at a one-based index. */
    method GetField(index: nat, key: string)
      requires 1 <= index <= |stack| && stack[index - 1].Tab?
      modifies this`stack
      ensures stack == old(stack) + [Field(heap, old(stack)[index - 1].id, key)]
    {
      stack := stack + [Field(heap, stack[index - 1].id, key)];
    }

    method Push(v: Value)
      modifies this`stack
      ensures stack == old(stack) + [v]
    {
      stack := stack + [v];
    }

    method Pop(n: nat)
      requires n <= |stack|
      modifies this`stack
      ensures stack == old(stack)[..|old(stack)| - n]
    {
      stack := stack[..|stack| - n];
    }

    /** Removes the value under the top. */
    method RemoveBelow()
      requires |stack| >= 2
      modifies this`stack
      ensures stack == old(stack)[..|old(stack)| - 2] + [old(stack)[|old(stack)| - 1]]
    {
      stack := stack[..|stack| - 2] + [stack[|stack| - 1]];
    }

    /** Pops a value into a field of the table below it. */
    method SetField(key: string)
      requires |stack| >= 2 && stack[|stack| - 2].Tab?
      modifies this
      ensures stack == old(stack)[..|old(stack)| - 1]
      ensures heap == Assign(old(heap), old(stack)[|old(stack)| - 2].id, key, old(stack)[|old(stack)| - 1])
    {
      heap := Assign(heap, stack[|stack| - 2].id, key, stack[|stack| - 1]);
      stack := stack[..|stack| - 1];
    }
  }
}
