/** String views: searching, splitting and reading numbers. */
module Views {
  import opened Wrappers

  /** A view without data, or the characters it covers. */
  datatype View = Null | Text(s: string)

  function Chars(v: View): string { if v.Null? then [] else v.s }

  // ---------------------------------------------------------------- searching

  ghost predicate OccursAt(s: string, t: string, i: nat) {
    i + |t| <= |s| && s[i..i + |t|] == t
  }

  /** The least occurrence of `needle` at or after `start`, or -1 when there is none. */
  method Find(v: View, needle: View, start: nat) returns (r: int)
    ensures v.Null? || needle.Null? ==> r == -1
    ensures v.Text? && needle.Text? && r != -1 ==>
              r >= start && OccursAt(v.s, needle.s, r) && forall j: nat :: start <= j < r ==> !OccursAt(v.s, needle.s, j)
    ensures v.Text? && needle.Text? && r == -1 ==> forall j: nat :: start <= j ==> !OccursAt(v.s, needle.s, j)
  {
    if v.Null? || needle.Null? { return -1; }
    var s, t := v.s, needle.s;
    if |t| == 0 { return if start <= |s| then start else -1; }
    if start >= |s| || |s| - start < |t| { return -1; }
    var limit := |s| - |t|;
    var i := start;
    while i <= limit
      invariant start <= i <= limit + 1
      invariant forall j: nat :: start <= j < i ==> !OccursAt(s, t, j)
    {
      if s[i..i + |t|] == t { return i; }
      i := i + 1;
    }
    return -1;
  }

  method FindChar(v: View, c: char, start: nat) returns (r: int)
    ensures v.Null? ==> r == -1
    ensures v.Text? && r != -1 ==>
              start <= r < |v.s| && v.s[r] == c && forall j :: start <= j < r ==> v.s[j] != c
    ensures v.Text? && r == -1 ==> forall j :: start <= j < |v.s| ==> v.s[j] != c
  {
    if v.Null? || start >= |v.s| { return -1; }
    var i := start;
    while i < |v.s|
      invariant start <= i <= |v.s|
      invariant forall j :: start <= j < i ==> v.s[j] != c
    {
      if v.s[i] == c { return i; }
      i := i + 1;
    }
    return -1;
  }

  // ---------------------------------------------------------------- splitting

  /** Whether `c` occurs, what stands before the first one, and what stands after it: no data when that is nothing. */
  function SplitAt(v: View, c: char): (bool, View, View)
    requires v.Text?
  {
    var k := IndexOf(v.s, c);
    if k == |v.s| then (false, v, Null)
    else (true, Text(v.s[..k]), if k + 1 >= |v.s| then Null else Text(v.s[k + 1..]))
  }

  /** `left` and `right` are written only when the view has data. */
  method Split(v: View, c: char, left0: View, right0: View) returns (found: bool, left: View, right: View)
    ensures if v.Null? then (found, left, right) == (false, left0, right0) else (found, left, right) == SplitAt(v, c)
    ensures v.Text? ==>
              && (found <==> c in v.s)
              && (!found ==> left == v && right == Null)
              && (found ==> && left.Text? && c !in left.s && v.s == left.s + [c] + Chars(right)
                            && (right.Null? <==> |Chars(right)| == 0))
  {
    if v.Null? { return false, left0, right0; }
    var idx := FindChar(v, c, 0);
    if idx == -1 { return false, v, Null; }
    assert v.s == v.s[..idx] + [c] + v.s[idx + 1..];
    left := Text(v.s[..idx]);
    right := if idx + 1 >= |v.s| then Null else Text(v.s[idx + 1..]);
    found := true;
  }

  /** The pieces that splitting again and again yields. */
  function Pieces(v: View, c: char): seq<string>
    decreases |Chars(v)|
  {
    if v.Null? then [[]]
    else
      var (found, left, right) := SplitAt(v, c);
      if found then [Chars(left)] + Pieces(right, c) else [Chars(left)]
  }

  function Join(pieces: seq<string>, c: char): string {
    if |pieces| == 0 then [] else if |pieces| == 1 then pieces[0] else pieces[0] + [c] + Join(pieces[1..], c)
  }

  /** Splitting loses nothing: the pieces hold no delimiter, and put together again they are the text. */
  lemma {:induction false} PiecesRejoin(v: View, c: char)
    ensures |Pieces(v, c)| > 0 && Join(Pieces(v, c), c) == Chars(v)
    ensures forall k :: 0 <= k < |Pieces(v, c)| ==> c !in Pieces(v, c)[k]
    decreases |Chars(v)|
  {
    if v.Text? {
      hide SplitAt;
      var (found, left, right) := SplitAt(v, c);
      SplitSplits(v, c);
      if found {
        PiecesRejoin(right, c);
        assert Pieces(v, c)[1..] == Pieces(right, c);
      }
    }
  }

  lemma SplitSplits(v: View, c: char)
    requires v.Text?
    ensures var (found, left, right) := SplitAt(v, c);
            && c !in Chars(left)
            && (if found then Chars(v) == Chars(left) + [c] + Chars(right) else Chars(v) == Chars(left))
  {
    var k := IndexOf(v.s, c);
    if k < |v.s| { assert v.s == v.s[..k] + [c] + v.s[k + 1..]; }
  }

  // ---------------------------------------------------------------- numbers

  predicate IsDigit(c: char) { '0' <= c <= '9' }

  ghost predicate AllDigits(s: string) { forall i :: 0 <= i < |s| ==> '0' <= s[i] <= '9' }

  function DigitValue(c: char): nat
    requires IsDigit(c)
  {
    c as nat - '0' as nat
  }

  ghost function Decimal(s: string): nat
    requires AllDigits(s)
  {
    if |s| == 0 then 0 else Decimal(s[..|s| - 1]) * 10 + DigitValue(s[|s| - 1])
  }

  /** The digits of a number, as one writes them. */
  function Digits(n: nat): string {
    (if n < 10 then [] else Digits(n / 10)) + ['0' + (n % 10) as char]
  }

  lemma DecimalSnoc(s: string, c: char)
    requires AllDigits(s) && '0' <= c <= '9'
    ensures AllDigits(s + [c]) && Decimal(s + [c]) == 10 * Decimal(s) + (c as int - 48)
  {
    assert (s + [c])[..|s|] == s;
  }

  /** Reading what was written gives the number back, with leading zeros too. */
  lemma {:induction false} DecimalRoundTrip(n: nat, zeros: string)
    requires forall i :: 0 <= i < |zeros| ==> zeros[i] == '0'
    ensures AllDigits(zeros + Digits(n)) && Decimal(zeros + Digits(n)) == n
    decreases n
  {
    hide Decimal;
    var c := '0' + (n % 10) as char;
    assert c as int == 48 + n % 10;
    if n < 10 {
      ZerosCountNothing(zeros);
      DecimalSnoc(zeros, c);
      assert zeros + Digits(n) == zeros + [c];
    } else {
      DecimalRoundTrip(n / 10, zeros);
      DecimalSnoc(zeros + Digits(n / 10), c);
      assert zeros + Digits(n) == zeros + Digits(n / 10) + [c];
    }
  }

  lemma {:induction false} ZerosCountNothing(zeros: string)
    requires forall i :: 0 <= i < |zeros| ==> zeros[i] == '0'
    ensures AllDigits(zeros) && Decimal(zeros) == 0
    decreases |zeros|
  {
    if |zeros| > 0 { ZerosCountNothing(zeros[..|zeros| - 1]); }
  }

  lemma DecimalGrows(s: string, k: nat)
    requires AllDigits(s) && k <= |s|
    ensures Decimal(s[..k]) <= Decimal(s)
    decreases |s|
  {
    if k < |s| {
      var front := s[..|s| - 1];
      assert front[..k] == s[..k];
      DecimalGrows(front, k);
    } else {
      assert s[..k] == s;
    }
  }

  const U32_MAX: nat := 0xFFFF_FFFF
  const U64_MAX: nat := 0xFFFF_FFFF_FFFF_FFFF

  /** Succeeds exactly on a non-empty run of digits whose value fits 32 bits; no step overflows 64. */
  method ToU32(v: View) returns (ok: bool, out: nat)
    ensures ok <==> v.Text? && |v.s| > 0 && AllDigits(v.s) && Decimal(v.s) < 0x1_0000_0000
    ensures ok ==> out == Decimal(v.s)
  {
    out := 0;
    if v.Null? || |v.s| == 0 { return false, 0; }
    var s := v.s;
    var i := 0;
    while i < |s|
      invariant i <= |s| && AllDigits(s[..i]) && out == Decimal(s[..i]) <= U32_MAX
    {
      if !IsDigit(s[i]) { return false, 0; }
      assert out * 10 + DigitValue(s[i]) <= U64_MAX;
      assert s[..i + 1][..i] == s[..i];
      out := out * 10 + DigitValue(s[i]);
      i := i + 1;
      if out > U32_MAX {
        if AllDigits(s) { DecimalGrows(s, i); }
        return false, 0;
      }
    }
    assert s[..i] == s;
    return true, out;
  }
}
