/** Types and arithmetic shared by the modules. */
module Common {

  datatype Option<+T> = None | Some(value: T)

  datatype Result<+T, +E> = Ok(value: T) | Err(error: E)

  function Min(a: int, b: int): int { if a < b then a else b }

  function Max(a: int, b: int): int { if a < b then b else a }

  function Is(condition: bool): nat { if condition then 1 else 0 }

  /** Times at which a clock that never goes back was read. */
  predicate Ordered(times: seq<int>) { forall i, j :: 0 <= i < j < |times| ==> times[i] <= times[j] }

  /** Integer division that truncates toward zero, as Go and Java divide. */
  function TruncatedDiv(a: int, b: int): int
    requires b != 0
  {
    if (a >= 0) == (b > 0) then Abs(a) / Abs(b) else -(Abs(a) / Abs(b))
  }

  lemma NatDivIs(n: nat, m: nat)
    requires m > 0
    ensures 0 <= n / m && n / m * m <= n < (n / m + 1) * m
  {
  }

  lemma TruncatedDivSize(a: int, b: int)
    requires b != 0
    ensures Abs(TruncatedDiv(a, b)) == Abs(a) / Abs(b)
    ensures if (a >= 0) == (b > 0) then TruncatedDiv(a, b) >= 0 else TruncatedDiv(a, b) <= 0
  {
    NatDivIs(Abs(a), Abs(b));
  }

  /** The quotient toward zero: in size the largest whose product with the divisor is not beyond the dividend, and with
      the sign of the exact quotient. */
  lemma TruncatedDivIs(a: int, b: int)
    requires b != 0
    ensures Abs(TruncatedDiv(a, b)) * Abs(b) <= Abs(a) < (Abs(TruncatedDiv(a, b)) + 1) * Abs(b)
    ensures if (a >= 0) == (b > 0) then TruncatedDiv(a, b) >= 0 else TruncatedDiv(a, b) <= 0
  {
    TruncatedDivSize(a, b);
    NatDivIs(Abs(a), Abs(b));
  }

  function Abs(a: int): nat { if a < 0 then -a else a }

  lemma LessFactor(x: int, y: int, n: int)
    requires n > 0
    ensures x * n < y * n ==> x < y
  {
    assert x * n - y * n == (x - y) * n;
  }

  lemma DivBounds(a: nat, n: int, low: int, high: int)
    requires n > 0 && low * n <= a <= high * n
    ensures low <= a / n <= high
    ensures a / n * n <= a < (a / n + 1) * n
  {
    var q := a / n;
    assert q * n <= a < q * n + n;
    LessFactor(low, q + 1, n);
    LessFactor(q, high + 1, n);
  }

  /** A truncated quotient by a positive divisor lies within any integer bounds of the exact one. */
  lemma TruncatedDivBounds(a: int, n: int, low: int, high: int)
    requires n > 0 && low * n <= a <= high * n
    ensures low <= TruncatedDiv(a, n) <= high
    ensures a >= 0 ==> TruncatedDiv(a, n) * n <= a < (TruncatedDiv(a, n) + 1) * n
  {
    if a >= 0 {
      DivBounds(a, n, low, high);
    } else {
      assert -high * n == -(high * n) && -low * n == -(low * n);
      DivBounds(-a, n, -high, -low);
    }
  }

  // ---- Searching ----

  /** The position of the first element with the property, or the length when there is none. */
  function FirstWhere<T>(p: T -> bool, xs: seq<T>): (i: nat)
    ensures i <= |xs|
    ensures i < |xs| ==> p(xs[i])
    ensures forall j :: 0 <= j < i ==> !p(xs[j])
  {
    if xs == [] || p(xs[0]) then 0 else 1 + FirstWhere(p, xs[1..])
  }

  method Search<T>(p: T -> bool, xs: seq<T>) returns (i: nat)
    ensures i == FirstWhere(p, xs)
  {
    i := 0;
    while i < |xs| && !p(xs[i])
      invariant i <= |xs|
      invariant FirstWhere(p, xs) == i + FirstWhere(p, xs[i..])
    {
      i := i + 1;
    }
  }

  // ---- Trimming ----

  predicate AllBlank(blank: char -> bool, s: string) { forall i :: 0 <= i < |s| ==> blank(s[i]) }

  /** Neither end of the string is blank. */
  predicate Core(blank: char -> bool, s: string) { s == [] || (!blank(s[0]) && !blank(s[|s| - 1])) }

  function Trim(blank: char -> bool, s: string): string {
    if s == [] then []
    else if blank(s[0]) then Trim(blank, s[1..])
    else if blank(s[|s| - 1]) then Trim(blank, s[..|s| - 1])
    else s
  }

  /** Trimming is determined by what it leaves: the only core whose padding with blanks gives the string. */
  lemma {:induction false} TrimIsTheCore(blank: char -> bool, before: string, core: string, after: string)
    requires AllBlank(blank, before) && Core(blank, core) && AllBlank(blank, after)
    ensures Trim(blank, before + core + after) == core
    decreases |before| + |after|
  {
    var s := before + core + after;
    if before != [] {
      assert s[1..] == before[1..] + core + after;
      TrimIsTheCore(blank, before[1..], core, after);
    } else if core == [] && after != [] {
      assert s[1..] == [] + core + after[1..];
      TrimIsTheCore(blank, [], core, after[1..]);
    } else if after != [] {
      assert s[..|s| - 1] == [] + core + after[..|after| - 1];
      TrimIsTheCore(blank, [], core, after[..|after| - 1]);
    } else {
      assert s == core;
    }
  }

  lemma {:induction false} TrimSplits(blank: char -> bool, s: string) returns (before: string, after: string)
    ensures AllBlank(blank, before) && AllBlank(blank, after) && Core(blank, Trim(blank, s))
    ensures s == before + Trim(blank, s) + after
  {
    before, after := [], [];
    if s == [] {
    } else if blank(s[0]) {
      before, after := TrimSplits(blank, s[1..]);
      before := [s[0]] + before;
    } else if blank(s[|s| - 1]) {
      before, after := TrimSplits(blank, s[..|s| - 1]);
      after := after + [s[|s| - 1]];
    }
  }
}
