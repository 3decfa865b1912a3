/** Vocabulary shared by every module: optional values, calendar days, the
    two Python integer operations the core depends on, and the first-match
    search and filter that its SQL queries and Python loops perform. */
module Common {

  datatype Option<T> = None | Some(value: T)

  /** A calendar day as a day number. The repository stores days as
      `%Y-%m-%d` text, whose lexical order is the chronological order that
      `MAX(end_ts)`, `>=` and `<=` rely on; `timedelta(days=1)` is `+ 1`. */
  type Day = int

  /** A SQLite REAL (a price, a ratio, a capital). The core only ever
      compares these for equality, so their numeric value is not modelled. */
  type Real = int

  function Abs(x: int): nat { if x < 0 then -x else x }

  /** Python `int(a / b)`: true division followed by truncation toward zero.
      For `a == 100` and any nonzero integer `b` the floating-point quotient
      never rounds across an integer, so this exact form agrees with it. */
  function TruncDiv(a: int, b: int): (q: int)
    requires b != 0
    ensures Abs(q) == Abs(a) / Abs(b)
    ensures q > 0 ==> (a > 0) == (b > 0)
    ensures q < 0 ==> (a > 0) != (b > 0)
  {
    var m := Abs(a) / Abs(b);
    DivNonNegative(Abs(a), Abs(b));
    if a == 0 then 0 else if (a > 0) == (b > 0) then m else -m
  }

  /** A quotient of naturals is a natural. */
  lemma DivNonNegative(x: nat, y: nat)
    requires y > 0
    ensures x / y >= 0
  {
  }

  /** The cell a Python list of length `n` designates by index `i`
      (negative indices count from the end); None where Python raises
      IndexError. */
  function PyIndex(n: nat, i: int): (r: Option<nat>)
    ensures r.Some? <==> -(n as int) <= i < n
    ensures r.Some? ==> r.value < n && (r.value as int == i || r.value as int == n + i)
  {
    if 0 <= i < n then Some(i) else if -(n as int) <= i < 0 then Some(n + i) else None
  }

  /** Python `[False] * n`, which is the empty list for every `n <= 0`. */
  function Falses(n: int): (r: seq<bool>)
    ensures |r| == if n > 0 then n else 0
    ensures forall i :: 0 <= i < |r| ==> !r[i]
  {
    seq(if n > 0 then n else 0, _ => false)
  }

  /** Index of the first element satisfying `p`: what a Python loop with
      `break` finds, and what `fetchone()` returns from a scan in rowid
      order. */
  function FirstWhere<T>(xs: seq<T>, p: T -> bool): (k: Option<nat>)
    ensures k.Some? ==> k.value < |xs| && p(xs[k.value])
    ensures k.Some? ==> forall j :: 0 <= j < k.value ==> !p(xs[j])
    ensures k.None? ==> forall j :: 0 <= j < |xs| ==> !p(xs[j])
  {
    if xs == [] then None
    else if p(xs[0]) then Some(0)
    else match FirstWhere(xs[1..], p)
      case None => None
      case Some(k) => Some(k + 1)
  }

  /** Appending elements does not change a first match that already exists. */
  lemma {:induction false} FirstWhereExtend<T>(xs: seq<T>, ys: seq<T>, p: T -> bool)
    requires FirstWhere(xs, p).Some?
    ensures FirstWhere(xs + ys, p) == FirstWhere(xs, p)
  {
    assert (xs + ys)[0] == xs[0];
    if !p(xs[0]) {
      assert (xs + ys)[1..] == xs[1..] + ys;
      FirstWhereExtend(xs[1..], ys, p);
    }
  }

  /** With no match among `xs`, the first match of `xs + ys` lies in `ys`. */
  lemma {:induction false} FirstWhereAfter<T>(xs: seq<T>, ys: seq<T>, p: T -> bool)
    requires FirstWhere(xs, p).None?
    requires FirstWhere(ys, p).Some?
    ensures FirstWhere(xs + ys, p) == Some(|xs| + FirstWhere(ys, p).value)
  {
    if xs == [] {
      assert xs + ys == ys;
    } else {
      assert (xs + ys)[0] == xs[0] && !p(xs[0]);
      assert (xs + ys)[1..] == xs[1..] + ys;
      FirstWhereAfter(xs[1..], ys, p);
    }
  }

  /** The elements satisfying `p`, in their original order: a SQL `WHERE`
      over a table scanned in rowid order. */
  function Filter<T(!new)>(xs: seq<T>, p: T -> bool): (r: seq<T>)
    ensures |r| <= |xs|
    ensures forall x :: x in r <==> x in xs && p(x)
  {
    if xs == [] then []
    else if p(xs[0]) then [xs[0]] + Filter(xs[1..], p)
    else Filter(xs[1..], p)
  }

  /** Where nothing satisfies `p`, the filter is empty. */
  lemma {:induction false} FilterNone<T(!new)>(xs: seq<T>, p: T -> bool)
    requires forall i :: 0 <= i < |xs| ==> !p(xs[i])
    ensures Filter(xs, p) == []
  {
    if xs != [] {
      FilterNone(xs[1..], p);
    }
  }

  /** The search loop of the source: scan `xs` in order and stop at the
      first element satisfying `p`. */
  method Search<T>(xs: seq<T>, p: T -> bool) returns (k: Option<nat>)
    ensures k == FirstWhere(xs, p)
  {
    var i := 0;
    while i < |xs|
      invariant 0 <= i <= |xs|
      invariant forall j :: 0 <= j < i ==> !p(xs[j])
    {
      if p(xs[i]) {
        k := Some(i);
        FirstWhereUnique(xs, p, i);
        return;
      }
      i := i + 1;
    }
    k := None;
    FirstWhereNone(xs, p);
  }

  lemma FirstWhereUnique<T>(xs: seq<T>, p: T -> bool, i: nat)
    requires i < |xs| && p(xs[i])
    requires forall j :: 0 <= j < i ==> !p(xs[j])
    ensures FirstWhere(xs, p) == Some(i)
  {
    var r := FirstWhere(xs, p);
    if r.None? || r.value != i {
      assert false;
    }
  }

  lemma FirstWhereNone<T>(xs: seq<T>, p: T -> bool)
    requires forall j :: 0 <= j < |xs| ==> !p(xs[j])
    ensures FirstWhere(xs, p).None?
  {
    var r := FirstWhere(xs, p);
    if r.Some? {
      assert false;
    }
  }
}
