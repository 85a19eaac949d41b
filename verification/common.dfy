/**
 * Small shared vocabulary of the model: an Option type for Python's
 * `None`-or-value returns, real-number helpers for `abs`/`min`/`max`,
 * Python's `round` and `int()` on reals, and the bounded window that
 * models `collections.deque(maxlen=...)`.
 */
module Common {

  /** Python's `Optional[T]`: either `None` or a value. */
  datatype Option<+T> = None | Some(value: T) {
    /** `x if x is not None else default` */
    function GetOr(default: T): T {
      match this
      case Some(v) => v
      case None => default
    }
  }

  function Abs(x: real): (r: real)
    ensures r >= 0.0
    ensures r == x || r == -x
  {
    if x < 0.0 then -x else x
  }

  function Min(a: real, b: real): (r: real)
    ensures r <= a && r <= b
    ensures r == a || r == b
  {
    if a <= b then a else b
  }

  function Max(a: real, b: real): (r: real)
    ensures r >= a && r >= b
    ensures r == a || r == b
  {
    if a >= b then a else b
  }

  /** Python's `max(lo, min(hi, x))`, the clamp idiom used throughout the source. */
  function Clamp(x: real, lo: real, hi: real): (r: real)
    ensures lo <= r
    ensures lo <= hi ==> r <= hi
    ensures lo <= x <= hi ==> r == x
    ensures lo <= hi && x < lo ==> r == lo
    ensures lo <= hi && x > hi ==> r == hi
  {
    Max(lo, Min(hi, x))
  }

  /** Sum of a sequence of reals, left to right. */
  function Sum(xs: seq<real>): real
  {
    if |xs| == 0 then 0.0 else Sum(xs[..|xs| - 1]) + xs[|xs| - 1]
  }

  lemma {:induction false} SumAppend(xs: seq<real>, x: real)
    ensures Sum(xs + [x]) == Sum(xs) + x
  {
    assert (xs + [x])[..|xs + [x]| - 1] == xs;
  }

  lemma {:induction false} SumNonNegative(xs: seq<real>)
    requires forall i :: 0 <= i < |xs| ==> xs[i] >= 0.0
    ensures Sum(xs) >= 0.0
  {
    if |xs| > 0 {
      SumNonNegative(xs[..|xs| - 1]);
    }
  }

  /**
   * Nearest integer, ties to even: the rounding rule of Python's built-in
   * `round`, applied to the exact real value.
   */
  function RoundHalfEven(x: real): (n: int)
    ensures x - 0.5 <= n as real <= x + 0.5
    ensures (x - n as real == 0.5 || n as real - x == 0.5) ==> n % 2 == 0
  {
    var f := x.Floor;
    var d := x - f as real;
    if d < 0.5 then f
    else if d > 0.5 then f + 1
    else if f % 2 == 0 then f
    else f + 1
  }

  /** Rounding never crosses an integer bound on either side. */
  lemma {:induction false} RoundHalfEvenWithin(x: real, lo: int, hi: int)
    requires lo as real <= x <= hi as real
    ensures lo <= RoundHalfEven(x) <= hi
  {
  }

  /** Python's `round(x, 4)`. */
  function Round4(x: real): (r: real)
    ensures x - 0.00005 <= r <= x + 0.00005
  {
    RoundHalfEven(x * 10000.0) as real / 10000.0
  }

  /** Rounding to four places keeps a value inside any interval whose ends have at most four decimals. */
  lemma {:induction false} Round4Within(x: real, lo: int, hi: int)
    requires lo as real / 10000.0 <= x <= hi as real / 10000.0
    ensures lo as real / 10000.0 <= Round4(x) <= hi as real / 10000.0
  {
    RoundHalfEvenWithin(x * 10000.0, lo, hi);
  }

  /** Python's `int(x)` on a float: truncation toward zero. */
  function TruncToInt(x: real): (n: int)
    ensures x >= 0.0 ==> 0 <= n && n as real <= x < n as real + 1.0
    ensures x < 0.0 ==> n <= 0 && n as real - 1.0 < x <= n as real
  {
    if x >= 0.0 then x.Floor else -((-x).Floor)
  }

  /** The last `cap` elements of `s` (all of `s` when it is shorter). */
  function KeepLast<T>(s: seq<T>, cap: nat): (r: seq<T>)
    ensures |r| == if |s| <= cap then |s| else cap
    ensures r == s[|s| - |r|..]
  {
    if |s| <= cap then s else s[|s| - cap..]
  }

  /**
   * `deque(maxlen=cap).append(x)`: append on the right, evicting from the
   * left once the window is full.
   */
  function PushBounded<T>(w: seq<T>, x: T, cap: nat): (r: seq<T>)
    requires |w| <= cap
    ensures |r| <= cap
  {
    KeepLast(w + [x], cap)
  }

  /**
   * The deque's append: below capacity the value is simply added; at
   * capacity the oldest value is evicted; the new value is always last.
   */
  lemma {:induction false} PushBoundedShape<T>(w: seq<T>, x: T, cap: nat)
    requires |w| <= cap
    ensures |w| < cap ==> PushBounded(w, x, cap) == w + [x]
    ensures |w| == cap && cap > 0 ==> PushBounded(w, x, cap) == w[1..] + [x]
    ensures cap > 0 ==> PushBounded(w, x, cap)[|PushBounded(w, x, cap)| - 1] == x
  {
    if |w| == cap && cap > 0 {
      assert (w + [x])[1..] == w[1..] + [x];
    }
  }

  /** Appending `xs` one by one to a bounded window. */
  function PushAll<T>(w: seq<T>, xs: seq<T>, cap: nat): (r: seq<T>)
    requires |w| <= cap
    ensures |r| <= cap
    decreases |xs|
  {
    if |xs| == 0 then w else PushAll(PushBounded(w, xs[0], cap), xs[1..], cap)
  }

  lemma {:induction false} KeepLastTwice<T>(a: seq<T>, b: seq<T>, cap: nat)
    ensures KeepLast(KeepLast(a, cap) + b, cap) == KeepLast(a + b, cap)
  {
    var k := KeepLast(a, cap);
    assert k == a[|a| - |k|..];
    if |a| <= cap {
      assert k == a;
    } else if |b| == 0 {
      assert k + b == k && a + b == a;
    } else {
      var r1 := KeepLast(k + b, cap);
      var r2 := KeepLast(a + b, cap);
      assert |r1| == |r2| == cap;
      forall i | 0 <= i < cap
        ensures r1[i] == r2[i]
      {
        var j := |k + b| - cap + i;
        var j2 := |a + b| - cap + i;
        if j < |k| {
          assert r1[i] == k[j] == a[|a| - |k| + j];
          assert j2 == |a| - |k| + j;
        } else {
          assert r1[i] == b[j - |k|];
          assert j2 - |a| == j - |k|;
        }
      }
    }
  }

  /** One append followed by more values is the same window as appending them all at once. */
  lemma {:induction false} PushThenKeep<T>(w: seq<T>, x: T, rest: seq<T>, cap: nat)
    requires |w| <= cap
    ensures KeepLast(PushBounded(w, x, cap) + rest, cap) == KeepLast(w + ([x] + rest), cap)
  {
    KeepLastTwice(w + [x], rest, cap);
    assert w + [x] + rest == w + ([x] + rest);
  }

  /**
   * The window after any run of appends holds exactly the newest `cap`
   * values of everything ever appended: a deque with `maxlen` forgets
   * nothing else and reorders nothing.
   */
  lemma {:induction false} PushAllKeepsNewest<T>(w: seq<T>, xs: seq<T>, cap: nat)
    requires |w| <= cap
    ensures PushAll(w, xs, cap) == KeepLast(w + xs, cap)
    decreases |xs|
  {
    if |xs| == 0 {
      assert w + xs == w;
    } else {
      PushAllKeepsNewest(PushBounded(w, xs[0], cap), xs[1..], cap);
      PushThenKeep(w, xs[0], xs[1..], cap);
      assert [xs[0]] + xs[1..] == xs;
    }
  }

  /** `a` is obtained from `b` by deleting elements, keeping the order of the rest. */
  predicate IsSubsequence<T(==)>(a: seq<T>, b: seq<T>)
    decreases |b|
  {
    if |a| == 0 then true
    else if |b| == 0 then false
    else if a[0] == b[0] then IsSubsequence(a[1..], b[1..])
    else IsSubsequence(a, b[1..])
  }

  /** A subsequence of the tail of `b` is a subsequence of `b`. */
  lemma {:induction false} SubsequenceCons<T>(a: seq<T>, b: seq<T>)
    requires |b| > 0 && IsSubsequence(a, b[1..])
    ensures IsSubsequence(a, b)
    decreases |a| + |b|
  {
    if |a| > 0 && a[0] == b[0] {
      SubsequenceTail(a, b[1..]);
    }
  }

  /** Dropping the first element of a subsequence keeps it a subsequence. */
  lemma {:induction false} SubsequenceTail<T>(a: seq<T>, b: seq<T>)
    requires |a| > 0 && IsSubsequence(a, b)
    ensures IsSubsequence(a[1..], b)
    decreases |a| + |b|
  {
    if a[0] == b[0] {
      SubsequenceCons(a[1..], b);
    } else {
      SubsequenceTail(a, b[1..]);
      SubsequenceCons(a[1..], b);
    }
  }

  /** Python's `s[:n]`. */
  function Take<T>(s: seq<T>, n: nat): (r: seq<T>)
    ensures |r| == if |s| <= n then |s| else n
    ensures |s| <= n ==> r == s
    ensures r == s[..|r|]
  {
    if |s| <= n then s else s[..n]
  }
}
