/** Small shared vocabulary: optional values (JavaScript's `null`/`undefined`
    versus a present value) and sums over sequences. */
module Common {

  datatype Option<+T> = None | Some(value: T)

  /** `x ?? d`: the value when present, else the default. */
  function OrElse<T>(x: Option<T>, d: T): (r: T)
    ensures x.Some? ==> r == x.value
    ensures x.None? ==> r == d
  {
    match x
    case Some(v) => v
    case None => d
  }

  /** `s || d` on an optional string: absent and empty both give `d`. */
  function TextOr(s: Option<string>, d: string): (r: string)
    ensures r == d || (s.Some? && r == s.value && r != "")
    ensures (s.Some? && s.value != "") <==> (s.Some? && r == s.value && r != "")
  {
    if s.Some? && s.value != "" then s.value else d
  }

  /** Sum of a sequence of integers, folded from the right end so that
      appending one element adds one term. */
  function Sum(s: seq<int>): int
  {
    if s == [] then 0 else Sum(s[..|s| - 1]) + s[|s| - 1]
  }

  /** Sum of a sequence of reals, folded like `Sum`. */
  function RealSum(s: seq<real>): real
  {
    if s == [] then 0.0 else RealSum(s[..|s| - 1]) + s[|s| - 1]
  }

  /** A real sum splits over concatenation. */
  lemma {:induction false} RealSumAppend(a: seq<real>, b: seq<real>)
    ensures RealSum(a + b) == RealSum(a) + RealSum(b)
    decreases |b|
  {
    if b == [] {
      assert a + b == a;
    } else {
      var b' := b[..|b| - 1];
      assert (a + b)[..|a + b| - 1] == a + b';
      RealSumAppend(a, b');
    }
  }

  /** Occurrences of `x` in `s`, counted from the back like the sums. */
  function Count<T(==)>(s: seq<T>, x: T): (n: nat)
    ensures n <= |s|
    ensures n == 0 <==> x !in s
  {
    if s == [] then 0
    else
      assert s == s[..|s| - 1] + [s[|s| - 1]];
      Count(s[..|s| - 1], x) + (if s[|s| - 1] == x then 1 else 0)
  }
}
