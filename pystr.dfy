/** The two Python string operations the pomodoro widgets build their bar texts with. */
module PyStr {

  /** `s * n`: `n` copies of `s`, one after the other; copies of the empty string are empty. */
  function Repeat(s: string, n: nat): (r: string)
    ensures s == [] ==> r == []
  {
    if n == 0 then [] else s + Repeat(s, n - 1)
  }

  /** `n` copies of `s` are `n` times as long as `s`. */
  lemma {:induction false} RepeatLength(s: string, n: nat)
    ensures |Repeat(s, n)| == n * |s|
  {
    if n > 0 {
      RepeatLength(s, n - 1);
      assert |Repeat(s, n)| == |s| + (n - 1) * |s|;
    }
  }

  /**
   * `s.replace(pattern, replacement, count)`: the first `count` occurrences of
   * `pattern`, found left to right without overlap, replaced by `replacement`.
   * An empty pattern matches before every character and at the end, as in
   * CPython 3.9 and later. A replacement as long as the pattern keeps the length.
   */
  function Replace(s: string, pattern: string, replacement: string, count: nat): (r: string)
    decreases |s|
  {
    if count == 0 then s
    else if pattern == [] then
      (if s == [] then replacement
       else replacement + [s[0]] + Replace(s[1..], pattern, replacement, count - 1))
    else if |s| < |pattern| then s
    else if s[..|pattern|] == pattern then
      replacement + Replace(s[|pattern|..], pattern, replacement, count - 1)
    else [s[0]] + Replace(s[1..], pattern, replacement, count)
  }

  /** With a count left, a string that starts with the non-empty pattern has that occurrence replaced first. */
  lemma ReplaceStep(f: string, e: string, rest: string, n: nat)
    requires f != [] && n > 0
    ensures Replace(f + rest, f, e, n) == e + Replace(rest, f, e, n - 1)
  {
    var s := f + rest;
    assert s[..|f|] == f;
    assert s[|f|..] == rest;
  }

  /**
   * Replacing `n` of the `m` leading copies of a non-empty `f` turns exactly
   * the first `n` copies into `e` and leaves the rest of the string alone.
   */
  lemma {:induction false} ReplaceInRepeat(f: string, e: string, m: nat, n: nat, t: string)
    requires f != [] && n <= m
    ensures Replace(Repeat(f, m) + t, f, e, n) == Repeat(e, n) + Repeat(f, m - n) + t
    decreases n
  {
    if n > 0 {
      var rest := Repeat(f, m - 1) + t;
      Associative(f, Repeat(f, m - 1), t);
      ReplaceStep(f, e, rest, n);
      ReplaceInRepeat(f, e, m - 1, n - 1, t);
      assert (m - 1) - (n - 1) == m - n;
      Associative(e, Repeat(e, n - 1) + Repeat(f, m - n), t);
      Associative(e, Repeat(e, n - 1), Repeat(f, m - n));
    } else {
      assert Repeat(e, 0) + Repeat(f, m) + t == Repeat(f, m) + t;
    }
  }

  /** Concatenation is associative. */
  lemma Associative(a: string, b: string, c: string)
    ensures (a + b) + c == a + (b + c)
  {
  }

  /** A prefix without the (one-character) pattern is copied unchanged. */
  lemma {:induction false} ReplaceAfterPrefix(p: string, c: char, e: string, x: string, n: nat)
    requires c !in p
    ensures Replace(p + x, [c], e, n) == p + Replace(x, [c], e, n)
    decreases |p|
  {
    if n > 0 && p != [] {
      var s := p + x;
      assert s[0] == p[0] && p[0] != c;
      assert s[..1] != [c];
      assert s[1..] == p[1..] + x;
      ReplaceAfterPrefix(p[1..], c, e, x, n);
      assert p == [p[0]] + p[1..];
    } else if p == [] {
      assert p + x == x;
    }
  }
}
