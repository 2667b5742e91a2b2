/** The few JavaScript runtime operations the plugin relies on: `Array.prototype.join`,
    `Array.prototype.reverse`, `String.prototype.includes` and the decimal rendering of
    an integer inside a template string. */
module JsRuntime {

  /** `xs.join(sep)`: the elements separated by `sep`; the empty array joins to "". */
  function Join(xs: seq<string>, sep: string): (joined: string)
    ensures |xs| > 0 ==> StartsWith(joined, xs[0]) && EndsWith(joined, xs[|xs| - 1])
  {
    if |xs| == 0 then ""
    else if |xs| == 1 then xs[0]
    else xs[0] + sep + Join(xs[1..], sep)
  }

  /** Joining a non-empty tail after one more element puts `sep` between them. */
  lemma JoinCons(x: string, xs: seq<string>, sep: string)
    requires |xs| > 0
    ensures Join([x] + xs, sep) == x + sep + Join(xs, sep)
  {
    assert ([x] + xs)[1..] == xs;
  }

  /** One more element at the end of a non-empty array adds the separator and that
      element at the end of the join. */
  lemma {:induction false} JoinSnoc(xs: seq<string>, x: string, sep: string)
    requires |xs| > 0
    ensures Join(xs + [x], sep) == Join(xs, sep) + sep + x
    decreases |xs|
  {
    if |xs| > 1 {
      assert (xs + [x])[1..] == xs[1..] + [x];
      JoinSnoc(xs[1..], x, sep);
    }
  }

  /** `s` holds `sub` starting at index `i`. */
  predicate OccursAt(s: string, sub: string, i: nat)
  {
    i + |sub| <= |s| && s[i..i + |sub|] == sub
  }

  /** `s.includes(sub)`: `sub` occurs somewhere in `s` (the empty string occurs everywhere). */
  predicate Contains(s: string, sub: string)
  {
    exists i: nat :: i <= |s| && OccursAt(s, sub, i)
  }

  predicate StartsWith(s: string, prefix: string)
  {
    |prefix| <= |s| && s[..|prefix|] == prefix
  }

  predicate EndsWith(s: string, suffix: string)
  {
    |suffix| <= |s| && s[|s| - |suffix|..] == suffix
  }

  lemma ContainsInPrefix(a: string, b: string, sub: string)
    requires Contains(a, sub)
    ensures Contains(a + b, sub)
  {
    var i: nat :| i <= |a| && OccursAt(a, sub, i);
    assert (a + b)[i..i + |sub|] == a[i..i + |sub|];
    assert OccursAt(a + b, sub, i);
  }

  lemma ContainsInSuffix(a: string, b: string, sub: string)
    requires Contains(b, sub)
    ensures Contains(a + b, sub)
  {
    var i: nat :| i <= |b| && OccursAt(b, sub, i);
    assert (a + b)[|a| + i..|a| + i + |sub|] == b[i..i + |sub|];
    assert OccursAt(a + b, sub, |a| + i);
  }

  /** `sub` occurs in the middle of `head + sub + tail`, which starts with `head`. */
  lemma Framed(head: string, sub: string, tail: string)
    ensures StartsWith(head + sub + tail, head)
    ensures Contains(head + sub + tail, sub)
  {
    assert (head + sub + tail)[..|head|] == head;
    assert (head + sub + tail)[|head|..|head| + |sub|] == sub;
    assert OccursAt(head + sub + tail, sub, |head|);
  }

  /** `s.includes(sub)` is false when the first character of `sub` is nowhere in `s`. */
  lemma NotContainsWithoutFirstChar(s: string, sub: string)
    requires |sub| > 0 && sub[0] !in s
    ensures !Contains(s, sub)
  {
  }

  /** Whatever one element of an array contains, its join contains too. */
  lemma {:induction false} JoinContainsElement(xs: seq<string>, sep: string, k: nat, sub: string)
    requires k < |xs| && Contains(xs[k], sub)
    ensures Contains(Join(xs, sep), sub)
  {
    if |xs| == 1 {
      assert Join(xs, sep) == xs[k];
    } else {
      var rest := Join(xs[1..], sep);
      assert Join(xs, sep) == xs[0] + sep + rest;
      if k == 0 {
        ContainsInPrefix(xs[0], sep + rest, sub);
        assert xs[0] + (sep + rest) == xs[0] + sep + rest;
      } else {
        assert xs[1..][k - 1] == xs[k];
        JoinContainsElement(xs[1..], sep, k - 1, sub);
        ContainsInSuffix(xs[0] + sep, rest, sub);
      }
    }
  }

  /** `xs.reverse()`, as a value: the last element first. */
  function Reversed<T>(xs: seq<T>): (r: seq<T>)
    ensures |r| == |xs|
    ensures forall i :: 0 <= i < |xs| ==> r[i] == xs[|xs| - 1 - i]
  {
    if xs == [] then [] else [xs[|xs| - 1]] + Reversed(xs[..|xs| - 1])
  }

  lemma ReversedPush<T>(xs: seq<T>, x: T)
    ensures Reversed(xs + [x]) == [x] + Reversed(xs)
  {
    assert (xs + [x])[..|xs|] == xs;
  }

  predicate IsDigit(c: char)
  {
    '0' <= c <= '9'
  }

  function DigitChar(d: nat): (c: char)
    requires d < 10
    ensures IsDigit(c) && c as int - '0' as int == d
  {
    ('0' as int + d) as char
  }

  /** `${n}` for a non-negative integer below 1e21 (from there JavaScript switches to
      exponent form): its shortest decimal numeral. */
  function NatToString(n: nat): (s: string)
    ensures |s| >= 1
    ensures forall i :: 0 <= i < |s| ==> IsDigit(s[i])
    ensures s[0] == '0' ==> s == "0"
    decreases n
  {
    if n < 10 then [DigitChar(n)] else NatToString(n / 10) + [DigitChar(n % 10)]
  }

  /** The value of a decimal numeral, most significant digit first. */
  function DecimalValue(s: string): nat
    requires forall i :: 0 <= i < |s| ==> IsDigit(s[i])
  {
    if s == [] then 0
    else assert IsDigit(s[|s| - 1]); DecimalValue(s[..|s| - 1]) * 10 + (s[|s| - 1] as int - '0' as int)
  }

  /** The numeral written for `n` reads back as `n`. */
  lemma {:induction false} NatToStringReadsBack(n: nat)
    ensures DecimalValue(NatToString(n)) == n
    decreases n
  {
    if n >= 10 {
      var s := NatToString(n);
      assert s[..|s| - 1] == NatToString(n / 10);
      NatToStringReadsBack(n / 10);
    }
  }
}
