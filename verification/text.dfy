/**
 * The handful of Python string operations the fetcher relies on, stated over
 * `string` (= `seq<char>`): substring test `t in s`, the slice `s[:n]`,
 * `s.split(sep)`, `str(n)` for a natural number and `int(s)` for a string of
 * decimal digits. `Join`, the inverse of `Split`, is not used by the fetcher:
 * it is the form in which the proofs read the f-string filenames.
 */
module Text {
  import opened Wrappers

  /** `t` appears in `s` starting at index `i`. */
  predicate OccursAt(s: string, t: string, i: int)
  {
    0 <= i && i + |t| <= |s| && s[i..i + |t|] == t
  }

  /** Python's substring test `t in s`. */
  predicate Contains(s: string, t: string)
  {
    exists i :: 0 <= i <= |s| && OccursAt(s, t, i)
  }

  /** No occurrence of `t` in `s` starts before index `k`. */
  predicate NoneBefore(s: string, t: string, k: int)
  {
    forall i :: 0 <= i < k ==> !OccursAt(s, t, i)
  }

  /** Python's slice `s[:n]` for a non-negative `n`: it never raises, and
      yields all of `s` when `s` is shorter than `n`. */
  function Prefix(s: string, n: nat): (r: string)
    ensures r <= s
    ensures |r| == n || (|r| == |s| < n)
  {
    if n <= |s| then s[..n] else s
  }

  /** The last element of a non-empty list, Python's `xs[-1]`. */
  function Last<T>(xs: seq<T>): T
    requires |xs| > 0
  {
    xs[|xs| - 1]
  }

  /** The pieces glued back together with `sep` between them, as Python's
      `sep.join(parts)` would; a proof device, the inverse of `Split`. */
  function Join(parts: seq<string>, sep: string): string
  {
    if parts == [] then ""
    else if |parts| == 1 then parts[0]
    else parts[0] + sep + Join(parts[1..], sep)
  }

  /** Python's `s.split(sep)` for a non-empty separator: the string is cut at
      every occurrence of `sep` found scanning from the left, occurrences do
      not overlap, and the result always has at least one piece. */
  function Split(s: string, sep: string): (r: seq<string>)
    requires sep != []
    ensures |r| >= 1
    decreases |s|
  {
    if |sep| <= |s| && s[..|sep|] == sep then [""] + Split(s[|sep|..], sep)
    else if s == [] then [""]
    else
      var rest := Split(s[1..], sep);
      [[s[0]] + rest[0]] + rest[1..]
  }

  /** Joining after an empty first piece puts the separator in front. */
  lemma JoinEmptyFirst(rest: seq<string>, sep: string)
    requires |rest| >= 1
    ensures Join([""] + rest, sep) == sep + Join(rest, sep)
  {
    assert ([""] + rest)[1..] == rest;
  }

  /** Joining after growing the first piece grows the joined string in front. */
  lemma JoinGrowFirst(x: string, rest: seq<string>, sep: string)
    requires |rest| >= 1
    ensures Join([x + rest[0]] + rest[1..], sep) == x + Join(rest, sep)
  {
    var p := [x + rest[0]] + rest[1..];
    assert p[1..] == rest[1..];
  }

  /** Joining the pieces of a split with the same separator gives the string
      back: `sep.join(s.split(sep)) == s`. */
  lemma {:induction false} JoinSplit(s: string, sep: string)
    requires sep != []
    ensures Join(Split(s, sep), sep) == s
    decreases |s|
  {
    if |sep| <= |s| && s[..|sep|] == sep {
      var tail := s[|sep|..];
      JoinSplit(tail, sep);
      JoinEmptyFirst(Split(tail, sep), sep);
      assert s == sep + tail;
    } else if s != [] {
      JoinSplit(s[1..], sep);
      JoinGrowFirst([s[0]], Split(s[1..], sep), sep);
      assert s == [s[0]] + s[1..];
    }
  }

  predicate IsDigit(ch: char)
  {
    '0' <= ch <= '9'
  }

  predicate AllDigits(s: string)
  {
    forall i :: 0 <= i < |s| ==> IsDigit(s[i])
  }

  function DigitChar(d: nat): (ch: char)
    requires d < 10
    ensures IsDigit(ch) && ch as int - '0' as int == d
  {
    "0123456789"[d]
  }

  function DigitValue(ch: char): (d: nat)
    requires IsDigit(ch)
    ensures d < 10
  {
    ch as int - '0' as int
  }

  /** Python's `str(n)` for a natural number: its decimal digits, most
      significant first, without leading zeros. */
  function NatToString(n: nat): (r: string)
    ensures |r| >= 1 && AllDigits(r)
    ensures n < 10 <==> |r| == 1
    decreases n
  {
    if n < 10 then [DigitChar(n)] else NatToString(n / 10) + [DigitChar(n % 10)]
  }

  /** The value of a string of decimal digits; leading zeros are allowed, as
      with Python's `int`. */
  function DigitsValue(s: string): nat
    requires AllDigits(s)
  {
    if s == [] then 0 else DigitsValue(s[..|s| - 1]) * 10 + DigitValue(s[|s| - 1])
  }

  /** Python's `int(s)` restricted to what the fetcher can meet: a non-empty
      run of ASCII digits parses, anything else raises (None). */
  function ParseNat(s: string): (r: Option<nat>)
    ensures r.Some? <==> |s| > 0 && AllDigits(s)
  {
    if |s| > 0 && AllDigits(s) then Some(DigitsValue(s)) else None
  }

  /** `int(str(n)) == n`. */
  lemma {:induction false} ParseNatToString(n: nat)
    ensures ParseNat(NatToString(n)) == Some(n)
    decreases n
  {
    var s := NatToString(n);
    if n >= 10 {
      ParseNatToString(n / 10);
      assert s[..|s| - 1] == NatToString(n / 10);
      assert DigitValue(s[|s| - 1]) == n % 10;
      assert DigitsValue(s) == DigitsValue(NatToString(n / 10)) * 10 + n % 10;
    } else {
      assert s[..|s| - 1] == [];
    }
  }

  /** Distinct numbers print differently. */
  lemma NatToStringInjective(m: nat, n: nat)
    ensures NatToString(m) == NatToString(n) ==> m == n
  {
    ParseNatToString(m);
    ParseNatToString(n);
  }

  /** A string with no occurrence of `sep` splits into itself alone. */
  lemma {:induction false} SplitPlain(s: string, sep: string)
    requires sep != []
    requires !Contains(s, sep)
    ensures Split(s, sep) == [s]
    decreases |s|
  {
    assert !OccursAt(s, sep, 0);
    if s != [] {
      forall i | 0 <= i <= |s[1..]|
        ensures !OccursAt(s[1..], sep, i)
      {
        if OccursAt(s[1..], sep, i) {
          assert s[i + 1..i + 1 + |sep|] == s[1..][i..i + |sep|];
          assert OccursAt(s, sep, i + 1);
        }
      }
      SplitPlain(s[1..], sep);
      assert [s[0]] + s[1..] == s;
    }
  }

  /** Characters in front of the first occurrence of `sep` all go to the
      first piece. */
  lemma {:induction false} SplitPrepend(a: string, b: string, sep: string)
    requires sep != []
    requires NoneBefore(a + b, sep, |a|)
    ensures Split(a + b, sep) == [a + Split(b, sep)[0]] + Split(b, sep)[1..]
    decreases |a|
  {
    if a == [] {
      var r := Split(b, sep);
      assert a + b == b;
      assert a + r[0] == r[0];
      assert [a + r[0]] + r[1..] == r;
    } else {
      var s := a + b;
      assert !OccursAt(s, sep, 0);
      SplitStep(s, sep);
      assert s[1..] == a[1..] + b;
      NoneBeforeTail(a, b, sep);
      SplitPrepend(a[1..], b, sep);
      assert [a[0]] + (a[1..] + Split(b, sep)[0]) == a + Split(b, sep)[0];
    }
  }

  /** One step of the left-to-right scan: no occurrence at the front, so the
      first character joins the first piece. */
  lemma SplitStep(s: string, sep: string)
    requires sep != [] && s != []
    requires !OccursAt(s, sep, 0)
    ensures Split(s, sep) == [[s[0]] + Split(s[1..], sep)[0]] + Split(s[1..], sep)[1..]
  {
  }

  lemma NoneBeforeTail(a: string, b: string, sep: string)
    requires a != []
    requires NoneBefore(a + b, sep, |a|)
    ensures NoneBefore(a[1..] + b, sep, |a| - 1)
  {
    var s := a + b;
    forall i | 0 <= i < |a| - 1
      ensures !OccursAt(a[1..] + b, sep, i)
    {
      assert !OccursAt(s, sep, i + 1);
      assert a[1..] + b == s[1..];
      if i + |sep| <= |s[1..]| {
        assert s[1..][i..i + |sep|] == s[i + 1..i + 1 + |sep|];
      }
    }
  }

  /** When the first occurrence of `sep` starts right after `a`, the first
      piece is exactly `a`. */
  lemma SplitAfter(a: string, b: string, sep: string)
    requires sep != []
    requires NoneBefore(a + sep + b, sep, |a|)
    ensures Split(a + sep + b, sep) == [a] + Split(b, sep)
  {
    assert a + sep + b == a + (sep + b);
    SplitPrepend(a, sep + b, sep);
    assert (sep + b)[..|sep|] == sep;
    assert (sep + b)[|sep|..] == b;
    assert Split(sep + b, sep) == [""] + Split(b, sep);
    assert a + "" == a;
  }

  /** No part contains the one-character separator `c`. */
  predicate Unseparated(parts: seq<string>, c: char)
  {
    forall i :: 0 <= i < |parts| ==> c !in parts[i]
  }

  /** Splitting undoes joining when no part contains the separator. */
  lemma {:induction false} SplitJoin(parts: seq<string>, c: char)
    requires |parts| >= 1
    requires Unseparated(parts, c)
    ensures Split(Join(parts, [c]), [c]) == parts
    decreases |parts|
  {
    if |parts| == 1 {
      NotContainsChar(parts[0], [c]);
      SplitPlain(parts[0], [c]);
    } else {
      var a, b := parts[0], Join(parts[1..], [c]);
      FirstSeparator(a, b, c);
      forall i | 0 <= i < |a|
        ensures !OccursAt(a + [c] + b, [c], i)
      {
        assert (a + [c] + b)[i..i + 1][0] == (a + [c] + b)[i];
      }
      SplitAfter(a, b, [c]);
      assert forall i :: 0 <= i < |parts[1..]| ==> parts[1..][i] == parts[i + 1];
      SplitJoin(parts[1..], c);
      assert [a] + parts[1..] == parts;
    }
  }

  /** A string that lacks the first character of `t` cannot contain `t`. */
  lemma NotContainsChar(s: string, t: string)
    requires t != [] && t[0] !in s
    ensures !Contains(s, t)
  {
  }

  /** A string shorter than `t` cannot contain `t`. */
  lemma NotContainsShort(s: string, t: string)
    requires |s| < |t|
    ensures !Contains(s, t)
  {
  }

  /** Of two strings of one length, one contains the other only if they are equal. */
  lemma ContainsSameLength(s: string, t: string)
    requires |s| == |t|
    ensures Contains(s, t) <==> s == t
  {
    if s == t {
      assert OccursAt(s, t, 0);
    }
  }

  /** An occurrence of `t` inside `a + [c] + b` lies wholly in `a` or wholly
      in `b` when `t` does not contain `c`; and an occurrence in either part is
      one in the whole. */
  lemma ContainsAround(a: string, c: char, b: string, t: string)
    requires c !in t
    ensures Contains(a + [c] + b, t) <==> Contains(a, t) || Contains(b, t)
  {
    var s := a + [c] + b;
    assert s[|a| + 1..] == b;
    if Contains(s, t) {
      var i :| 0 <= i <= |s| && OccursAt(s, t, i);
      forall k | i <= k < i + |t|
        ensures s[k] == t[k - i]
      {
        assert s[k] == s[i..i + |t|][k - i];
      }
      assert s[|a|] == c;
      if i + |t| <= |a| {
        assert s[i..i + |t|] == a[i..i + |t|];
        assert OccursAt(a, t, i);
      } else if i > |a| {
        assert s[i..i + |t|] == s[|a| + 1..][i - |a| - 1..i - |a| - 1 + |t|];
        assert OccursAt(b, t, i - |a| - 1);
      }
    }
    if Contains(a, t) {
      var i :| 0 <= i <= |a| && OccursAt(a, t, i);
      assert s[i..i + |t|] == a[i..i + |t|];
      assert OccursAt(s, t, i);
    }
    if Contains(b, t) {
      var i :| 0 <= i <= |b| && OccursAt(b, t, i);
      var j := i + |a| + 1;
      assert s[j..j + |t|] == s[|a| + 1..][i..i + |t|];
      assert OccursAt(s, t, j);
    }
  }

  /** `t in sep.join(parts)` holds exactly when some part contains `t`, for a
      one-character separator that `t` does not contain. */
  lemma {:induction false} ContainsJoin(parts: seq<string>, c: char, t: string)
    requires |parts| >= 1
    requires c !in t
    ensures Contains(Join(parts, [c]), t) <==> exists i :: 0 <= i < |parts| && Contains(parts[i], t)
    decreases |parts|
  {
    if |parts| > 1 {
      ContainsAround(parts[0], c, Join(parts[1..], [c]), t);
      ContainsJoin(parts[1..], c, t);
      if i :| 1 <= i < |parts| && Contains(parts[i], t) {
        assert parts[1..][i - 1] == parts[i];
      }
    }
  }

  /** In `a + [ch] + b` with no `ch` in `a`, the first `ch` is at `|a|`. */
  lemma FirstSeparator(a: string, b: string, ch: char)
    requires ch !in a
    ensures (a + [ch] + b)[|a|] == ch
    ensures forall k :: 0 <= k < |a| ==> (a + [ch] + b)[k] != ch
  {
    forall k | 0 <= k < |a|
      ensures (a + [ch] + b)[k] != ch
    {
      assert (a + [ch] + b)[k] == a[k];
    }
  }

  /** A separator character that occurs in neither left part splits a
      string at one place only. */
  lemma SeparatorUnique(a: string, b: string, a': string, b': string, ch: char)
    requires ch !in a && ch !in a'
    requires a + [ch] + b == a' + [ch] + b'
    ensures a == a' && b == b'
  {
    var s := a + [ch] + b;
    FirstSeparator(a, b, ch);
    FirstSeparator(a', b', ch);
    assert |a| == |a'|;
    assert a == s[..|a|] && a' == s[..|a'|];
    assert b == s[|a| + 1..] && b' == s[|a'| + 1..];
  }
}
