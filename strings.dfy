/**
 * The JavaScript string operations the poster exporter relies on: white space as `\s` and
 * `trim` see it, `substring`/`slice` with their index clamping, `split`/`join` on one
 * separator character, and decimal rendering of a number in a template string.
 */
module Strings {
  import opened Wrappers

  /** White space as JavaScript's `\s` and `String.prototype.trim` see it, over a fixed set. */
  predicate IsWhitespace(c: char) {
    c == ' ' || c == '\t' || c == '\n' || c == '\r' || c == '\U{000B}' || c == '\U{000C}'
    || c == '\U{00A0}' || c == '\U{FEFF}'
  }

  predicate AllWhitespace(s: string) {
    forall i :: 0 <= i < |s| ==> IsWhitespace(s[i])
  }

  /** Length of the longest all-white-space prefix. */
  function LeadingWhitespace(s: string): (n: nat)
    ensures n <= |s| && AllWhitespace(s[..n])
    ensures n < |s| ==> !IsWhitespace(s[n])
  {
    if s == [] || !IsWhitespace(s[0]) then 0
    else
      var n := 1 + LeadingWhitespace(s[1..]);
      assert s[..n] == [s[0]] + s[1..][..n - 1];
      n
  }

  /** Length of the longest all-white-space suffix. */
  function TrailingWhitespace(s: string): (n: nat)
    ensures n <= |s| && AllWhitespace(s[|s| - n..])
    ensures n < |s| ==> !IsWhitespace(s[|s| - n - 1])
  {
    if s == [] || !IsWhitespace(s[|s| - 1]) then 0
    else
      var t := s[..|s| - 1];
      var n := 1 + TrailingWhitespace(t);
      assert s[|s| - n..] == t[|t| - (n - 1)..] + [s[|s| - 1]];
      n
  }

  /** Where `trim` starts keeping characters. */
  function TrimStart(s: string): (a: nat)
    ensures a <= |s| && AllWhitespace(s[..a])
    ensures a < |s| ==> !IsWhitespace(s[a])
  {
    LeadingWhitespace(s)
  }

  /** Where `trim` stops keeping characters. */
  function TrimEnd(s: string): (b: nat)
    ensures TrimStart(s) <= b <= |s| && AllWhitespace(s[b..])
    ensures TrimStart(s) < b ==> !IsWhitespace(s[b - 1])
  {
    if TrimStart(s) == |s| then |s| else |s| - TrailingWhitespace(s)
  }

  /**
   * `String.prototype.trim`: the slice between the leading and the trailing white space.
   * It has no white space at either end, and it is empty exactly when `s` is all white space.
   */
  function Trim(s: string): (r: string)
    ensures r == s[TrimStart(s)..TrimEnd(s)]
    ensures r == [] || (!IsWhitespace(r[0]) && !IsWhitespace(r[|r| - 1]))
    ensures r == [] <==> AllWhitespace(s)
  {
    var r := s[TrimStart(s)..TrimEnd(s)];
    assert r == [] ==> s == s[..TrimStart(s)] + s[TrimEnd(s)..];
    r
  }

  /** A string made of white space, a core with no white space at its ends, and white space trims to the core. */
  lemma TrimUnique(u: string, r: string, v: string)
    requires AllWhitespace(u) && AllWhitespace(v)
    requires r == [] || (!IsWhitespace(r[0]) && !IsWhitespace(r[|r| - 1]))
    ensures Trim(u + r + v) == r
  {
    var s := u + r + v;
    if r == [] {
      assert AllWhitespace(s) by {
        forall i | 0 <= i < |s| ensures IsWhitespace(s[i]) {
          if i < |u| { assert s[i] == u[i]; } else { assert s[i] == v[i - |u|]; }
        }
      }
    } else {
      var a, b := TrimStart(s), TrimEnd(s);
      assert s[|u|] == r[0];
      assert a == |u|;
      assert s[|u| + |r| - 1] == r[|r| - 1];
      assert b == |u| + |r|;
      assert s[a..b] == r;
    }
  }

  /** A string with no white space at its ends is its own trim. */
  lemma TrimOfTrimmed(s: string)
    requires s == [] || (!IsWhitespace(s[0]) && !IsWhitespace(s[|s| - 1]))
    ensures Trim(s) == s
  {
    TrimUnique("", s, "");
    assert "" + s + "" == s;
  }

  /** A leading white-space character makes no difference to `trim`. */
  lemma TrimDropsLeadingWhitespace(s: string)
    requires s != [] && IsWhitespace(s[0])
    ensures Trim(s) == Trim(s[1..])
  {
    var t := s[1..];
    var u, r, v := t[..TrimStart(t)], Trim(t), t[TrimEnd(t)..];
    var w := [s[0]] + u;
    assert AllWhitespace(w) by {
      forall i | 0 <= i < |w| ensures IsWhitespace(w[i]) {
        if i > 0 { assert w[i] == u[i - 1]; }
      }
    }
    assert t == u + r + v;
    assert s == w + r + v;
    TrimUnique(w, r, v);
  }

  /** The characters of `s` that are not white space, in order. */
  function NonWhitespace(s: string): string {
    if s == [] then [] else (if IsWhitespace(s[0]) then [] else [s[0]]) + NonWhitespace(s[1..])
  }

  lemma {:induction false} NonWhitespaceAppend(a: string, b: string)
    ensures NonWhitespace(a + b) == NonWhitespace(a) + NonWhitespace(b)
  {
    if a != [] {
      assert (a + b)[1..] == a[1..] + b;
      NonWhitespaceAppend(a[1..], b);
    } else {
      assert a + b == b;
    }
  }

  lemma {:induction false} NonWhitespaceOfWhitespace(s: string)
    requires AllWhitespace(s)
    ensures NonWhitespace(s) == []
  {
    if s != [] {
      NonWhitespaceOfWhitespace(s[1..]);
    }
  }

  /** Trimming only ever removes white space. */
  lemma TrimKeepsText(s: string)
    ensures NonWhitespace(Trim(s)) == NonWhitespace(s)
  {
    var a, b := TrimStart(s), TrimEnd(s);
    assert s == s[..a] + s[a..b] + s[b..];
    NonWhitespaceAppend(s[..a] + s[a..b], s[b..]);
    NonWhitespaceAppend(s[..a], s[a..b]);
    NonWhitespaceOfWhitespace(s[..a]);
    NonWhitespaceOfWhitespace(s[b..]);
  }

  /** JavaScript's clamping of a string index into `0..n`. */
  function ClampIndex(k: int, n: nat): (c: nat)
    ensures c <= n
    ensures 0 <= k <= n ==> c == k
  {
    if k < 0 then 0 else if k > n then n else k
  }

  /** `s.substring(0, k)` (and `s.slice(0, k)` for `k >= 0`). */
  function Before(s: string, k: int): (r: string)
    ensures r == s[..ClampIndex(k, |s|)]
  {
    s[..ClampIndex(k, |s|)]
  }

  /** `s.substring(k)` (and `s.slice(k)` for `k >= 0`). */
  function From(s: string, k: int): (r: string)
    ensures r == s[ClampIndex(k, |s|)..]
  {
    s[ClampIndex(k, |s|)..]
  }

  /** Cutting a string anywhere and putting the two pieces back together gives the string. */
  lemma BeforeFrom(s: string, k: int)
    ensures Before(s, k) + From(s, k) == s
  {
    assert s == s[..ClampIndex(k, |s|)] + s[ClampIndex(k, |s|)..];
  }

  predicate StartsWith(s: string, prefix: string) {
    |prefix| <= |s| && s[..|prefix|] == prefix
  }

  /** Index of the first occurrence of `c` in `s`. */
  function IndexOf(s: string, c: char): (r: Option<nat>)
    ensures r.None? <==> c !in s
    ensures r.Some? ==> r.value < |s| && s[r.value] == c && c !in s[..r.value]
  {
    if s == [] then None
    else if s[0] == c then Some(0)
    else
      match IndexOf(s[1..], c)
      case None => None
      case Some(k) =>
        assert s[..k + 1] == [s[0]] + s[1..][..k];
        Some(k + 1)
  }

  /** Index of the last occurrence of `c` in `s`. */
  function LastIndexOf(s: string, c: char): (r: Option<nat>)
    ensures r.None? <==> c !in s
    ensures r.Some? ==> r.value < |s| && s[r.value] == c && c !in s[r.value + 1..]
  {
    if s == [] then None
    else if s[|s| - 1] == c then Some(|s| - 1)
    else
      var r := LastIndexOf(s[..|s| - 1], c);
      assert r.Some? ==> s[r.value + 1..] == s[..|s| - 1][r.value + 1..] + [s[|s| - 1]];
      assert s == s[..|s| - 1] + [s[|s| - 1]];
      r
  }

  /** `s.split(sep)` for a one-character separator: never empty, and no piece holds `sep`. */
  function Split(s: string, sep: char): (parts: seq<string>)
    ensures |parts| >= 1
    ensures forall i :: 0 <= i < |parts| ==> sep !in parts[i]
    ensures parts[0] == if IndexOf(s, sep).Some? then s[..IndexOf(s, sep).value] else s
    decreases |s|
  {
    match IndexOf(s, sep)
    case None => [s]
    case Some(k) => [s[..k]] + Split(s[k + 1..], sep)
  }

  /** `parts.join(sep)`. */
  function Join(parts: seq<string>, sep: char): string {
    if |parts| == 0 then ""
    else if |parts| == 1 then parts[0]
    else parts[0] + [sep] + Join(parts[1..], sep)
  }

  /** A piece without the separator, the separator, then the rest: the piece comes first, then the rest's pieces. */
  lemma SplitCons(a: string, sep: char, t: string)
    requires sep !in a
    ensures Split(a + [sep] + t, sep) == [a] + Split(t, sep)
  {
    var s := a + [sep] + t;
    assert s[|a|] == sep && s[..|a|] == a && s[|a| + 1..] == t;
  }

  /** Joining before one more piece puts a separator between them. */
  lemma JoinCons(a: string, rest: seq<string>, sep: char)
    requires |rest| >= 1
    ensures Join([a] + rest, sep) == a + [sep] + Join(rest, sep)
  {
    assert ([a] + rest)[1..] == rest;
  }

  /** A string with exactly one separator splits into the text before it and the text after it. */
  lemma SplitInTwo(s: string, sep: char, k: nat)
    requires k < |s| && s[k] == sep && sep !in s[..k] && sep !in s[k + 1..]
    ensures Split(s, sep) == [s[..k], s[k + 1..]]
  {
    assert s == s[..k] + [sep] + s[k + 1..];
    SplitCons(s[..k], sep, s[k + 1..]);
  }

  /** Joining what `split` produced gives back the string. */
  lemma {:induction false} JoinSplit(s: string, sep: char)
    ensures Join(Split(s, sep), sep) == s
    decreases |s|
  {
    var r := IndexOf(s, sep);
    if r.Some? {
      var a, t := s[..r.value], s[r.value + 1..];
      JoinSplit(t, sep);
      var rest := Split(t, sep);
      assert Split(s, sep) == [a] + rest;
      JoinCons(a, rest, sep);
      assert s == a + [sep] + t;
    }
  }

  /** Splitting what `join` produced gives back the pieces, when no piece holds the separator. */
  lemma {:induction false} SplitJoin(parts: seq<string>, sep: char)
    requires |parts| >= 1
    requires forall i :: 0 <= i < |parts| ==> sep !in parts[i]
    ensures Split(Join(parts, sep), sep) == parts
  {
    if |parts| > 1 {
      SplitCons(parts[0], sep, Join(parts[1..], sep));
      SplitJoin(parts[1..], sep);
      assert parts == [parts[0]] + parts[1..];
    }
  }

  /** Length of a join: the pieces plus one separator between each two. */
  lemma {:induction false} JoinLength(parts: seq<string>, sep: char)
    requires |parts| >= 1
    ensures |Join(parts, sep)| == SumLengths(parts) + |parts| - 1
  {
    if |parts| > 1 {
      JoinLength(parts[1..], sep);
    }
  }

  function SumLengths(parts: seq<string>): nat {
    if parts == [] then 0 else |parts[0]| + SumLengths(parts[1..])
  }

  lemma {:induction false} SumLengthsUpdate(parts: seq<string>, i: nat, p: string)
    requires i < |parts|
    ensures SumLengths(parts[i := p]) == SumLengths(parts) - |parts[i]| + |p|
  {
    if i > 0 {
      assert parts[i := p][1..] == parts[1..][i - 1 := p];
      SumLengthsUpdate(parts[1..], i - 1, p);
    }
  }

  /** The character of decimal digit `d`. */
  function DigitChar(d: nat): (c: char)
    requires d < 10
    ensures '0' <= c <= '9' && c as int - '0' as int == d
  {
    ('0' as int + d) as char
  }

  /** The number a string of decimal digits denotes, most significant digit first. */
  function DigitsValue(s: string): int {
    if s == [] then 0 else 10 * DigitsValue(s[..|s| - 1]) + (s[|s| - 1] as int - '0' as int)
  }

  /** `${n}`: the decimal digits of `n`, most significant first, without leading zeros. */
  function NatToString(n: nat): (r: string)
    ensures |r| >= 1
    ensures forall i :: 0 <= i < |r| ==> '0' <= r[i] <= '9'
    ensures n >= 10 ==> r[0] != '0'
    ensures DigitsValue(r) == n
  {
    if n < 10 then
      var r := [DigitChar(n)];
      assert r[..0] == [];
      r
    else
      var init := NatToString(n / 10);
      var r := init + [DigitChar(n % 10)];
      assert r[..|r| - 1] == init;
      r
  }

  /** Different numbers have different decimal strings. */
  lemma NatToStringInjective(m: nat, n: nat)
    requires NatToString(m) == NatToString(n)
    ensures m == n
  {
  }
}
