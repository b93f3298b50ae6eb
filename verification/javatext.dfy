/** The parts of `java.lang.String` the pipeline's path and identifier code
    relies on, stated over `seq<char>`.

    `Split` is `String.split` with a one-character, non-meta pattern (the
    pipeline only ever splits on "/" and "-"), including the rule that
    trailing empty strings are removed; `SplitOnce` is `split(sep, 2)`, which
    keeps them. `Trim` removes every character at or below U+0020 at both
    ends, as `String.trim` does. Case mapping covers ASCII letters only.
 */
module JavaText {

  /** Index of the first `c` in `s`, or -1 (`String.indexOf(char)`). */
  function IndexOf(s: string, c: char): (i: int)
    ensures i == -1 <==> c !in s
    ensures 0 <= i ==> i < |s| && s[i] == c && c !in s[..i]
  {
    if |s| == 0 then -1
    else if s[0] == c then 0
    else
      var j := IndexOf(s[1..], c);
      assert s[1..][..if j < 0 then 0 else j] == s[1..if j < 0 then 1 else j + 1];
      if j < 0 then -1 else j + 1
  }

  predicate StartsWith(s: string, prefix: string) {
    prefix <= s
  }

  predicate EndsWith(s: string, suffix: string) {
    |suffix| <= |s| && s[|s| - |suffix|..] == suffix
  }

  /** `String.contains`: `t` occurs somewhere in `s`. */
  predicate Contains(s: string, t: string)
    decreases |s|
  {
    StartsWith(s, t) || (|s| > 0 && Contains(s[1..], t))
  }

  lemma {:induction false} ContainsAt(s: string, t: string, i: nat)
    requires i + |t| <= |s| && s[i..i + |t|] == t
    ensures Contains(s, t)
    decreases i
  {
    if i == 0 {
      assert s[..|t|] == t;
    } else {
      assert s[1..][i - 1..i - 1 + |t|] == s[i..i + |t|];
      ContainsAt(s[1..], t, i - 1);
    }
  }

  /** `parts` glued back together with `sep` between neighbours. */
  function Join(parts: seq<string>, sep: char): string
    decreases |parts|
  {
    if |parts| == 0 then ""
    else if |parts| == 1 then parts[0]
    else parts[0] + [sep] + Join(parts[1..], sep)
  }

  /** Every piece between separators, empty pieces included: the list the
      regex engine produces before `split` drops trailing empty strings. */
  function SplitAll(s: string, sep: char): (parts: seq<string>)
    ensures |parts| >= 1
    ensures forall k :: 0 <= k < |parts| ==> sep !in parts[k]
    ensures Join(parts, sep) == s
    ensures sep !in s ==> parts == [s]
    decreases |s|
  {
    var i := IndexOf(s, sep);
    if i < 0 then [s]
    else
      var rest := SplitAll(s[i + 1..], sep);
      assert s == s[..i] + [sep] + s[i + 1..];
      [s[..i]] + rest
  }

  /** `parts` without its trailing run of empty strings. */
  function DropTrailingEmpty(parts: seq<string>): (r: seq<string>)
    ensures r <= parts
    ensures |r| > 0 ==> r[|r| - 1] != ""
    ensures forall k :: |r| <= k < |parts| ==> parts[k] == ""
    decreases |parts|
  {
    if |parts| == 0 then []
    else if parts[|parts| - 1] == "" then DropTrailingEmpty(parts[..|parts| - 1])
    else parts
  }

  /** `s.split(String.valueOf(sep))`: the whole string when `sep` does not
      occur, otherwise the pieces with trailing empty strings removed. */
  function Split(s: string, sep: char): (parts: seq<string>)
    ensures sep !in s ==> parts == [s]
    ensures forall k :: 0 <= k < |parts| ==> sep !in parts[k]
    ensures parts <= SplitAll(s, sep)
    ensures forall k :: |parts| <= k < |SplitAll(s, sep)| ==> SplitAll(s, sep)[k] == ""
  {
    if sep !in s then [s] else DropTrailingEmpty(SplitAll(s, sep))
  }

  /** Splitting a string that ends in a non-empty piece keeps every piece. */
  lemma SplitKeepsNonEmptyTail(s: string, sep: char)
    requires |SplitAll(s, sep)[|SplitAll(s, sep)| - 1]| > 0
    ensures Split(s, sep) == SplitAll(s, sep)
  {
  }

  /** `SplitAll` of pieces joined together gives the pieces back. */
  lemma {:induction false} SplitAllJoin(parts: seq<string>, sep: char)
    requires |parts| >= 1
    requires forall k :: 0 <= k < |parts| ==> sep !in parts[k]
    ensures SplitAll(Join(parts, sep), sep) == parts
    decreases |parts|
  {
    if |parts| == 1 {
    } else {
      var s := Join(parts, sep);
      assert s == parts[0] + [sep] + Join(parts[1..], sep);
      assert IndexOf(s, sep) == |parts[0]| by {
        assert s[..|parts[0]|] == parts[0];
        assert s[|parts[0]|] == sep;
        IndexOfFirst(s, sep, |parts[0]|);
      }
      assert s[|parts[0]| + 1..] == Join(parts[1..], sep);
      SplitAllJoin(parts[1..], sep);
      assert s[..|parts[0]|] == parts[0];
    }
  }

  lemma IndexOfFirst(s: string, c: char, i: nat)
    requires i < |s| && s[i] == c && c !in s[..i]
    ensures IndexOf(s, c) == i
  {
  }

  /** `s.split(sep, 2)`: at most two pieces, split at the first `sep`, with
      an empty second piece kept. */
  function SplitOnce(s: string, sep: char): (parts: seq<string>)
    ensures 1 <= |parts| <= 2
    ensures |parts| == 1 <==> sep !in s
    ensures |parts| == 1 ==> parts[0] == s
    ensures |parts| == 2 ==> sep !in parts[0] && parts[0] + [sep] + parts[1] == s
  {
    var i := IndexOf(s, sep);
    if i < 0 then [s]
    else
      assert s == s[..i] + [sep] + s[i + 1..];
      [s[..i], s[i + 1..]]
  }

  /** Characters `String.trim` removes. */
  predicate IsTrimmable(c: char) {
    c <= ' '
  }

  function TrimStart(s: string): (r: string)
    ensures EndsWith(s, r)
    ensures |r| > 0 ==> !IsTrimmable(r[0])
    ensures forall k :: 0 <= k < |s| - |r| ==> IsTrimmable(s[k])
    decreases |s|
  {
    if |s| > 0 && IsTrimmable(s[0]) then TrimStart(s[1..]) else s
  }

  function TrimEnd(s: string): (r: string)
    ensures r <= s
    ensures |r| > 0 ==> !IsTrimmable(r[|r| - 1])
    ensures forall k :: |r| <= k < |s| ==> IsTrimmable(s[k])
    decreases |s|
  {
    if |s| > 0 && IsTrimmable(s[|s| - 1]) then TrimEnd(s[..|s| - 1]) else s
  }

  /** `String.trim`: the longest slice of `s` whose first and last
      characters lie above U+0020. */
  function Trim(s: string): (r: string)
    ensures |r| <= |s|
    ensures |r| > 0 ==> !IsTrimmable(r[0]) && !IsTrimmable(r[|r| - 1])
    ensures (forall k :: 0 <= k < |s| ==> IsTrimmable(s[k])) <==> r == ""
  {
    TrimShape(s);
    TrimEnd(TrimStart(s))
  }

  lemma TrimShape(s: string)
    ensures var r := TrimEnd(TrimStart(s));
      (|r| > 0 ==> !IsTrimmable(r[0])) &&
      ((forall k :: 0 <= k < |s| ==> IsTrimmable(s[k])) <==> r == "")
  {
    var t := TrimStart(s);
    var r := TrimEnd(t);
    assert |r| > 0 ==> r[0] == t[0];
    if r == "" && |s| > 0 {
      assert t == "";
    }
    if r != "" {
      assert r[0] == s[|s| - |t|];
    }
  }

  lemma TrimIdempotent(s: string)
    ensures Trim(Trim(s)) == Trim(s)
  {
    var r := Trim(s);
    assert TrimStart(r) == r;
    assert TrimEnd(r) == r;
  }

  function LowerChar(c: char): char {
    if 'A' <= c <= 'Z' then (c as int - 'A' as int + 'a' as int) as char else c
  }

  function UpperChar(c: char): char {
    if 'a' <= c <= 'z' then (c as int - 'a' as int + 'A' as int) as char else c
  }

  /** `String.toLowerCase` on ASCII letters. */
  function ToLower(s: string): (r: string)
    ensures |r| == |s|
    ensures forall k :: 0 <= k < |s| ==> r[k] == LowerChar(s[k])
  {
    seq(|s|, k requires 0 <= k < |s| => LowerChar(s[k]))
  }

  /** `String.toUpperCase` on ASCII letters. */
  function ToUpper(s: string): (r: string)
    ensures |r| == |s|
    ensures forall k :: 0 <= k < |s| ==> r[k] == UpperChar(s[k])
  {
    seq(|s|, k requires 0 <= k < |s| => UpperChar(s[k]))
  }

  lemma ToLowerIdempotent(s: string)
    ensures ToLower(ToLower(s)) == ToLower(s)
  {
  }

  /** Lower-casing never creates or removes characters that trimming looks
      at, so the two commute. */
  lemma {:induction false} TrimToLowerCommute(s: string)
    ensures Trim(ToLower(s)) == ToLower(Trim(s))
  {
    TrimStartLower(s);
    TrimEndLower(TrimStart(s));
  }

  lemma {:induction false} TrimStartLower(s: string)
    ensures TrimStart(ToLower(s)) == ToLower(TrimStart(s))
    decreases |s|
  {
    if |s| > 0 && IsTrimmable(s[0]) {
      assert ToLower(s)[1..] == ToLower(s[1..]);
      TrimStartLower(s[1..]);
    }
  }

  lemma {:induction false} TrimEndLower(s: string)
    ensures TrimEnd(ToLower(s)) == ToLower(TrimEnd(s))
    decreases |s|
  {
    if |s| > 0 && IsTrimmable(s[|s| - 1]) {
      assert ToLower(s)[..|s| - 1] == ToLower(s[..|s| - 1]);
      TrimEndLower(s[..|s| - 1]);
    }
  }

  /** `String.valueOf` of a non-negative int: its decimal digits. */
  function Decimal(n: nat): (s: string)
    ensures |s| >= 1
    ensures forall k :: 0 <= k < |s| ==> '0' <= s[k] <= '9'
  {
    var d := ['0', '1', '2', '3', '4', '5', '6', '7', '8', '9'][n % 10];
    if n < 10 then [d] else Decimal(n / 10) + [d]
  }

  /** `String.valueOf` of any int: a minus sign before the digits of a
      negative one. */
  function Signed(i: int): string {
    if i < 0 then "-" + Decimal(-i) else Decimal(i)
  }

  /** Different numbers print differently. */
  lemma {:induction false} DecimalInjective(m: nat, n: nat)
    requires Decimal(m) == Decimal(n)
    ensures m == n
    decreases m
  {
    var a, b := Decimal(m), Decimal(n);
    assert a[|a| - 1] == b[|b| - 1];
    assert m % 10 == n % 10;
    if m >= 10 && n >= 10 {
      assert Decimal(m / 10) == a[..|a| - 1] == b[..|b| - 1] == Decimal(n / 10);
      DecimalInjective(m / 10, n / 10);
    }
  }
}
