/** Character classes and string operations the reference graph is built from.

    Only ASCII is modelled: `Lower` lowers A-Z and leaves every other
    character alone, which is what `toLowerCase` does on the character sets
    the identifiers are restricted to. */
module Strings {
  import opened Wrappers

  predicate IsDigit(c: char) { '0' <= c <= '9' }
  predicate IsLower(c: char) { 'a' <= c <= 'z' }
  predicate IsUpper(c: char) { 'A' <= c <= 'Z' }
  predicate IsAlpha(c: char) { IsLower(c) || IsUpper(c) }
  predicate IsAlnum(c: char) { IsAlpha(c) || IsDigit(c) }
  /** `[a-z0-9]`: the lower-case alphanumerics. */
  predicate IsLowerAlnum(c: char) { IsLower(c) || IsDigit(c) }
  /** `\w` without Unicode: `[a-zA-Z0-9_]`. */
  predicate IsWord(c: char) { IsAlnum(c) || c == '_' }

  function LowerChar(c: char): (r: char)
    ensures IsUpper(c) ==> IsLower(r)
    ensures !IsUpper(c) ==> r == c
  {
    if IsUpper(c) then (c as int + 32) as char else c
  }

  /** ASCII `toLowerCase`. */
  function Lower(s: string): (r: string)
    ensures |r| == |s|
    ensures forall i :: 0 <= i < |s| ==> r[i] == LowerChar(s[i])
  {
    seq(|s|, i requires 0 <= i < |s| => LowerChar(s[i]))
  }

  predicate All(s: string, p: char -> bool) {
    forall i :: 0 <= i < |s| ==> p(s[i])
  }

  predicate StartsWith(s: string, prefix: string) {
    |prefix| <= |s| && s[..|prefix|] == prefix
  }

  predicate EndsWith(s: string, suffix: string) {
    |suffix| <= |s| && s[|s| - |suffix|..] == suffix
  }

  /** The two-character sequence `ab` starts at index `i` of `s`. */
  predicate PairAt(s: string, i: int, a: char, b: char) {
    0 <= i < |s| - 1 && s[i] == a && s[i + 1] == b
  }

  /** `s.includes(ab)` for a two-character `ab`. */
  predicate HasPair(s: string, a: char, b: char) {
    exists i | 0 <= i < |s| - 1 :: PairAt(s, i, a, b)
  }

  /** `sub` occurs in `s` starting at index `i`. */
  predicate SubAt(s: string, sub: string, i: int) {
    0 <= i && i + |sub| <= |s| && s[i..i + |sub|] == sub
  }

  /** `s.includes(sub)`. */
  predicate Contains(s: string, sub: string) {
    exists i | 0 <= i <= |s| - |sub| :: SubAt(s, sub, i)
  }

  /** `s.indexOf(ab)` when it is not -1: the first index where `ab` starts. */
  function FindPair(s: string, a: char, b: char, from: nat := 0): (r: Option<nat>)
    ensures r.Some? ==> from <= r.value && PairAt(s, r.value, a, b)
    ensures r.Some? ==> forall j :: from <= j < r.value ==> !PairAt(s, j, a, b)
    ensures r.None? ==> forall j :: from <= j ==> !PairAt(s, j, a, b)
    decreases |s| - from
  {
    if from + 1 >= |s| then None
    else if s[from] == a && s[from + 1] == b then Some(from)
    else FindPair(s, a, b, from + 1)
  }

  /** `s.indexOf(ch)` when it is not -1: the first index of `ch`. */
  function FindChar(s: string, ch: char, from: nat := 0): (r: Option<nat>)
    ensures r.Some? ==> from <= r.value < |s| && s[r.value] == ch
    ensures r.Some? ==> forall j :: from <= j < r.value ==> s[j] != ch
    ensures r.None? ==> forall j :: from <= j < |s| ==> s[j] != ch
    decreases |s| - from
  {
    if from >= |s| then None
    else if s[from] == ch then Some(from)
    else FindChar(s, ch, from + 1)
  }

  lemma FindPairNone(s: string, a: char, b: char)
    ensures FindPair(s, a, b).None? <==> !HasPair(s, a, b)
  {
    var r := FindPair(s, a, b);
    if r.Some? {
      assert PairAt(s, r.value, a, b);
    }
  }

  /** The characters of `s` that satisfy `keep`, in order (`replace(/[^…]/g, '')`). */
  function Filter(s: string, keep: char -> bool): (r: string)
    ensures |r| <= |s|
    ensures forall i :: 0 <= i < |r| ==> keep(r[i])
  {
    if |s| == 0 then ""
    else (if keep(s[0]) then [s[0]] else []) + Filter(s[1..], keep)
  }

  lemma {:induction false} FilterKeepsAll(s: string, keep: char -> bool)
    requires All(s, keep)
    ensures Filter(s, keep) == s
  {
    if |s| > 0 {
      FilterKeepsAll(s[1..], keep);
    }
  }

  lemma {:induction false} FilterAppend(s: string, t: string, keep: char -> bool)
    ensures Filter(s + t, keep) == Filter(s, keep) + Filter(t, keep)
  {
    if |s| == 0 {
      assert s + t == t;
    } else {
      assert (s + t)[1..] == s[1..] + t;
      FilterAppend(s[1..], t, keep);
    }
  }

  /** Replaces every character outside `keep` with `fill` (`replace(/[^…]/g, fill)`). */
  function ReplaceOutside(s: string, keep: char -> bool, fill: char): (r: string)
    ensures |r| == |s|
    ensures forall i :: 0 <= i < |s| ==> r[i] == (if keep(s[i]) then s[i] else fill)
  {
    seq(|s|, i requires 0 <= i < |s| => if keep(s[i]) then s[i] else fill)
  }

  /** `parts.join(sep)`. */
  function Join(parts: seq<string>, sep: string): string {
    if |parts| == 0 then ""
    else if |parts| == 1 then parts[0]
    else parts[0] + sep + Join(parts[1..], sep)
  }

  /** Decimal rendering of a natural number, as a template literal prints it. */
  function NatToString(n: nat): (r: string)
    ensures |r| > 0 && All(r, IsDigit)
  {
    var d := ['0' + (n % 10) as char];
    if n < 10 then d else NatToString(n / 10) + d
  }

  /** A separator that does not occur in the leading part splits a string
      uniquely: equal joins have equal parts. */
  lemma SplitUnique(a1: string, r1: string, a2: string, r2: string, sep: char)
    requires !(sep in a1) && !(sep in a2)
    requires a1 + [sep] + r1 == a2 + [sep] + r2
    ensures a1 == a2 && r1 == r2
  {
    var s := a1 + [sep] + r1;
    assert s[|a1|] == sep && s[|a2|] == sep;
    assert a1 == s[..|a1|] == a2;
    assert r1 == s[|a1| + 1..] == r2;
  }
}
