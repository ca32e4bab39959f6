/** Name sanitizers and derivations: CloudFormation stack names, Kubernetes
    namespaces, ECR repository names, RDS cluster identifiers, provider
    export names and the length-capped `OdmdNames`. */
module Sanitizers {
  import opened Wrappers
  import opened Errors
  import opened Strings
  import opened RevRefs

  // ---------------------------------------------------------------- stack names

  /** `[A-Za-z0-9-]`, the characters of a stack name. */
  predicate StackChar(c: char) { IsAlnum(c) || c == '-' }

  /** `SANITIZE_STACK_NAME`: every non-alphanumeric character becomes `-`;
      then a leading `-` becomes `A` and a trailing `-` becomes `Z`. */
  function SanitizeStackName(n: string): (r: string)
    ensures |r| == |n|
    ensures All(r, StackChar)
    ensures |r| > 0 ==> r[0] != '-' && r[|r| - 1] != '-'
    ensures forall i :: 0 <= i < |n| && IsAlnum(n[i]) ==> r[i] == n[i]
    ensures forall i :: 0 < i < |n| - 1 && !IsAlnum(n[i]) ==> r[i] == '-'
    ensures |n| > 0 && !IsAlnum(n[0]) ==> r[0] == 'A'
    ensures |n| > 1 && !IsAlnum(n[|n| - 1]) ==> r[|n| - 1] == 'Z'
  {
    var s := ReplaceOutside(n, IsAlnum, '-');
    var s1 := if |s| > 0 && s[0] == '-' then s[0 := 'A'] else s;
    if |s1| > 0 && s1[|s1| - 1] == '-' then s1[|s1| - 1 := 'Z'] else s1
  }

  /** Sanitizing a sanitized name changes nothing. */
  lemma SanitizeStackNameIdempotent(n: string)
    ensures SanitizeStackName(SanitizeStackName(n)) == SanitizeStackName(n)
  {
    var r := SanitizeStackName(n);
    var r2 := SanitizeStackName(r);
    forall i | 0 <= i < |r|
      ensures r2[i] == r[i]
    {
      if !IsAlnum(r[i]) {
        assert r[i] == '-';
      }
    }
  }

  /** A prefix that is already a stack name fragment (and does not start
      with `-`) survives sanitizing whenever something follows it. */
  lemma SanitizeKeepsPrefix(p: string, s: string)
    requires |p| > 0 && All(p, StackChar) && p[0] != '-'
    requires |s| > 0
    ensures StartsWith(SanitizeStackName(p + s), p)
  {
    var n := p + s;
    var r := SanitizeStackName(n);
    forall i | 0 <= i < |p|
      ensures r[i] == p[i]
    {
      assert n[i] == p[i];
      if !IsAlnum(p[i]) {
        assert p[i] == '-';
        assert 0 < i < |n| - 1;
      }
    }
    assert r[..|p|] == p;
  }

  /** The revision part of a stack name: the value of a branch, the whole
      canonical path of a tag. */
  function RevStackPart(rev: RevRef): string {
    if rev.kind == Branch then rev.value else PathOf(rev)
  }

  /** `OdmdEnverCdk.getRevStackNames`: the single name `<buildId>--<rev part>`, sanitized. */
  function CdkRevStackNames(buildId: string, rev: RevRef): (r: seq<string>)
    ensures |r| == 1
    ensures All(r[0], StackChar) && |r[0]| == |buildId| + 2 + |RevStackPart(rev)|
  {
    [SanitizeStackName(buildId + "--" + RevStackPart(rev))]
  }

  /** The stack-name rule of the whole-graph checks: at most 128 characters,
      `^[A-Za-z][A-Za-z0-9-]*$`, and prefixed by the build id. */
  predicate StackNameOk(name: string, buildId: string) {
    && |name| <= 128
    && |name| > 0 && IsAlpha(name[0]) && All(name, StackChar)
    && StartsWith(name, buildId)
  }

  /** A build id that starts with a letter and uses only stack-name
      characters always yields stack names the rule accepts, length permitting. */
  lemma CdkStackNameOk(buildId: string, rev: RevRef)
    requires |buildId| > 0 && IsAlpha(buildId[0]) && All(buildId, StackChar)
    requires |buildId| + 2 + |RevStackPart(rev)| <= 128
    ensures StackNameOk(CdkRevStackNames(buildId, rev)[0], buildId)
  {
    SanitizeKeepsPrefix(buildId, "--" + RevStackPart(rev));
  }

  // ---------------------------------------------------------------- Kubernetes namespaces

  /** `[a-z0-9-]`, the characters of a namespace. */
  predicate NsChar(c: char) { IsLowerAlnum(c) || c == '-' }

  /** `replace(/[^a-z0-9-]+/g, '-')`: each maximal run of other characters
      becomes a single `-`; `inRun` says the previous character was replaced. */
  function ReplaceRuns(s: string, inRun: bool): (r: string)
    ensures All(r, NsChar)
    ensures All(s, NsChar) ==> r == s
  {
    if |s| == 0 then ""
    else if !NsChar(s[0]) then (if inRun then "" else "-") + ReplaceRuns(s[1..], true)
    else [s[0]] + ReplaceRuns(s[1..], false)
  }

  /** `replace(/^-+|-+$/g, '')`. */
  function TrimDashes(s: string): (r: string)
    ensures |r| > 0 ==> r[0] != '-' && r[|r| - 1] != '-'
    ensures forall i :: 0 <= i < |r| ==> r[i] in s
    ensures |s| > 0 && s[0] != '-' && s[|s| - 1] != '-' ==> r == s
  {
    TrimEnd(TrimStart(s))
  }

  function TrimStart(s: string): (r: string)
    ensures |r| > 0 ==> r[0] != '-'
    ensures forall i :: 0 <= i < |r| ==> r[i] in s
    ensures |s| > 0 && s[|s| - 1] != '-' ==> |r| > 0 && r[|r| - 1] == s[|s| - 1]
    ensures |s| > 0 && s[0] != '-' ==> r == s
  {
    if |s| > 0 && s[0] == '-' then TrimStart(s[1..]) else s
  }

  function TrimEnd(s: string): (r: string)
    ensures |r| > 0 ==> r[|r| - 1] != '-'
    ensures forall i :: 0 <= i < |r| ==> r[i] in s
    ensures |s| > 0 && s[0] != '-' ==> |r| > 0 && r[0] == s[0]
    ensures |s| > 0 && s[|s| - 1] != '-' ==> r == s
  {
    if |s| > 0 && s[|s| - 1] == '-' then TrimEnd(s[..|s| - 1]) else s
  }

  /** `replace(/-{2,}/g, '-')`: every run of dashes becomes one; `prevDash`
      says a dash was just emitted. */
  function Squeeze(s: string, prevDash: bool): (r: string)
    ensures forall i :: 0 <= i < |r| ==> r[i] in s
    ensures !HasPair(r, '-', '-')
    ensures prevDash && |r| > 0 ==> r[0] != '-'
    ensures |s| > 0 && s[0] != '-' ==> |r| > 0 && r[0] == s[0]
    ensures |s| > 0 && s[|s| - 1] != '-' ==> |r| > 0 && r[|r| - 1] == s[|s| - 1]
    ensures !HasPair(s, '-', '-') && !(prevDash && |s| > 0 && s[0] == '-') ==> r == s
  {
    if |s| == 0 then ""
    else
      var rest := Squeeze(s[1..], s[0] == '-');
      SqueezeCons(s, prevDash, rest);
      (if s[0] == '-' && prevDash then "" else [s[0]]) + rest
  }

  /** One step of `Squeeze`: what the rest of the string gives, the whole
      string gives with its first character in front (or dropped, when it
      continues a run of dashes). */
  lemma SqueezeCons(s: string, prevDash: bool, rest: string)
    requires |s| > 0
    requires forall i :: 0 <= i < |rest| ==> rest[i] in s[1..]
    requires !HasPair(rest, '-', '-')
    requires s[0] == '-' && |rest| > 0 ==> rest[0] != '-'
    requires |s| > 1 && s[1] != '-' ==> |rest| > 0 && rest[0] == s[1]
    requires |s| > 1 && s[|s| - 1] != '-' ==> |rest| > 0 && rest[|rest| - 1] == s[|s| - 1]
    requires !HasPair(s[1..], '-', '-') && !(s[0] == '-' && |s| > 1 && s[1] == '-') ==> rest == s[1..]
    ensures var r := (if s[0] == '-' && prevDash then "" else [s[0]]) + rest;
      && (forall i :: 0 <= i < |r| ==> r[i] in s)
      && !HasPair(r, '-', '-')
      && (prevDash && |r| > 0 ==> r[0] != '-')
      && (s[0] != '-' ==> |r| > 0 && r[0] == s[0])
      && (s[|s| - 1] != '-' ==> |r| > 0 && r[|r| - 1] == s[|s| - 1])
      && (!HasPair(s, '-', '-') && !(prevDash && s[0] == '-') ==> r == s)
  {
    var head := if s[0] == '-' && prevDash then "" else [s[0]];
    var r := head + rest;
    DashFreeJoin(head, rest);
    DashFreeTail(s);
    assert !HasPair(s, '-', '-') && |s| > 1 && s[0] == '-' ==> s[1] != '-' by {
      if !HasPair(s, '-', '-') && |s| > 1 {
        assert !PairAt(s, 0, '-', '-');
      }
    }
    assert forall i | 0 <= i < |r| :: r[i] in s by {
      forall i | 0 <= i < |r| ensures r[i] in s {
        if i >= |head| {
          assert r[i] == rest[i - |head|] && rest[i - |head|] in s[1..];
        }
      }
    }
    assert |rest| > 0 ==> r[|r| - 1] == rest[|rest| - 1];
    assert [s[0]] + s[1..] == s;
  }

  /** At most one character in front of a string without `--` adds no `--`,
      unless it is a dash meeting a leading dash. */
  lemma DashFreeJoin(head: string, rest: string)
    requires |head| <= 1 && !HasPair(rest, '-', '-')
    requires head == "-" && |rest| > 0 ==> rest[0] != '-'
    ensures !HasPair(head + rest, '-', '-')
  {
    var r := head + rest;
    forall j | 0 <= j < |r| - 1
      ensures !PairAt(r, j, '-', '-')
    {
      if |head| == 1 && j > 0 {
        assert r[j] == rest[j - 1] && r[j + 1] == rest[j];
        assert !PairAt(rest, j - 1, '-', '-');
      } else if |head| == 0 {
        assert r[j] == rest[j] && r[j + 1] == rest[j + 1];
        assert !PairAt(rest, j, '-', '-');
      }
    }
  }

  /** Dropping the first character adds no `--`. */
  lemma DashFreeTail(s: string)
    requires |s| > 0
    ensures !HasPair(s, '-', '-') ==> !HasPair(s[1..], '-', '-')
  {
    if !HasPair(s, '-', '-') {
      forall j | 0 <= j < |s| - 2
        ensures !PairAt(s[1..], j, '-', '-')
      {
        assert !PairAt(s, j + 1, '-', '-');
      }
    }
  }

  /** A namespace as the Kubernetes rule of RFC 1123 section 2.1 wants a DNS
      label body, apart from its length: non-empty, `[a-z0-9-]`, starting and
      ending alphanumeric, and no `--` (which the sanitizer also promises). */
  predicate CleanLabel(s: string) {
    && |s| > 0
    && All(s, NsChar)
    && IsLowerAlnum(s[0]) && IsLowerAlnum(s[|s| - 1])
    && !HasPair(s, '-', '-')
  }

  /** The first three regex passes: lower-case, map foreign runs to `-`,
      trim dashes at the ends, squeeze runs of dashes. */
  function CleanNamespace(ns: string): (r: string)
    ensures All(r, NsChar) && !HasPair(r, '-', '-')
    ensures |r| > 0 ==> IsLowerAlnum(r[0]) && IsLowerAlnum(r[|r| - 1])
  {
    var s1 := ReplaceRuns(Lower(ns), false);
    var s2 := TrimDashes(s1);
    var s3 := Squeeze(s2, false);
    assert All(s2, NsChar) by {
      forall i | 0 <= i < |s2| ensures NsChar(s2[i]) {
        assert s2[i] in s1;
      }
    }
    assert All(s3, NsChar) by {
      forall i | 0 <= i < |s3| ensures NsChar(s3[i]) {
        assert s3[i] in s2;
      }
    }
    s3
  }

  /** The last two passes of the sanitizer: a result not starting `[a-z0-9]`
      gets an `a` in front (or becomes `default` when empty), and one not
      ending `[a-z0-9]` gets an `a` appended. */
  function FixEnds(s: string): (r: string)
    ensures |r| > 0 && IsLowerAlnum(r[0]) && IsLowerAlnum(r[|r| - 1])
    ensures All(s, NsChar) ==> All(r, NsChar)
    ensures !HasPair(s, '-', '-') ==> !HasPair(r, '-', '-')
    ensures |s| > 0 && IsLowerAlnum(s[0]) && IsLowerAlnum(s[|s| - 1]) ==> r == s
    ensures |s| > 0 && IsLowerAlnum(s[0]) && !IsLowerAlnum(s[|s| - 1]) ==> r == s + "a"
    ensures |s| == 0 ==> r == "default"
  {
    var s5 := if !(|s| > 0 && IsLowerAlnum(s[0])) then (if |s| > 0 then "a" + s else "default") else s;
    var r := if !(|s5| > 0 && IsLowerAlnum(s5[|s5| - 1])) then s5 + "a" else s5;
    assert !HasPair(s, '-', '-') ==> !HasPair(r, '-', '-') by {
      if !HasPair(s, '-', '-') {
        forall j | 0 <= j < |r| - 1 ensures !PairAt(r, j, '-', '-') {
          if s5 == "a" + s && 0 < j < |s5| - 1 {
            assert !PairAt(s, j - 1, '-', '-');
          } else if s5 == s && j < |s| - 1 {
            assert !PairAt(s, j, '-', '-');
          }
        }
      }
    }
    r
  }

  /** The first 63 characters, as `substring(0, 63)` takes them. */
  function Cut63(s: string): (r: string)
    ensures |r| <= 63 && StartsWith(s, r)
    ensures |s| <= 63 ==> r == s
    ensures |s| > 63 ==> r == s[..63]
    ensures All(s, NsChar) ==> All(r, NsChar)
    ensures !HasPair(s, '-', '-') ==> !HasPair(r, '-', '-')
    ensures |s| > 0 ==> |r| > 0 && r[0] == s[0]
  {
    var r := if |s| > 63 then s[..63] else s;
    assert !HasPair(s, '-', '-') ==> !HasPair(r, '-', '-') by {
      if !HasPair(s, '-', '-') {
        forall j | 0 <= j < |r| - 1 ensures !PairAt(r, j, '-', '-') {
          assert !PairAt(s, j, '-', '-');
        }
      }
    }
    r
  }

  /** `sanitizeKubernetesNamespace` as written: after the clean-up passes the
      result is cut to 63 characters, then its ends are fixed. The cut can
      leave a trailing `-`, to which an `a` is appended, so the result can be
      64 characters long. */
  function SanitizeNamespaceAsWritten(ns: string): (r: string)
    ensures CleanLabel(r)
    ensures |r| <= 64
  {
    FixEnds(Cut63(CleanNamespace(ns)))
  }

  /** The input that shows the 64-character result: 62 `a`s, a dash and two `b`s. */
  function LongNamespaceInput(): (s: string)
    ensures |s| == 65 && s[62] == '-'
    ensures CleanLabel(s)
  {
    var s := seq(62, _ => 'a') + "-bb";
    assert forall j :: 0 <= j < |s| - 1 ==> !PairAt(s, j, '-', '-') by {
      forall j | 0 <= j < |s| - 1 ensures !PairAt(s, j, '-', '-') {
        if j < 61 {
          assert s[j + 1] == 'a';
        } else if j == 61 {
          assert s[j] == 'a';
        } else {
          assert s[j + 1] == 'b';
        }
      }
    }
    s
  }

  /** A clean label longer than 63 characters with a dash at position 62
      comes out 64 characters long. */
  lemma LongLabelGrows(s: string)
    requires CleanLabel(s) && |s| > 63 && s[62] == '-'
    ensures |SanitizeNamespaceAsWritten(s)| == 64
  {
    CleanNamespaceFixesClean(s);
    CutKeepsDash(s);
  }

  /** The cut of such a label ends in its dash. */
  lemma CutKeepsDash(s: string)
    requires CleanLabel(s) && |s| > 63 && s[62] == '-'
    ensures var t := Cut63(s); |t| == 63 && IsLowerAlnum(t[0]) && !IsLowerAlnum(t[62])
  {
  }

  lemma NamespaceAsWrittenExceedsLabel()
    ensures |SanitizeNamespaceAsWritten(LongNamespaceInput())| == 64
  {
    LongLabelGrows(LongNamespaceInput());
  }

  /** A clean label passes the clean-up passes unchanged. */
  lemma CleanNamespaceFixesClean(s: string)
    requires CleanLabel(s)
    ensures CleanNamespace(s) == s
  {
    assert Lower(s) == s by {
      forall i | 0 <= i < |s| ensures Lower(s)[i] == s[i] {
        assert !IsUpper(s[i]);
      }
    }
  }

  /** The cut with the bound intended: a trailing `-` the cut leaves is
      replaced by `a` instead of being followed by one. */
  function CutLabel(s: string): (r: string)
    ensures |r| <= 63
    ensures |s| <= 63 ==> r == s || (|s| > 0 && s[|s| - 1] == '-')
    ensures All(s, NsChar) ==> All(r, NsChar)
    ensures !HasPair(s, '-', '-') ==> !HasPair(r, '-', '-')
    ensures |s| > 0 ==> (|r| > 0 && r[0] == s[0]) || (|s| == 1 && r == "a")
    ensures |r| > 0 ==> r[|r| - 1] != '-'
  {
    var t := Cut63(s);
    var r := if |t| > 0 && t[|t| - 1] == '-' then t[..|t| - 1] + "a" else t;
    assert !HasPair(t, '-', '-') ==> !HasPair(r, '-', '-') by {
      if !HasPair(t, '-', '-') {
        forall j | 0 <= j < |r| - 1 ensures !PairAt(r, j, '-', '-') {
          assert !PairAt(t, j, '-', '-');
        }
      }
    }
    r
  }

  /** The namespace sanitizer with the length bound the Kubernetes rule
      (an RFC 1123 DNS label, at most 63 characters) intends. */
  function SanitizeNamespace(ns: string): (r: string)
    ensures CleanLabel(r)
    ensures |r| <= 63
    ensures CleanLabel(ns) && |ns| <= 63 ==> r == ns
  {
    var s3 := CleanNamespace(ns);
    var t := CutLabel(s3);
    assert |t| > 0 ==> IsLowerAlnum(t[0]) && IsLowerAlnum(t[|t| - 1]);
    assert CleanLabel(ns) && |ns| <= 63 ==> t == ns by {
      if CleanLabel(ns) && |ns| <= 63 {
        CleanNamespaceFixesClean(ns);
      }
    }
    FixEnds(t)
  }

  /** The sanitizer as written and the corrected one disagree exactly when
      the clean-up passes leave more than 63 characters with a dash at
      position 62: only there does the cut end in a dash. */
  lemma NamespaceFixAgrees(ns: string)
    ensures SanitizeNamespaceAsWritten(ns) != SanitizeNamespace(ns)
            <==> |CleanNamespace(ns)| > 63 && CleanNamespace(ns)[62] == '-'
  {
    var s := CleanNamespace(ns);
    var t := Cut63(s);
    if |s| > 63 && s[62] == '-' {
      assert |SanitizeNamespaceAsWritten(ns)| == 64;
    } else {
      assert |t| > 0 ==> t[|t| - 1] != '-';
      assert CutLabel(s) == t;
    }
  }

  /** `createDefaultNamespace`: the sanitizer as written applied to
      `<buildId>-<revision path>`; a label body, at most 64 characters long. */
  function DefaultNamespace(buildId: string, rev: RevRef): (r: string)
    ensures CleanLabel(r) && |r| <= 64
    ensures |r| == 64 <==> var s := CleanNamespace(buildId + "-" + PathOf(rev)); |s| > 63 && s[62] == '-'
  {
    var ns := buildId + "-" + PathOf(rev);
    NamespaceFixAgrees(ns);
    SanitizeNamespaceAsWritten(ns)
  }

  /** The default namespace with the corrected sanitizer: always a DNS label. */
  function DefaultNamespaceLabel(buildId: string, rev: RevRef): (r: string)
    ensures CleanLabel(r) && |r| <= 63
    ensures r == DefaultNamespace(buildId, rev) <==> |DefaultNamespace(buildId, rev)| <= 63
  {
    var ns := buildId + "-" + PathOf(rev);
    NamespaceFixAgrees(ns);
    SanitizeNamespace(ns)
  }

  /** A clean first character is copied and ends any run. */
  lemma ReplaceRunsStep(w: string, inRun: bool)
    requires |w| > 0 && NsChar(w[0])
    ensures ReplaceRuns(w, inRun) == [w[0]] + ReplaceRuns(w[1..], false)
  {
  }

  /** A run of other characters after a clean prefix becomes one dash. */
  lemma ReplaceRunsCleanPrefix(u: string, v: string, inRun: bool)
    requires |u| > 0 && All(u, NsChar)
    ensures ReplaceRuns(u + v, inRun) == u + ReplaceRuns(v, false)
    decreases |u|
  {
    var w := u + v;
    var t := u[1..];
    var tail := ReplaceRuns(v, false);
    assert w[0] == u[0] && w[1..] == t + v;
    if |u| == 1 {
      calc {
        ReplaceRuns(w, inRun);
      == { ReplaceRunsStep(w, inRun); }
        [u[0]] + ReplaceRuns(t + v, false);
      == { assert t + v == v; }
        u + tail;
      }
    } else {
      calc {
        ReplaceRuns(w, inRun);
      == { ReplaceRunsStep(w, inRun); }
        [u[0]] + ReplaceRuns(t + v, false);
      == { TailClean(u); ReplaceRunsCleanPrefix(t, v, false); }
        [u[0]] + (t + tail);
      == { assert [u[0]] + t == u; }
        u + tail;
      }
    }
  }

  /** Dropping the first character keeps a string clean. */
  lemma TailClean(u: string)
    requires |u| > 0 && All(u, NsChar)
    ensures All(u[1..], NsChar)
  {
    forall j | 0 <= j < |u| - 1 ensures NsChar(u[1..][j]) {
      assert u[1..][j] == u[j + 1];
    }
  }

  /** The branch of the witness: 56 `a`s, a dash and two `b`s. */
  function LongBranch(): (s: string)
    ensures |s| == 59 && All(s, NsChar) && !HasPair(s, '-', '-')
    ensures s[0] == 'a' && s[56] == '-' && s[58] == 'b'
  {
    var s := seq(56, _ => 'a') + "-bb";
    assert forall j :: 0 <= j < |s| - 1 ==> !PairAt(s, j, '-', '-') by {
      forall j | 0 <= j < |s| - 1 ensures !PairAt(s, j, '-', '-') {
        if j < 55 {
          assert s[j + 1] == 'a';
        } else if j == 55 {
          assert s[j] == 'a';
        } else {
          assert s[j + 1] == 'b';
        }
      }
    }
    s
  }

  /** Lower-casing leaves lower-case letters, digits, dashes and dots alone. */
  lemma LowerKeepsDotted(u: string, v: string)
    requires All(u, NsChar) && All(v, NsChar)
    ensures Lower(u + ".." + v) == u + ".." + v
  {
    var x := u + ".." + v;
    forall i | 0 <= i < |x| ensures !IsUpper(x[i]) {
      if i < |u| {
        assert x[i] == u[i];
      } else if i >= |u| + 2 {
        assert x[i] == v[i - |u| - 2];
      }
    }
  }

  /** A clean `u` and `v` joined by `..` clean up to `u`, `-`, `v` when the
      result is itself a clean label. */
  lemma DottedCleansUp(u: string, v: string)
    requires |u| > 0 && All(u, NsChar) && All(v, NsChar)
    requires CleanLabel(u + "-" + v)
    ensures CleanNamespace(u + ".." + v) == u + "-" + v
  {
    DottedReplaced(u, v);
    CleanAfterReplace(u + ".." + v, u + "-" + v);
  }

  /** The dot run between a clean `u` and `v` becomes one dash. */
  lemma DottedReplaced(u: string, v: string)
    requires |u| > 0 && All(u, NsChar) && All(v, NsChar)
    ensures ReplaceRuns(Lower(u + ".." + v), false) == u + "-" + v
  {
    LowerKeepsDotted(u, v);
    assert (".." + v)[1..] == "." + v && ("." + v)[1..] == v;
    assert ReplaceRuns(".." + v, false) == "-" + v;
    ReplaceRunsCleanPrefix(u, ".." + v, false);
    assert u + ".." + v == u + (".." + v);
    assert u + "-" + v == u + ("-" + v);
  }

  /** When the run replacement already gives a clean label, the remaining
      clean-up passes keep it. */
  lemma CleanAfterReplace(x: string, y: string)
    requires ReplaceRuns(Lower(x), false) == y && CleanLabel(y)
    ensures CleanNamespace(x) == y
  {
    assert TrimDashes(y) == y;
  }

  /** A clean branch after the dash of `app-b-` leaves a clean label. */
  lemma PrefixedLabel(w: string)
    requires |w| > 0 && All(w, NsChar) && !HasPair(w, '-', '-') && IsLowerAlnum(w[0]) && IsLowerAlnum(w[|w| - 1])
    ensures CleanLabel("app-b-" + w)
  {
    var x := "app-b-" + w;
    forall j | 0 <= j < |x| - 1 ensures !PairAt(x, j, '-', '-') {
      if j >= 6 {
        assert x[j] == w[j - 6] && x[j + 1] == w[j - 5];
        assert !PairAt(w, j - 6, '-', '-');
      }
    }
    forall i | 0 <= i < |x| ensures NsChar(x[i]) {
      if i >= 6 {
        assert x[i] == w[i - 6];
      }
    }
  }

  /** Build `app` on branch `LongBranch()` gets a 64-character default
      namespace, one more than a DNS label allows; the corrected one has 63. */
  lemma DefaultNamespaceExceedsLabel()
    ensures |DefaultNamespace("app", RevRef(Branch, LongBranch(), None))| == 64
    ensures |DefaultNamespaceLabel("app", RevRef(Branch, LongBranch(), None))| == 63
  {
    var w := LongBranch();
    var ns := "app" + "-" + PathOf(RevRef(Branch, w, None));
    assert ns == "app-b" + ".." + w;
    PrefixedLabel(w);
    assert "app-b-" + w == "app-b" + "-" + w;
    DottedCleansUp("app-b", w);
    var s := "app-b-" + w;
    assert CleanNamespace(ns) == s;
    assert s[62] == w[56];
  }

  // ---------------------------------------------------------------- repository and cluster names

  /** `[a-z0-9-/]`, what an ECR repository name keeps. */
  predicate RepoChar(c: char) { IsLowerAlnum(c) || c == '-' || c == '/' }

  /** `genRepoName`: `<buildId>/<revision path>/<part>` lower-cased with
      every character outside `[a-z0-9-/]` removed. */
  function GenRepoName(buildId: string, rev: RevRef, part: string): (r: string)
    ensures All(r, RepoChar)
  {
    Filter(Lower(buildId + "/" + PathOf(rev) + "/" + part), RepoChar)
  }

  /** The repository name is the three cleaned parts joined by `/`; the
      `.` and `_` of the revision path are gone. */
  lemma GenRepoNameParts(buildId: string, rev: RevRef, part: string)
    ensures GenRepoName(buildId, rev, part) ==
            Filter(Lower(buildId), RepoChar) + "/" + Filter(Lower(PathOf(rev)), RepoChar) + "/" + Filter(Lower(part), RepoChar)
    ensures !('.' in Filter(Lower(PathOf(rev)), RepoChar)) && !('_' in Filter(Lower(PathOf(rev)), RepoChar))
  {
    RepoNameJoin(buildId, PathOf(rev), part);
    var f := Filter(Lower(PathOf(rev)), RepoChar);
    assert forall i :: 0 <= i < |f| ==> RepoChar(f[i]);
  }

  /** Cleaning `<b>/<p>/<part>` cleans each part and keeps the slashes. */
  lemma RepoNameJoin(b: string, p: string, part: string)
    ensures Filter(Lower(b + "/" + p + "/" + part), RepoChar) ==
            Filter(Lower(b), RepoChar) + "/" + Filter(Lower(p), RepoChar) + "/" + Filter(Lower(part), RepoChar)
  {
    assert Filter(Lower("/"), RepoChar) == "/";
    CleanAppend(b + "/" + p + "/", part, RepoChar);
    CleanAppend(b + "/" + p, "/", RepoChar);
    CleanAppend(b + "/", p, RepoChar);
    CleanAppend(b, "/", RepoChar);
  }

  /** Lower-casing then filtering distributes over concatenation. */
  lemma CleanAppend(a: string, b: string, keep: char -> bool)
    ensures Filter(Lower(a + b), keep) == Filter(Lower(a), keep) + Filter(Lower(b), keep)
  {
    assert Lower(a + b) == Lower(a) + Lower(b);
    FilterAppend(Lower(a), Lower(b), keep);
  }

  /** `[a-z0-9-]` kept by the cluster identifier. */
  predicate ClusterChar(c: char) { IsLowerAlnum(c) || c == '-' }

  /** `clusterIdentifier`: `<vpcName>-rds-<rdsId>` lower-cased with every
      character outside `[a-z0-9-]` removed. */
  function ClusterIdentifier(vpcName: string, rdsId: string): (r: string)
    ensures All(r, ClusterChar)
  {
    Filter(Lower(vpcName + "-rds-" + rdsId), ClusterChar)
  }

  /** The identifier is the cleaned VPC name, `-rds-`, and the cleaned rds id. */
  lemma ClusterIdentifierParts(vpcName: string, rdsId: string)
    ensures ClusterIdentifier(vpcName, rdsId) ==
            Filter(Lower(vpcName), ClusterChar) + "-rds-" + Filter(Lower(rdsId), ClusterChar)
  {
    assert Filter(Lower("-rds-"), ClusterChar) == "-rds-";
    CleanAppend(vpcName + "-rds-", rdsId, ClusterChar);
    CleanAppend(vpcName, "-rds-", ClusterChar);
  }

  // ---------------------------------------------------------------- provider export names

  /** `[a-zA-Z0-9:-]`, the characters of a CloudFormation export name. */
  predicate ExportChar(c: char) { IsAlnum(c) || c == ':' || c == '-' }

  /** `replace(/[^a-zA-Z0-9:-]/g, '-')`. */
  function ExportName(raw: string): (r: string)
    ensures |r| == |raw| && All(r, ExportChar)
    ensures forall i :: 0 <= i < |raw| && ExportChar(raw[i]) ==> r[i] == raw[i]
  {
    ReplaceOutside(raw, ExportChar, '-')
  }

  /** `GET_SHARE_THRU_SSM_PROVIDER_NAME`. */
  function ShareProviderName(buildId: string, region: string, account: string): (r: string)
    ensures All(r, ExportChar)
    ensures EndsWith(r, ":share-thru-ssm-provider")
  {
    var raw := "odmd-ctl-" + buildId + "-" + region + "-" + account + ":share-thru-ssm-provider";
    var r := ExportName(raw);
    assert r[|r| - 24..] == ":share-thru-ssm-provider" by {
      forall i | |r| - 24 <= i < |r| ensures r[i] == raw[i] {
        assert ExportChar(raw[i]);
      }
    }
    r
  }

  /** `GET_PG_USR_ROLE_PROVIDER_NAME`: the `_` of the fixed suffix becomes `-`. */
  function PgUserRoleProviderName(buildId: string, region: string, account: string, ipamRefToken: string): (r: string)
    ensures All(r, ExportChar)
    ensures EndsWith(r, ":pg-usr-role-provider")
  {
    var raw := "odmd-ctl-" + buildId + "-" + region + "-" + account + "-" + ipamRefToken + ":pg_usr_role-provider";
    var r := ExportName(raw);
    assert r[|r| - 21..] == ":pg-usr-role-provider" by {
      forall i | |r| - 21 <= i < |r| ensures r[i] == (if raw[i] == '_' then '-' else raw[i]) {
      }
    }
    r
  }

  /** `GET_EKS_MANIFEST_ROLE_PROVIDER_NAME`. */
  function EksManifestProviderName(buildId: string, region: string, account: string, clusterRev: RevRef): (r: string)
    ensures All(r, ExportChar)
  {
    ExportName("odmd-ctl-" + buildId + "-" + region + "-" + account + "-" + PathOf(clusterRev) + ":eks_manifest_role-provider")
  }

  // ---------------------------------------------------------------- OdmdNames

  /** Moves leading digits to the end until the first character is not a
      digit; `None` when every character is a digit, where the source loops
      forever. */
  function RotateLeadingDigits(h: string): (r: Option<string>)
    ensures r.Some? ==> |r.value| == |h|
    ensures r.Some? && |h| > 0 ==> !IsDigit(r.value[0])
    ensures r.None? <==> |h| > 0 && All(h, IsDigit)
    ensures r.Some? ==> forall i :: 0 <= i < |r.value| ==> r.value[i] in h
    ensures r.Some? && |h| > 0 ==>
              exists k | 0 <= k < |h| :: && (forall j | 0 <= j < k :: IsDigit(h[j])) && !IsDigit(h[k])
                                         && r.value == h[k..] + h[..k]
  {
    match FirstNonDigit(h, 0)
    case None => if |h| == 0 then Some(h) else None
    case Some(k) => Some(h[k..] + h[..k])
  }

  function FirstNonDigit(h: string, from: nat): (r: Option<nat>)
    requires from <= |h|
    ensures r.Some? ==> from <= r.value < |h| && !IsDigit(h[r.value])
    ensures r.Some? ==> forall j :: from <= j < r.value ==> IsDigit(h[j])
    ensures r.None? ==> forall j :: from <= j < |h| ==> IsDigit(h[j])
    decreases |h| - from
  {
    if from == |h| then None
    else if !IsDigit(h[from]) then Some(from)
    else FirstNonDigit(h, from + 1)
  }

  /** One pass of the rotation loop: the first character moves to the end. */
  function RotateOnce(h: string): (r: string)
    requires |h| > 0
    ensures |r| == |h| && r[|r| - 1] == h[0]
  {
    h[1..] + [h[0]]
  }

  /** `n` passes of the rotation loop. */
  function RotateTimes(h: string, n: nat): (r: string)
    requires |h| > 0
    ensures |r| == |h|
  {
    if n == 0 then h else RotateOnce(RotateTimes(h, n - 1))
  }

  /** `n` passes move the first `n` characters, in order, to the end. */
  lemma {:induction false} RotateTimesSplits(h: string, n: nat)
    requires 0 < |h| && n <= |h|
    ensures RotateTimes(h, n) == h[n..] + h[..n]
  {
    if n > 0 {
      RotateTimesSplits(h, n - 1);
      var p := h[n - 1..] + h[..n - 1];
      assert p[0] == h[n - 1];
      assert p[1..] == h[n..] + h[..n - 1];
      assert h[..n] == h[..n - 1] + [h[n - 1]];
    }
  }

  /** The closed form is what the source loop computes: it runs once per
      leading digit, seeing a digit in front each time, and stops at the
      first non-digit. */
  lemma RotationRunsTheLoop(h: string, k: nat)
    requires |h| > 0 && FirstNonDigit(h, 0) == Some(k)
    ensures RotateLeadingDigits(h) == Some(RotateTimes(h, k))
    ensures forall j | 0 <= j < k :: IsDigit(RotateTimes(h, j)[0])
    ensures !IsDigit(RotateTimes(h, k)[0])
  {
    RotateTimesSplits(h, k);
    forall j | 0 <= j < k ensures IsDigit(RotateTimes(h, j)[0]) {
      RotateTimesSplits(h, j);
    }
  }

  /** JavaScript `substring(0, n)`: negative bounds read as 0. */
  function Prefix(s: string, n: int): (r: string)
    ensures |r| <= |s| && (n >= 0 ==> |r| <= n) && (n < 0 ==> r == "")
    ensures StartsWith(s, r)
  {
    if n <= 0 then "" else if n >= |s| then s else s[..n]
  }

  /** `[A-Za-z0-9]` plus the `allowed` characters. */
  function KeepFor(allowed: string): char -> bool {
    c => IsAlnum(c) || c in allowed
  }

  /** `OdmdNames.generate`: the construct path's ids joined by `separator`
      plus `varName`, with the characters outside `[A-Za-z0-9<allowed>]`
      stripped; when that is longer than `maxLength`, the first `maxLength`
      characters of the (digit-rotated) md5 hex digest of the unstripped path. */
  function Generate(scopeIds: seq<string>, separator: string, allowed: string, varName: string,
                    maxLength: int, md5: string -> string): (r: Result<string, Error>)
    ensures r.Ok? ==> |r.value| <= (if maxLength < 0 then 0 else maxLength)
    ensures var raw := Join(scopeIds, separator) + varName;
            var stripped := Filter(raw, KeepFor(allowed));
            && (|stripped| <= maxLength ==> r == Ok(stripped))
            && (|stripped| > maxLength && r.Ok? ==> |r.value| > 0 ==> !IsDigit(r.value[0]))
            && (|stripped| > maxLength && r.Ok? ==> RotateLeadingDigits(md5(raw)).Some?
                                                    && r.value == Prefix(RotateLeadingDigits(md5(raw)).value, maxLength))
            && (r.Err? <==> |stripped| > maxLength && |md5(raw)| > 0 && All(md5(raw), IsDigit))
  {
    var raw := Join(scopeIds, separator) + varName;
    var stripped := Filter(raw, KeepFor(allowed));
    if |stripped| > maxLength then
      match RotateLeadingDigits(md5(raw))
      case None => Err(HashAllDigits)
      case Some(h) => Ok(Prefix(h, maxLength))
    else Ok(stripped)
  }

  /** `OdmdNames.create(construct, varName, max)`: no separator, no extra characters. */
  function CreateName(scopeIds: seq<string>, varName: string, max: int, md5: string -> string): (r: Result<string, Error>)
    ensures r.Ok? ==> |r.value| <= (if max < 0 then 0 else max)
    ensures r.Ok? && All(md5(Join(scopeIds, "") + varName), IsAlnum) ==> All(r.value, IsAlnum)
  {
    var r := Generate(scopeIds, "", "", varName, max, md5);
    assert r.Ok? && All(md5(Join(scopeIds, "") + varName), IsAlnum) ==> All(r.value, IsAlnum) by {
      var raw := Join(scopeIds, "") + varName;
      if r.Ok? && All(md5(raw), IsAlnum) && |Filter(raw, KeepFor(""))| > max {
        var h := RotateLeadingDigits(md5(raw)).value;
        assert StartsWith(h, r.value);
        forall i | 0 <= i < |r.value| ensures IsAlnum(r.value[i]) {
          assert r.value[i] == h[i];
          assert h[i] in md5(raw);
        }
      }
    }
    r
  }

  /** The default cap of `OdmdNames.create`. */
  const DefaultNameCap: int := 63
}
