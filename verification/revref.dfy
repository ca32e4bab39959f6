/** Revision identity: `SRC_Rev_REF` and its canonical path.

    A revision is a branch (`b`) or a tag (`t`) with a value, optionally
    derived from one origin revision. Its canonical path
    `(<origin path>-_)?<type>..<value>` is the identity of an environment,
    and the selector an operator types to pick (or derive) one. */
module RevRefs {
  import opened Wrappers
  import opened Errors
  import opened Strings

  datatype RevType = Branch | Tag

  function TypeChar(k: RevType): char {
    if k == Branch then 'b' else 't'
  }

  datatype RevRef = RevRef(kind: RevType, value: string, origin: Option<RevRef>)

  /** `[a-zA-Z0-9_.-]`, the characters a revision value may use. */
  predicate ValueChar(c: char) {
    IsAlnum(c) || c == '_' || c == '.' || c == '-'
  }

  /** Charset and reserved separators: `..` splits type from value and
      `-_` splits origin from child; `_-` is reserved as well. */
  predicate ValidValue(v: string) {
    && |v| > 0
    && All(v, ValueChar)
    && !HasPair(v, '.', '.')
    && !HasPair(v, '_', '-')
    && !HasPair(v, '-', '_')
  }

  /** A leading `v` or `V` is reserved for tags. */
  predicate BranchPrefixOk(kind: RevType, v: string) {
    kind == Branch && |v| > 0 ==> v[0] != 'v' && v[0] != 'V'
  }

  /** Everything the constructor enforces, for the revision and its origin. */
  predicate ValidRef(r: RevRef)
    decreases r
  {
    && ValidValue(r.value)
    && BranchPrefixOk(r.kind, r.value)
    && match r.origin
       case None => true
       case Some(o) => o.origin.None? && ValidRef(o) && (o.kind != r.kind || o.value != r.value)
  }

  /** The constructor's checks in source order, with an extra list of banned
      substrings (the account ids of the contracts-library variant; empty for
      the base class). */
  function Construct(kind: RevType, value: string, origin: Option<RevRef>, banned: seq<string>): (r: Result<RevRef, Error>)
  {
    if !(|value| > 0 && All(value, ValueChar)) then Err(RevValueCharset)
    else if HasPair(value, '.', '.') then Err(RevValueDotDot)
    else if HasPair(value, '_', '-') then Err(RevValueUnderDash)
    else if HasPair(value, '-', '_') then Err(RevValueDashUnder)
    else if kind == Branch && LowerChar(value[0]) == 'v' then Err(BranchStartsWithV)
    else if exists k | 0 <= k < |banned| :: Contains(value, banned[k]) then Err(RevValueHasAccount)
    else if origin.Some? && origin.value.origin.Some? then Err(OriginHasOrigin)
    else if origin.Some? && origin.value.kind == kind && origin.value.value == value then Err(SameAsOrigin)
    else Ok(RevRef(kind, value, origin))
  }

  /** `new SRC_Rev_REF(type, value, origin)` of the base model. An origin is
      itself a constructed reference, so it is valid whenever it is given. */
  function NewRevRef(kind: RevType, value: string, origin: Option<RevRef>): (r: Result<RevRef, Error>)
    ensures r.Ok? ==> r.value == RevRef(kind, value, origin)
    ensures origin.None? || ValidRef(origin.value) ==>
              (r.Ok? <==> ValidRef(RevRef(kind, value, origin)))
    ensures r == Err(BranchStartsWithV) ==> kind == Branch && |value| > 0 && value[0] in {'v', 'V'}
    ensures r == Err(OriginHasOrigin) ==> origin.Some? && origin.value.origin.Some?
  {
    Construct(kind, value, origin, [])
  }

  /** The contracts-library `SRC_Rev_REF`: the same rules, and additionally no
      value may contain any of the platform's account ids. */
  function NewContractsRevRef(kind: RevType, value: string, origin: Option<RevRef>, allAccounts: seq<string>): (r: Result<RevRef, Error>)
    ensures r.Ok? <==> NewRevRef(kind, value, origin).Ok? && forall k | 0 <= k < |allAccounts| :: !Contains(value, allAccounts[k])
    ensures r.Ok? ==> r == NewRevRef(kind, value, origin)
    ensures r == Err(RevValueHasAccount) ==> exists k | 0 <= k < |allAccounts| :: Contains(value, allAccounts[k])
  {
    Construct(kind, value, origin, allAccounts)
  }

  /** `<type>..<value>`, the path of one revision without its origin. */
  function SinglePath(kind: RevType, value: string): string {
    [TypeChar(kind)] + ".." + value
  }

  /** `toPathPartStr`: the origin's path and `-_` (only when there is an
      origin), then `<type>..<value>`. */
  function PathOf(r: RevRef): string
    decreases r
  {
    match r.origin
    case None => SinglePath(r.kind, r.value)
    case Some(o) => PathOf(o) + "-_" + SinglePath(r.kind, r.value)
  }

  /** Reads one `<type>..<value>` segment back, through the constructor. */
  function ParseSingle(s: string, origin: Option<RevRef>): Result<RevRef, Error> {
    if |s| < 3 || s[1] != '.' || s[2] != '.' || (s[0] != 'b' && s[0] != 't') then Err(MalformedRevPath)
    else NewRevRef(if s[0] == 'b' then Branch else Tag, s[3..], origin)
  }

  /** Reads a canonical path back: the first `-_` separates origin and child. */
  function ParsePath(s: string): Result<RevRef, Error> {
    match FindPair(s, '-', '_')
    case None => ParseSingle(s, None)
    case Some(i) =>
      var o :- ParseSingle(s[..i], None);
      ParseSingle(s[i + 2..], Some(o))
  }

  lemma SinglePathHasNoSeparator(kind: RevType, v: string)
    requires !HasPair(v, '-', '_')
    ensures !HasPair(SinglePath(kind, v), '-', '_')
  {
    var p := SinglePath(kind, v);
    forall j | 0 <= j < |p| - 1
      ensures !PairAt(p, j, '-', '_')
    {
      if j >= 3 {
        assert p[j] == v[j - 3] && p[j + 1] == v[j - 2];
        assert !PairAt(v, j - 3, '-', '_');
      }
    }
  }

  /** In a valid derived revision the first `-_` is exactly where the
      origin's path ends. */
  lemma FirstSeparatorEndsOrigin(r: RevRef)
    requires ValidRef(r) && r.origin.Some?
    ensures FindPair(PathOf(r), '-', '_') == Some(|PathOf(r.origin.value)|)
  {
    var o := r.origin.value;
    var po := PathOf(o);
    var own := SinglePath(r.kind, r.value);
    var p := PathOf(r);
    assert p == po + "-_" + own;
    SinglePathHasNoSeparator(o.kind, o.value);
    assert PairAt(p, |po|, '-', '_');
    forall j | 0 <= j < |po|
      ensures !PairAt(p, j, '-', '_')
    {
      if j < |po| - 1 {
        assert p[j] == po[j] && p[j + 1] == po[j + 1];
        assert !PairAt(po, j, '-', '_');
      } else {
        assert p[j + 1] == '-';
      }
    }
  }

  lemma ParseSingleRoundTrip(kind: RevType, v: string, origin: Option<RevRef>)
    ensures ParseSingle(SinglePath(kind, v), origin) == NewRevRef(kind, v, origin)
  {
    var s := SinglePath(kind, v);
    assert s[3..] == v;
  }

  /** Decoding the canonical path of a valid revision gives it back. */
  lemma {:induction false} ParsePathRoundTrip(r: RevRef)
    requires ValidRef(r)
    ensures ParsePath(PathOf(r)) == Ok(r)
  {
    var p := PathOf(r);
    match r.origin
    case None =>
      SinglePathHasNoSeparator(r.kind, r.value);
      FindPairNone(p, '-', '_');
      ParseSingleRoundTrip(r.kind, r.value, None);
    case Some(o) =>
      var po := PathOf(o);
      var own := SinglePath(r.kind, r.value);
      FirstSeparatorEndsOrigin(r);
      assert p[..|po|] == po;
      assert p[|po| + 2..] == own;
      ParseSingleRoundTrip(o.kind, o.value, None);
      assert ParseSingle(po, None) == Ok(o);
      ParseSingleRoundTrip(r.kind, r.value, Some(o));
  }

  /** Distinct valid revisions never share a canonical path. */
  lemma PathInjective(r1: RevRef, r2: RevRef)
    requires ValidRef(r1) && ValidRef(r2)
    ensures PathOf(r1) == PathOf(r2) <==> r1 == r2
  {
    if PathOf(r1) == PathOf(r2) {
      ParsePathRoundTrip(r1);
      ParsePathRoundTrip(r2);
    }
  }

  /** Whatever the decoder accepts is a valid revision whose path is the input. */
  lemma ParsePathSound(s: string)
    requires ParsePath(s).Ok?
    ensures ValidRef(ParsePath(s).value)
    ensures PathOf(ParsePath(s).value) == s
  {
    var r := ParsePath(s).value;
    match FindPair(s, '-', '_')
    case None =>
      assert s == SinglePath(r.kind, r.value);
    case Some(i) =>
      var o := ParseSingle(s[..i], None).value;
      assert s[..i] == SinglePath(o.kind, o.value);
      assert s[i + 2..] == SinglePath(r.kind, r.value);
      assert s == s[..i] + "-_" + s[i + 2..];
  }

  /** A path with no `-_` in it belongs to a revision without origin. */
  lemma OriginPathHasSeparator(r: RevRef)
    requires ValidRef(r) && r.origin.Some?
    ensures HasPair(PathOf(r), '-', '_')
  {
    FirstSeparatorEndsOrigin(r);
  }
}
