/** Dynamic environments: a build constructed for the selected build id
    with a selector `<origin path>-_<type>..<value>` derives a new
    environment from its origin environment. */
module Derive {
  import opened Wrappers
  import opened Errors
  import opened Strings
  import opened RevRefs
  import opened Graph

  /** Every environment's revision went through the constructor. */
  predicate RevsValid(g: Contracts) {
    forall e | 0 <= e < |g.envers| :: ValidRef(g.envers[e].rev)
  }

  /** A fresh instance of the same class: list-valued fields start empty. */
  function FreshKind(k: EnverKind): (r: EnverKind)
    ensures r.UserAuthEnver? <==> k.UserAuthEnver?
    ensures NoUrlsYet(r)
    ensures !k.UserAuthEnver? ==> r == k
  {
    if k.UserAuthEnver? then UserAuthEnver([], []) else k
  }

  /** Whether the class of environment `e` takes the base constructor's
      `(owner, account, region, revision)` arguments. The networking
      build's environment class `IPAM_WEST1_LE` takes `(owner, revision)`,
      so a replayed construction passes the account string where the
      revision belongs and the base constructor's call to
      `targetRevision.toPathPartStr()` throws. */
  predicate StandardCtor(g: Contracts, e: nat)
    requires WellFormed(g) && e < |g.envers|
  {
    g.builds[g.envers[e].build].kind != NetworkingBuild
  }

  /** `generateDynamicEnver(rev)`: a new instance of the same class, owner,
      account and region for `rev`, whose origin must be this environment's
      revision. The instance is constructed before the origin is compared,
      so a class with a different constructor fails first. */
  function GenerateDynamicEnver(g: Contracts, e: nat, rev: RevRef): (r: Result<Enver, Error>)
    requires WellFormed(g) && e < |g.envers|
    ensures r.Ok? <==> StandardCtor(g, e) && rev.origin == Some(g.envers[e].rev)
    ensures r == Err(DerivedCtorArity) <==> !StandardCtor(g, e)
    ensures r.Err? ==> r.error == DerivedCtorArity || r.error == DerivedOriginMismatch
    ensures r.Ok? ==> var en := g.envers[e];
                      && r.value.rev == rev && r.value.build == en.build
                      && r.value.account == en.account && r.value.region == en.region
                      && r.value.ephemeral == en.ephemeral && r.value.kind == FreshKind(en.kind)
  {
    var en := g.envers[e];
    var nw := Enver(en.build, en.account, en.region, rev, FreshKind(en.kind), en.ephemeral);
    if !StandardCtor(g, e) then Err(DerivedCtorArity)
    else if rev.origin != Some(en.rev) then Err(DerivedOriginMismatch)
    else Ok(nw)
  }

  /** The part of a selector before its first `-_`. */
  function SelectorLeft(sel: string): string
    requires HasPair(sel, '-', '_')
  {
    FindPairNone(sel, '-', '_');
    sel[..FindPair(sel, '-', '_').value]
  }

  /** The part of a selector after its first `-_`. */
  function SelectorRight(sel: string): string
    requires HasPair(sel, '-', '_')
  {
    FindPairNone(sel, '-', '_');
    sel[FindPair(sel, '-', '_').value + 2..]
  }

  /** The revision type a selector's right part names: `b..` is a branch,
      anything else a tag. */
  function SelectorKind(right: string): RevType {
    if StartsWith(right, "b..") then Branch else Tag
  }

  /** `right.substring(3)`. */
  function SelectorValue(right: string): string {
    if |right| >= 3 then right[3..] else ""
  }

  /** `genDynamicEnvers(selector)`: finds the environment whose revision path
      is the left part, builds the revision the right part names with that
      environment's revision as origin, derives and appends the new
      environment. */
  function GenDynamicEnvers(g: Contracts, b: nat, sel: string): (r: Result<(Contracts, nat), Error>)
    requires WellFormed(g) && b < |g.builds|
    requires HasPair(sel, '-', '_')
    ensures r.Ok? ==> WellFormed(r.value.0) && r.value.1 == |g.envers| && |r.value.0.envers| == |g.envers| + 1
    ensures r.Ok? ==> |r.value.0.builds| == |g.builds| && r.value.0.builds[b].envers == g.builds[b].envers + [r.value.1]
    ensures r.Ok? ==> var nw := r.value.0.envers[r.value.1];
                      && nw.build == b
                      && nw.rev == RevRef(SelectorKind(SelectorRight(sel)), SelectorValue(SelectorRight(sel)), nw.rev.origin)
                      && nw.rev.origin.Some? && PathOf(nw.rev.origin.value) == SelectorLeft(sel)
                      && |nw.rev.value| > 0
    ensures r == Err(NoEnverForSelector) <==>
              forall j | 0 <= j < |g.builds[b].envers| :: PathOf(g.envers[g.builds[b].envers[j]].rev) != SelectorLeft(sel)
    ensures g.builds[b].kind == NetworkingBuild ==> r.Err?
    ensures r.Ok? ==> r.value.0.envers[..|g.envers|] == g.envers && r.value.0.registry == g.registry
                      && r.value.0.producers == g.producers && r.value.0.consumers == g.consumers
                      && r.value.0.contractsLib == g.contractsLib && r.value.0.rootId == g.rootId
    ensures r.Ok? ==> forall b' | 0 <= b' < |g.builds| :: r.value.0.builds[b'].id == g.builds[b'].id && r.value.0.builds[b'].kind == g.builds[b'].kind
  {
    var left := SelectorLeft(sel);
    match FindEnverByPath(g, g.builds[b].envers, left, 0)
    case None => Err(NoEnverForSelector)
    case Some(org) =>
      assert g.envers[org].build == b;
      DeriveFrom(g, b, org, SelectorRight(sel))
  }

  /** The second half of `genDynamicEnvers`, once the origin environment is
      found: the revision the right part names, with the origin's revision
      as origin, derived from the origin environment and appended. */
  function DeriveFrom(g: Contracts, b: nat, org: nat, right: string): (r: Result<(Contracts, nat), Error>)
    requires WellFormed(g) && b < |g.builds| && org < |g.envers|
    ensures r.Err? ==> r.error != NoEnverForSelector && r.error != DerivedOriginMismatch
    ensures r == Err(OriginHasOrigin) ==> g.envers[org].rev.origin.Some?
    ensures r.Ok? <==> NewRevRef(SelectorKind(right), SelectorValue(right), Some(g.envers[org].rev)).Ok?
                       && StandardCtor(g, org)
    ensures r.Ok? ==> WellFormed(r.value.0) && r.value.1 == |g.envers| && |r.value.0.envers| == |g.envers| + 1
    ensures r.Ok? ==> r.value.0.envers[..|g.envers|] == g.envers
    ensures r.Ok? ==> var nw := r.value.0.envers[r.value.1];
                      && nw.build == b
                      && nw.rev == RevRef(SelectorKind(right), SelectorValue(right), Some(g.envers[org].rev))
                      && |nw.rev.value| > 0
    ensures r.Ok? ==> |r.value.0.builds| == |g.builds| && r.value.0.builds[b].envers == g.builds[b].envers + [r.value.1]
    ensures r.Ok? ==> r.value.0.registry == g.registry
                      && r.value.0.producers == g.producers && r.value.0.consumers == g.consumers
                      && r.value.0.contractsLib == g.contractsLib && r.value.0.rootId == g.rootId
    ensures r.Ok? ==> forall b' | 0 <= b' < |g.builds| :: r.value.0.builds[b'].id == g.builds[b'].id && r.value.0.builds[b'].kind == g.builds[b'].kind
  {
    var rev :- NewRevRef(SelectorKind(right), SelectorValue(right), Some(g.envers[org].rev));
    // the origin check of `generateDynamicEnver` holds by construction here
    var en :- GenerateDynamicEnver(g, org, rev);
    var (g', e) := AddEnver(g, b, en.account, en.region, en.rev, en.kind, en.ephemeral);
    Ok((g', e))
  }

  /** The environment a selector names as origin has no origin itself: its
      path is the part before the first `-_`, which contains no `-_`. */
  lemma SelectorOriginIsRoot(g: Contracts, b: nat, sel: string, e: nat)
    requires WellFormed(g) && RevsValid(g) && b < |g.builds| && HasPair(sel, '-', '_')
    requires e < |g.envers| && PathOf(g.envers[e].rev) == SelectorLeft(sel)
    ensures g.envers[e].rev.origin.None?
  {
    var left := SelectorLeft(sel);
    var i := FindPair(sel, '-', '_').value;
    if g.envers[e].rev.origin.Some? {
      OriginPathHasSeparator(g.envers[e].rev);
      var j :| 0 <= j < |left| - 1 && PairAt(left, j, '-', '_');
      assert PairAt(sel, j, '-', '_');
    }
  }

  /** Derivation never trips the origin checks: the origin found is a root
      revision, and the derived revision's origin is exactly its revision. */
  lemma DerivationKeepsOriginChecks(g: Contracts, b: nat, sel: string)
    requires WellFormed(g) && RevsValid(g) && b < |g.builds| && HasPair(sel, '-', '_')
    ensures GenDynamicEnvers(g, b, sel).Err? ==>
              GenDynamicEnvers(g, b, sel).error != OriginHasOrigin
              && GenDynamicEnvers(g, b, sel).error != DerivedOriginMismatch
  {
    var left := SelectorLeft(sel);
    var f := FindEnverByPath(g, g.builds[b].envers, left, 0);
    if f.Some? {
      SelectorOriginIsRoot(g, b, sel, f.value);
    }
  }

  /** Derivation keeps every environment revision valid. */
  lemma DerivationKeepsRevsValid(g: Contracts, b: nat, sel: string)
    requires WellFormed(g) && RevsValid(g) && b < |g.builds| && HasPair(sel, '-', '_')
    requires GenDynamicEnvers(g, b, sel).Ok?
    ensures RevsValid(GenDynamicEnvers(g, b, sel).value.0)
  {
    var left := SelectorLeft(sel);
    var org := FindEnverByPath(g, g.builds[b].envers, left, 0).value;
    var g' := GenDynamicEnvers(g, b, sel).value.0;
    var nw := g'.envers[|g.envers|];
    assert nw.rev.origin == Some(g.envers[org].rev);
    forall e | 0 <= e < |g'.envers| ensures ValidRef(g'.envers[e].rev) {
      if e < |g.envers| {
        assert g'.envers[e] == g.envers[e];
      }
    }
  }

  /** The canonical path of a valid derived revision, used as selector in a
      build holding its origin, derives exactly that revision, unless the
      build is the networking build, whose environment class cannot be
      constructed again. */
  lemma DeriveFromOwnPath(g: Contracts, b: nat, r: RevRef, org: nat)
    requires WellFormed(g) && b < |g.builds|
    requires ValidRef(r) && r.origin.Some?
    requires org in g.builds[b].envers && g.envers[org].rev == r.origin.value
    requires DistinctEnverPaths(g, b)
    ensures HasPair(PathOf(r), '-', '_')
    ensures GenDynamicEnvers(g, b, PathOf(r)).Ok? <==> g.builds[b].kind != NetworkingBuild
    ensures GenDynamicEnvers(g, b, PathOf(r)).Ok? ==> GenDynamicEnvers(g, b, PathOf(r)).value.0.envers[|g.envers|].rev == r
  {
    var o := r.origin.value;
    OwnPathParts(r);
    var k :| 0 <= k < |g.builds[b].envers| && g.builds[b].envers[k] == org;
    FindEnverFirst(g, g.builds[b].envers, PathOf(o), 0, k);
    assert NewRevRef(r.kind, r.value, Some(o)) == Ok(r);
  }

  /** A derived revision's path splits, at its first `-_`, into its origin's
      path and a right part naming its own kind and value. */
  lemma OwnPathParts(r: RevRef)
    requires ValidRef(r) && r.origin.Some?
    ensures HasPair(PathOf(r), '-', '_')
    ensures SelectorLeft(PathOf(r)) == PathOf(r.origin.value)
    ensures SelectorKind(SelectorRight(PathOf(r))) == r.kind
    ensures SelectorValue(SelectorRight(PathOf(r))) == r.value
  {
    var s := PathOf(r);
    FirstSeparatorEndsOrigin(r);
    OriginPathHasSeparator(r);
    var own := SinglePath(r.kind, r.value);
    assert SelectorRight(s) == own;
    assert own[..3] == [TypeChar(r.kind)] + "..";
    assert own[0] == TypeChar(r.kind);
    assert StartsWith(own, "b..") <==> r.kind == Branch;
    assert SelectorValue(own) == r.value;
  }

  /** A selector whose right part starts with neither `b..` nor `t..` still
      derives a tag: the first three characters are dropped unread, so the
      derived environment's path differs from the selector. */
  lemma DerivedPathMatchesSelector(g: Contracts, b: nat, sel: string)
    requires WellFormed(g) && b < |g.builds| && HasPair(sel, '-', '_')
    requires GenDynamicEnvers(g, b, sel).Ok?
    ensures var nw := GenDynamicEnvers(g, b, sel).value.0.envers[|g.envers|];
            PathOf(nw.rev) == sel <==>
              StartsWith(SelectorRight(sel), "b..") || StartsWith(SelectorRight(sel), "t..")
  {
    var nw := GenDynamicEnvers(g, b, sel).value.0.envers[|g.envers|];
    SelectorSplits(sel);
    RebuildIff(SelectorLeft(sel), SelectorRight(sel));
  }

  /** A selector is its left part, `-_`, and its right part. */
  lemma SelectorSplits(sel: string)
    requires HasPair(sel, '-', '_')
    ensures sel == SelectorLeft(sel) + "-_" + SelectorRight(sel)
  {
    var i := FindPair(sel, '-', '_').value;
    FindPairNone(sel, '-', '_');
  }

  /** Re-spelling the right part of a selector from the kind and value it
      names gives the selector back exactly when it starts with `b..` or `t..`. */
  lemma RebuildIff(left: string, right: string)
    requires |right| >= 3
    ensures left + "-_" + SinglePath(SelectorKind(right), right[3..]) == left + "-_" + right
            <==> StartsWith(right, "b..") || StartsWith(right, "t..")
  {
    var own := SinglePath(SelectorKind(right), right[3..]);
    assert own == [TypeChar(SelectorKind(right))] + ".." + right[3..];
    var p := left + "-_";
    assert (p + own)[|p|..] == own && (p + right)[|p|..] == right;
    if p + own == p + right {
      assert own == right;
      assert right[..3] == [TypeChar(SelectorKind(right))] + "..";
    } else {
      if StartsWith(right, "b..") || StartsWith(right, "t..") {
        assert right == right[..3] + right[3..];
      }
    }
  }

  /** An initial environment of a build, as its `initializeEnvers` makes it. */
  datatype EnverSpec = EnverSpec(account: string, region: string, rev: RevRef, kind: EnverKind, ephemeral: bool)

  /** The `n` consecutive environment indices starting at `from`. */
  function Indices(from: nat, n: nat): seq<nat> {
    seq(n, i => from + i)
  }

  /** The environment a spec describes, in build `b`. */
  function SpecEnver(b: nat, s: EnverSpec): Enver {
    Enver(b, s.account, s.region, s.rev, s.kind, s.ephemeral)
  }

  /** The environments the specs describe, in order. */
  function SpecEnvers(b: nat, specs: seq<EnverSpec>): seq<Enver> {
    seq(|specs|, i requires 0 <= i < |specs| => SpecEnver(b, specs[i]))
  }

  /** Appends the initial environments in order, as the build's
      `initializeEnvers` pushes them one by one. */
  function AddEnvers(g: Contracts, b: nat, specs: seq<EnverSpec>): (r: Contracts)
    requires WellFormed(g) && b < |g.builds|
    requires forall i | 0 <= i < |specs| :: NoUrlsYet(specs[i].kind)
    ensures WellFormed(r) && |r.builds| == |g.builds| && |r.envers| == |g.envers| + |specs|
    ensures r.builds[b].envers == g.builds[b].envers + Indices(|g.envers|, |specs|)
    ensures r.envers == g.envers + SpecEnvers(b, specs)
    ensures r.registry == g.registry && r.producers == g.producers && r.consumers == g.consumers
    ensures forall b' | 0 <= b' < |g.builds| :: r.builds[b'].id == g.builds[b'].id && r.builds[b'].kind == g.builds[b'].kind
    ensures forall b' | 0 <= b' < |g.builds| && b' != b :: r.builds[b'] == g.builds[b']
    ensures r.contractsLib == g.contractsLib && r.rootId == g.rootId
  {
    var bl := g.builds[b];
    var r := g.(envers := g.envers + SpecEnvers(b, specs),
                builds := g.builds[b := bl.(envers := bl.envers + Indices(|g.envers|, |specs|))]);
    AddEnversWellFormed(g, b, specs, r);
    r
  }

  /** Appending the specified environments to build `b` keeps the arena
      well formed. */
  lemma AddEnversWellFormed(g: Contracts, b: nat, specs: seq<EnverSpec>, r: Contracts)
    requires WellFormed(g) && b < |g.builds|
    requires forall i | 0 <= i < |specs| :: NoUrlsYet(specs[i].kind)
    requires r == g.(envers := g.envers + SpecEnvers(b, specs),
                     builds := g.builds[b := g.builds[b].(envers := g.builds[b].envers + Indices(|g.envers|, |specs|))])
    ensures WellFormed(r)
  {
    forall b', i | 0 <= b' < |r.builds| && 0 <= i < |r.builds[b'].envers|
      ensures r.builds[b'].envers[i] < |r.envers| && r.envers[r.builds[b'].envers[i]].build == b'
    {
      if b' == b && i >= |g.builds[b].envers| {
        var k := i - |g.builds[b].envers|;
        assert r.builds[b'].envers[i] == |g.envers| + k;
        assert r.envers[|g.envers| + k] == SpecEnver(b, specs[k]);
      } else {
        assert r.builds[b'].envers[i] == g.builds[b'].envers[i];
        assert r.envers[g.builds[b'].envers[i]] == g.envers[g.builds[b'].envers[i]];
      }
    }
    forall e | 0 <= e < |r.envers| ensures EnverOk(r, r.envers[e]) {
      if e < |g.envers| {
        assert r.envers[e] == g.envers[e] && EnverOk(g, g.envers[e]);
      } else {
        assert r.envers[e] == SpecEnver(b, specs[e - |g.envers|]);
      }
    }
  }

  /** The build registered with its initial environments, before any derivation. */
  function InitialBuild(g: Contracts, id: string, kind: BuildKind, specs: seq<EnverSpec>): (r: (Contracts, nat))
    requires WellFormed(g)
    requires forall i | 0 <= i < |specs| :: NoUrlsYet(specs[i].kind)
    ensures WellFormed(r.0) && r.1 == |g.builds| && |r.0.builds| == |g.builds| + 1
    ensures r.0.registry == g.registry + [r.1]
    ensures r.0.builds[r.1].id == id && r.0.builds[r.1].kind == kind
    ensures |r.0.envers| == |g.envers| + |specs| && r.0.envers[..|g.envers|] == g.envers
    ensures r.0.builds[r.1].envers == Indices(|g.envers|, |specs|)
    ensures r.0.envers == g.envers + SpecEnvers(r.1, specs)
    ensures r.0.producers == g.producers && r.0.consumers == g.consumers
    ensures r.0.contractsLib == g.contractsLib && r.0.rootId == g.rootId
    ensures forall b' | 0 <= b' < |g.builds| :: r.0.builds[b'].id == g.builds[b'].id && r.0.builds[b'].kind == g.builds[b'].kind
  {
    var (g1, b) := AddBuild(g, id, kind);
    (AddEnvers(g1, b, specs), b)
  }

  /** `new OdmdBuild(contracts, id, repo)`: registers the build, creates its
      initial environments and, when this is the build the environment
      selects (`ODMD_build_id` equals its id, `ODMD_rev_ref` is set and
      contains `-_`), derives the selected environment. */
  function NewOdmdBuild(g: Contracts, id: string, kind: BuildKind, specs: seq<EnverSpec>,
                        buildIdEnv: Option<string>, revRefEnv: Option<string>): (r: Result<(Contracts, nat), Error>)
    requires WellFormed(g)
    requires forall i | 0 <= i < |specs| :: NoUrlsYet(specs[i].kind)
    ensures r.Ok? ==> WellFormed(r.value.0) && r.value.1 == |g.builds| && |r.value.0.builds| == |g.builds| + 1
    ensures r.Ok? ==> r.value.0.registry == g.registry + [r.value.1]
    ensures r.Ok? ==> r.value.0.builds[r.value.1].id == id && r.value.0.builds[r.value.1].kind == kind
    ensures r.Ok? ==> |r.value.0.builds[r.value.1].envers| ==
                      |specs| + (if Derives(id, buildIdEnv, revRefEnv) then 1 else 0)
    ensures !Derives(id, buildIdEnv, revRefEnv) ==> r.Ok?
    ensures Derives(id, buildIdEnv, revRefEnv) && kind == NetworkingBuild ==> r.Err?
    ensures r.Ok? ==> r.value.0.consumers == g.consumers
  {
    var (g2, b) := InitialBuild(g, id, kind, specs);
    var d := DeriveIfSelected(g2, b, buildIdEnv, revRefEnv);
    if d.Err? then Err(d.error) else Ok((d.value, b))
  }

  /** The build constructor only appends: earlier environments, producers,
      builds and the library stay as they were. */
  lemma NewOdmdBuildKeeps(g: Contracts, id: string, kind: BuildKind, specs: seq<EnverSpec>,
                          buildIdEnv: Option<string>, revRefEnv: Option<string>)
    requires WellFormed(g)
    requires forall i | 0 <= i < |specs| :: NoUrlsYet(specs[i].kind)
    requires NewOdmdBuild(g, id, kind, specs, buildIdEnv, revRefEnv).Ok?
    ensures var g' := NewOdmdBuild(g, id, kind, specs, buildIdEnv, revRefEnv).value.0;
            && |g'.envers| >= |g.envers| + |specs| && g'.envers[..|g.envers|] == g.envers
            && g'.producers == g.producers && g'.contractsLib == g.contractsLib && g'.rootId == g.rootId
            && forall b' | 0 <= b' < |g.builds| :: g'.builds[b'].id == g.builds[b'].id && g'.builds[b'].kind == g.builds[b'].kind
  {
    var (g2, b) := InitialBuild(g, id, kind, specs);
    var d := DeriveIfSelected(g2, b, buildIdEnv, revRefEnv);
    PrefixOfPrefix(d.value.envers, g2.envers, g.envers);
  }

  /** The specified environments come first in the new build, in order, as
      the environments right after the ones that existed before. */
  lemma NewOdmdBuildInitialEnvers(g: Contracts, id: string, kind: BuildKind, specs: seq<EnverSpec>,
                                  buildIdEnv: Option<string>, revRefEnv: Option<string>)
    requires WellFormed(g)
    requires forall i | 0 <= i < |specs| :: NoUrlsYet(specs[i].kind)
    requires NewOdmdBuild(g, id, kind, specs, buildIdEnv, revRefEnv).Ok?
    ensures var (g', b) := NewOdmdBuild(g, id, kind, specs, buildIdEnv, revRefEnv).value;
            InitialEnversFirst(g.envers, specs, g', b)
  {
    var (g2, b) := InitialBuild(g, id, kind, specs);
    var d := DeriveIfSelected(g2, b, buildIdEnv, revRefEnv);
    InitialEnversKept(g.envers, specs, b, g2, d.value, if Derives(id, buildIdEnv, revRefEnv) then [|g2.envers|] else []);
  }

  /** The environments specified for build `b` sit first in it, in order,
      right after the environments `pre` that existed before. */
  predicate InitialEnversFirst(pre: seq<Enver>, specs: seq<EnverSpec>, g: Contracts, b: nat) {
    && b < |g.builds| && |g.builds[b].envers| >= |specs| && |g.envers| >= |pre| + |specs|
    && (forall i | 0 <= i < |specs| :: g.builds[b].envers[i] == |pre| + i)
    && (forall i | 0 <= i < |specs| :: g.envers[|pre| + i] == SpecEnver(b, specs[i]))
  }

  /** Appending after the initial environments keeps them where they were. */
  lemma InitialEnversKept(pre: seq<Enver>, specs: seq<EnverSpec>, b: nat, g2: Contracts, g3: Contracts, tail: seq<nat>)
    requires b < |g2.builds| && b < |g3.builds|
    requires g2.envers == pre + SpecEnvers(b, specs) && g2.builds[b].envers == Indices(|pre|, |specs|)
    requires |g3.envers| >= |g2.envers| && g3.envers[..|g2.envers|] == g2.envers
    requires g3.builds[b].envers == g2.builds[b].envers + tail
    ensures InitialEnversFirst(pre, specs, g3, b)
  {
    forall i | 0 <= i < |specs|
      ensures g3.builds[b].envers[i] == |pre| + i && g3.envers[|pre| + i] == SpecEnver(b, specs[i])
    {
      assert g3.builds[b].envers[i] == g2.builds[b].envers[i];
      assert g3.envers[|pre| + i] == g2.envers[|pre| + i];
    }
  }

  /** A prefix of a prefix is a prefix. */
  lemma PrefixOfPrefix<T>(a: seq<T>, b: seq<T>, c: seq<T>)
    requires |c| <= |b| <= |a| && a[..|b|] == b && b[..|c|] == c
    ensures a[..|c|] == c
  {
    assert forall i | 0 <= i < |c| :: a[i] == b[i] == c[i];
  }

  /** The derivation step of the build constructor. */
  function DeriveIfSelected(g: Contracts, b: nat, buildIdEnv: Option<string>, revRefEnv: Option<string>): (r: Result<Contracts, Error>)
    requires WellFormed(g) && b < |g.builds|
    ensures !Derives(g.builds[b].id, buildIdEnv, revRefEnv) ==> r == Ok(g)
    ensures Derives(g.builds[b].id, buildIdEnv, revRefEnv) && g.builds[b].kind == NetworkingBuild ==> r.Err?
    ensures r.Ok? ==> WellFormed(r.value) && |r.value.builds| == |g.builds| && |r.value.envers| >= |g.envers|
    ensures r.Ok? ==> forall i | 0 <= i < |g.envers| :: r.value.envers[i] == g.envers[i]
    ensures r.Ok? ==> r.value.envers[..|g.envers|] == g.envers
    ensures r.Ok? ==> r.value.builds[b].envers == g.builds[b].envers + (if Derives(g.builds[b].id, buildIdEnv, revRefEnv) then [|g.envers|] else [])
    ensures r.Ok? ==> r.value.registry == g.registry && r.value.producers == g.producers && r.value.consumers == g.consumers
                      && r.value.contractsLib == g.contractsLib && r.value.rootId == g.rootId
    ensures r.Ok? ==> forall b' | 0 <= b' < |g.builds| :: r.value.builds[b'].id == g.builds[b'].id && r.value.builds[b'].kind == g.builds[b'].kind
  {
    if Derives(g.builds[b].id, buildIdEnv, revRefEnv) then
      var (g', _) :- GenDynamicEnvers(g, b, revRefEnv.value);
      assert forall i | 0 <= i < |g.envers| :: g'.envers[i] == g'.envers[..|g.envers|][i];
      Ok(g')
    else Ok(g)
  }

  /** The build constructor derives an environment exactly for the selected
      build id and a set selector containing `-_`. */
  predicate Derives(id: string, buildIdEnv: Option<string>, revRefEnv: Option<string>) {
    buildIdEnv == Some(id) && EnvSet(revRefEnv) && HasPair(revRefEnv.value, '-', '_')
  }
}
