/** The whole-graph checks run once the contracts are built
    (`OndemandContracts.odmdValidate`) and the ones the CDK aspect runs on
    the app and on each stack. */
module Validate {
  import opened Wrappers
  import opened Errors
  import opened Strings
  import opened RevRefs
  import opened Graph
  import opened Shares

  // ---------------------------------------------------------------- odmdValidate

  /** No consumer lives inside environment `e` (`onlyProducerAllowed`). */
  predicate OnlyProduces(g: Contracts, e: nat) {
    forall c | 0 <= c < |g.consumers| :: g.consumers[c].enver != e
  }

  /** Rule 1: the contracts library's environments only produce. */
  predicate LibOnlyProduces(g: Contracts)
    requires WellFormed(g)
  {
    forall i | 0 <= i < |g.builds[g.contractsLib].envers| :: OnlyProduces(g, g.builds[g.contractsLib].envers[i])
  }

  /** A container-image environment of build `b` that has a consumer. */
  predicate CtnImgConsumes(g: Contracts, b: nat, i: nat)
    requires WellFormed(g) && b < |g.builds| && i < |g.builds[b].envers|
  {
    g.envers[g.builds[b].envers[i]].kind == CtnImgEnver && !OnlyProduces(g, g.builds[b].envers[i])
  }

  /** Rule 2: container-image environments of registered builds only produce. */
  predicate CtnImgOnlyProduces(g: Contracts)
    requires WellFormed(g)
  {
    forall k, i | 0 <= k < |g.registry| && 0 <= i < |g.builds[g.registry[k]].envers| :: !CtnImgConsumes(g, g.registry[k], i)
  }

  /** Consumer `c` and its producer are in one region. */
  predicate SameRegion(g: Contracts, c: nat)
    requires WellFormed(g) && c < |g.consumers|
  {
    g.envers[g.consumers[c].enver].region == g.envers[ProducerEnver(g, g.consumers[c].producer)].region
  }

  /** Rule 3: no consumer reads across regions. */
  predicate NoCrossRegion(g: Contracts)
    requires WellFormed(g)
  {
    forall c | 0 <= c < |g.consumers| :: SameRegion(g, c)
  }

  /** Rule 4: no build is registered twice. */
  predicate RegistryDistinct(g: Contracts) {
    forall i, j | 0 <= i < j < |g.registry| :: g.registry[i] != g.registry[j]
  }

  /** The default VPC/RDS and default EKS builds may be left without environments. */
  predicate MayBeEmpty(k: BuildKind) {
    k == VpcRdsBuild || k == KubeEksBuild
  }

  /** Rule 5: every other registered build has an environment. */
  predicate BuildsHaveEnvers(g: Contracts)
    requires WellFormed(g)
  {
    forall k | 0 <= k < |g.registry| :: MayBeEmpty(g.builds[g.registry[k]].kind) || |g.builds[g.registry[k]].envers| > 0
  }

  /** `onlyProducerAllowed(enver)`: whether some consumer lives in `e`. */
  method HasConsumer(g: Contracts, e: nat) returns (found: bool)
    ensures found <==> !OnlyProduces(g, e)
  {
    var c := 0;
    while c < |g.consumers|
      invariant 0 <= c <= |g.consumers|
      invariant forall d | 0 <= d < c :: g.consumers[d].enver != e
    {
      if g.consumers[c].enver == e {
        return true;
      }
      c := c + 1;
    }
    return false;
  }

  /** Environment `i` of build `b` passes `onlyProducerAllowed`, or is not
      one the check looks at. */
  predicate EnverChecked(g: Contracts, b: nat, i: nat, ctnImgOnly: bool)
    requires WellFormed(g) && b < |g.builds| && i < |g.builds[b].envers|
  {
    (ctnImgOnly ==> g.envers[g.builds[b].envers[i]].kind == CtnImgEnver) ==> OnlyProduces(g, g.builds[b].envers[i])
  }

  /** Runs `onlyProducerAllowed` over the environments of build `b`,
      restricted to container-image ones when `ctnImgOnly` holds. */
  method CheckBuildEnvers(g: Contracts, b: nat, ctnImgOnly: bool) returns (ok: bool)
    requires WellFormed(g) && b < |g.builds|
    ensures ok <==> forall i | 0 <= i < |g.builds[b].envers| :: EnverChecked(g, b, i, ctnImgOnly)
  {
    var es := g.builds[b].envers;
    var i := 0;
    while i < |es|
      invariant 0 <= i <= |es|
      invariant forall j | 0 <= j < i :: EnverChecked(g, b, j, ctnImgOnly)
    {
      if !ctnImgOnly || g.envers[es[i]].kind == CtnImgEnver {
        var found := HasConsumer(g, es[i]);
        if found {
          assert !EnverChecked(g, b, i, ctnImgOnly);
          return false;
        }
      }
      i := i + 1;
    }
    return true;
  }

  /** Rule 2 over the registry. */
  method CheckCtnImgEnvers(g: Contracts) returns (ok: bool)
    requires WellFormed(g)
    ensures ok <==> CtnImgOnlyProduces(g)
  {
    var k := 0;
    while k < |g.registry|
      invariant 0 <= k <= |g.registry|
      invariant forall k', i | 0 <= k' < k && 0 <= i < |g.builds[g.registry[k']].envers| :: !CtnImgConsumes(g, g.registry[k'], i)
    {
      var okB := CheckBuildEnvers(g, g.registry[k], true);
      if !okB {
        var i :| 0 <= i < |g.builds[g.registry[k]].envers| && !EnverChecked(g, g.registry[k], i, true);
        assert CtnImgConsumes(g, g.registry[k], i);
        return false;
      }
      forall i | 0 <= i < |g.builds[g.registry[k]].envers| ensures !CtnImgConsumes(g, g.registry[k], i) {
        assert EnverChecked(g, g.registry[k], i, true);
      }
      k := k + 1;
    }
    return true;
  }

  /** Rule 3 over all consumers. */
  method CheckRegions(g: Contracts) returns (ok: bool)
    requires WellFormed(g)
    ensures ok <==> NoCrossRegion(g)
  {
    var c := 0;
    while c < |g.consumers|
      invariant 0 <= c <= |g.consumers|
      invariant forall d | 0 <= d < c :: SameRegion(g, d)
    {
      if !SameRegion(g, c) {
        return false;
      }
      c := c + 1;
    }
    return true;
  }

  /** Rule 4: `new Set(odmdBuilds).size == odmdBuilds.length`. */
  method CheckRegistry(g: Contracts) returns (ok: bool)
    ensures ok <==> RegistryDistinct(g)
  {
    var seen: set<nat> := {};
    var k := 0;
    while k < |g.registry|
      invariant 0 <= k <= |g.registry|
      invariant seen == set i | 0 <= i < k :: g.registry[i]
      invariant forall i, j | 0 <= i < j < k :: g.registry[i] != g.registry[j]
    {
      if g.registry[k] in seen {
        var i :| 0 <= i < k && g.registry[i] == g.registry[k];
        return false;
      }
      seen := seen + {g.registry[k]};
      k := k + 1;
    }
    return true;
  }

  /** Rule 5 over the registry. */
  method CheckEnverCounts(g: Contracts) returns (ok: bool)
    requires WellFormed(g)
    ensures ok <==> BuildsHaveEnvers(g)
  {
    var k := 0;
    while k < |g.registry|
      invariant 0 <= k <= |g.registry|
      invariant forall k' | 0 <= k' < k :: MayBeEmpty(g.builds[g.registry[k']].kind) || |g.builds[g.registry[k']].envers| > 0
    {
      var b := g.builds[g.registry[k]];
      if !MayBeEmpty(b.kind) && |b.envers| == 0 {
        return false;
      }
      k := k + 1;
    }
    return true;
  }

  /** `odmdValidate`: the five rules in order; the first broken one names
      the error. */
  method OdmdValidate(g: Contracts) returns (r: Outcome<Error>)
    requires WellFormed(g)
    ensures r.Pass? <==> LibOnlyProduces(g) && CtnImgOnlyProduces(g) && NoCrossRegion(g) && RegistryDistinct(g) && BuildsHaveEnvers(g)
    ensures r == Fail(ConsumerInProducerOnlyEnver) <==> !LibOnlyProduces(g) || !CtnImgOnlyProduces(g)
    ensures r == Fail(CrossRegionConsumer) <==> LibOnlyProduces(g) && CtnImgOnlyProduces(g) && !NoCrossRegion(g)
    ensures r == Fail(DuplicateBuild) <==>
              LibOnlyProduces(g) && CtnImgOnlyProduces(g) && NoCrossRegion(g) && !RegistryDistinct(g)
    ensures r == Fail(BuildWithoutEnvers) <==>
              LibOnlyProduces(g) && CtnImgOnlyProduces(g) && NoCrossRegion(g) && RegistryDistinct(g) && !BuildsHaveEnvers(g)
  {
    var ok := CheckBuildEnvers(g, g.contractsLib, false);
    assert forall i | 0 <= i < |g.builds[g.contractsLib].envers| ::
             EnverChecked(g, g.contractsLib, i, false) == OnlyProduces(g, g.builds[g.contractsLib].envers[i]);
    if !ok {
      return Fail(ConsumerInProducerOnlyEnver);
    }
    ok := CheckCtnImgEnvers(g);
    if !ok {
      return Fail(ConsumerInProducerOnlyEnver);
    }
    ok := CheckRegions(g);
    if !ok {
      return Fail(CrossRegionConsumer);
    }
    ok := CheckRegistry(g);
    if !ok {
      return Fail(DuplicateBuild);
    }
    ok := CheckEnverCounts(g);
    if !ok {
      return Fail(BuildWithoutEnvers);
    }
    return Pass;
  }

  /** The construction invariant already guarantees rule 1. */
  lemma LibRuleFromInvariant(g: Contracts)
    requires WellFormed(g) && ContractsLibConsumesNothing(g)
    ensures LibOnlyProduces(g)
  {
    forall i, c | 0 <= i < |g.builds[g.contractsLib].envers| && 0 <= c < |g.consumers|
      ensures g.consumers[c].enver != g.builds[g.contractsLib].envers[i]
    {
      assert g.envers[g.builds[g.contractsLib].envers[i]].build == g.contractsLib;
    }
  }

  /** Builds are registered once each by construction: rule 4 survives
      adding a build. */
  lemma AddBuildKeepsRegistryDistinct(g: Contracts, id: string, kind: BuildKind)
    requires WellFormed(g) && RegistryDistinct(g)
    ensures RegistryDistinct(AddBuild(g, id, kind).0)
  {
    var g' := AddBuild(g, id, kind).0;
    forall i, j | 0 <= i < j < |g'.registry| ensures g'.registry[i] != g'.registry[j] {
      if j == |g.registry| {
        assert g'.registry[i] == g.registry[i] < |g.builds| == g'.registry[j];
      }
    }
  }

  /** A consumer in the producer's region keeps rule 3. */
  lemma NewConsumerKeepsRegions(g: Contracts, e: nat, id: string, p: nat, options: ConsumerOptions)
    requires WellFormed(g) && e < |g.envers| && p < |g.producers| && NoCrossRegion(g)
    requires NewConsumer(g, e, id, p, options).Ok?
    requires g.envers[e].region == g.envers[ProducerEnver(g, p)].region
    ensures NoCrossRegion(NewConsumer(g, e, id, p, options).value.0)
  {
    var g' := NewConsumer(g, e, id, p, options).value.0;
    forall c | 0 <= c < |g'.consumers| ensures SameRegion(g', c) {
      if c < |g.consumers| {
        assert SameRegion(g, c);
      }
    }
  }

  // ---------------------------------------------------------------- user-auth URLs

  /** A URL consumer's default must start with `http` or `https`. */
  predicate HttpDefault(g: Contracts, c: nat) {
    && c < |g.consumers|
    && g.consumers[c].options.defaultIfAbsent.Some?
    && (StartsWith(g.consumers[c].options.defaultIfAbsent.value, "http")
        || StartsWith(g.consumers[c].options.defaultIfAbsent.value, "https"))
  }

  /** `[...callbackUrls, ...logoutUrls]` of a user-auth environment. */
  function UrlConsumers(en: Enver): seq<nat> {
    if en.kind.UserAuthEnver? then en.kind.callbackUrls + en.kind.logoutUrls else []
  }

  /** The URL consumers the check rejects, in order. */
  function BadUrls(g: Contracts, us: seq<nat>): (r: seq<nat>)
    ensures forall i | 0 <= i < |r| :: r[i] in us && !HttpDefault(g, r[i])
    ensures forall i | 0 <= i < |us| :: !HttpDefault(g, us[i]) ==> us[i] in r
    decreases |us|
  {
    if |us| == 0 then []
    else (if HttpDefault(g, us[0]) then [] else [us[0]]) + BadUrls(g, us[1..])
  }

  /** Every URL consumer of every user-auth environment has an http default. */
  predicate UrlDefaultsOk(g: Contracts) {
    forall e, i | 0 <= e < |g.envers| && 0 <= i < |UrlConsumers(g.envers[e])| :: HttpDefault(g, UrlConsumers(g.envers[e])[i])
  }

  /** The aspect's app-level user-auth check: any rejected URL consumer fails it. */
  function CheckUserAuthUrls(g: Contracts): (r: Outcome<Error>)
    ensures r.Pass? <==> UrlDefaultsOk(g)
    ensures r.Fail? ==> r.error == UserAuthDefaultNotHttp
  {
    if exists e | 0 <= e < |g.envers| :: |BadUrls(g, UrlConsumers(g.envers[e]))| > 0 then
      assert !UrlDefaultsOk(g) by {
        var e :| 0 <= e < |g.envers| && |BadUrls(g, UrlConsumers(g.envers[e]))| > 0;
        var us := UrlConsumers(g.envers[e]);
        var u := BadUrls(g, us)[0];
        var i :| 0 <= i < |us| && us[i] == u;
        assert !HttpDefault(g, us[i]);
      }
      Fail(UserAuthDefaultNotHttp)
    else
      assert UrlDefaultsOk(g) by {
        forall e, i | 0 <= e < |g.envers| && 0 <= i < |UrlConsumers(g.envers[e])|
          ensures HttpDefault(g, UrlConsumers(g.envers[e])[i])
        {
          assert |BadUrls(g, UrlConsumers(g.envers[e]))| == 0;
        }
      }
      Pass
  }

  /** A `https` default already starts with `http`. */
  lemma HttpsIsHttp(s: string)
    requires StartsWith(s, "https")
    ensures StartsWith(s, "http")
  {
    assert s[..4] == s[..5][..4];
  }

  /** Creates a consumer in user-auth environment `e` and files it as a
      callback URL (or a logout URL). */
  function AddUrlConsumer(g: Contracts, e: nat, id: string, p: nat, options: ConsumerOptions, callback: bool)
    : (r: Result<(Contracts, nat), Error>)
    requires WellFormed(g) && e < |g.envers| && p < |g.producers| && g.envers[e].kind.UserAuthEnver?
    ensures r.Ok? <==> NewConsumer(g, e, id, p, options).Ok?
    ensures r.Ok? ==> WellFormed(r.value.0) && r.value.1 == |g.consumers| && |r.value.0.envers| == |g.envers|
    ensures r.Ok? ==> r.value.0.consumers == g.consumers + [Consumer(e, id, p, options)]
    ensures r.Ok? ==> UrlConsumers(r.value.0.envers[e]) ==
                        if callback then g.envers[e].kind.callbackUrls + [r.value.1] + g.envers[e].kind.logoutUrls
                        else UrlConsumers(g.envers[e]) + [r.value.1]
    ensures r.Ok? ==> forall e' | 0 <= e' < |g.envers| && e' != e :: r.value.0.envers[e'] == g.envers[e']
  {
    var (g1, c) :- NewConsumer(g, e, id, p, options);
    var en := g1.envers[e];
    var k := en.kind;
    var k' := if callback then k.(callbackUrls := k.callbackUrls + [c]) else k.(logoutUrls := k.logoutUrls + [c]);
    var g2 := g1.(envers := g1.envers[e := en.(kind := k')]);
    assert WellFormed(g2) by {
      forall e' | 0 <= e' < |g2.envers| ensures EnverOk(g2, g2.envers[e']) {
        assert EnverOk(g1, g1.envers[e']);
      }
    }
    Ok((g2, c))
  }

  /** Adding a URL consumer with an http default keeps the check passing. */
  lemma AddUrlConsumerKeepsDefaults(g: Contracts, e: nat, id: string, p: nat, options: ConsumerOptions, callback: bool)
    requires WellFormed(g) && e < |g.envers| && p < |g.producers| && g.envers[e].kind.UserAuthEnver?
    requires UrlDefaultsOk(g) && AddUrlConsumer(g, e, id, p, options, callback).Ok?
    requires options.defaultIfAbsent.Some? && StartsWith(options.defaultIfAbsent.value, "http")
    ensures UrlDefaultsOk(AddUrlConsumer(g, e, id, p, options, callback).value.0)
  {
    var (g', c) := AddUrlConsumer(g, e, id, p, options, callback).value;
    forall e', i | 0 <= e' < |g'.envers| && 0 <= i < |UrlConsumers(g'.envers[e'])|
      ensures HttpDefault(g', UrlConsumers(g'.envers[e'])[i])
    {
      var u := UrlConsumers(g'.envers[e'])[i];
      if u != c {
        assert u in UrlConsumers(g.envers[e']);
        var j :| 0 <= j < |UrlConsumers(g.envers[e'])| && UrlConsumers(g.envers[e'])[j] == u;
        assert HttpDefault(g, u);
        assert g'.consumers[u] == g.consumers[u];
      }
    }
  }

  /** The aspect on the app: `OdmdShareOut.validate` over every share-out's
      environment, then the user-auth URL defaults. */
  method ValidateApp(g: Contracts, shareOutOwners: seq<nat>) returns (r: Outcome<Error>)
    ensures r.Pass? <==> (forall i, j | 0 <= i < j < |shareOutOwners| :: shareOutOwners[i] != shareOutOwners[j]) && UrlDefaultsOk(g)
    ensures r == Fail(MultipleShareOuts) <==> exists i, j | 0 <= i < j < |shareOutOwners| :: shareOutOwners[i] == shareOutOwners[j]
    ensures r.Fail? ==> r.error == MultipleShareOuts || r.error == UserAuthDefaultNotHttp
  {
    r := ValidateShareOuts(shareOutOwners);
    if r.Pass? {
      r := CheckUserAuthUrls(g);
    }
  }

  // ---------------------------------------------------------------- version maps

  /** The keys of an entry list, as a set. */
  function KeysOf<V>(m: seq<(string, V)>): set<string> {
    set i | 0 <= i < |m| :: m[i].0
  }

  lemma KeysOfAppend<V>(a: seq<(string, V)>, b: seq<(string, V)>)
    ensures KeysOf(a + b) == KeysOf(a) + KeysOf(b)
  {
    var s := a + b;
    forall y | y in KeysOf(s) ensures y in KeysOf(a) + KeysOf(b) {
      var i :| 0 <= i < |s| && s[i].0 == y;
      if i < |a| {
        assert s[i] == a[i];
      } else {
        assert s[i] == b[i - |a|];
      }
    }
    forall y | y in KeysOf(a) ensures y in KeysOf(s) {
      var i :| 0 <= i < |a| && a[i].0 == y;
      assert s[i] == a[i];
    }
    forall y | y in KeysOf(b) ensures y in KeysOf(s) {
      var i :| 0 <= i < |b| && b[i].0 == y;
      assert s[|a| + i] == b[i];
    }
  }

  lemma KeysOfOne<V>(x: (string, V))
    ensures KeysOf([x]) == {x.0}
  {
    assert [x][0] == x;
  }

  /** `map.set(k, v)` on a JavaScript `Map` kept as its entry list: an
      existing key keeps its place and takes the new value; a new key goes
      last. */
  function MapSet<V>(m: seq<(string, V)>, k: string, v: V): (r: seq<(string, V)>)
    requires DistinctKeys(m)
    ensures |r| == |m| || |r| == |m| + 1
    ensures DistinctKeys(r) && KeysOf(r) == KeysOf(m) + {k}
    ensures |r| == |m| + 1 ==> r[|m|] == (k, v)
    ensures forall i | 0 <= i < |m| :: r[i] == if r[i].0 == k then (k, v) else m[i]
    ensures k !in KeysOf(m) ==> r == m + [(k, v)]
    ensures k in KeysOf(m) ==> |r| == |m|
    decreases |m|
  {
    KeysOfOne((k, v));
    if |m| == 0 then [(k, v)]
    else
      assert m == [m[0]] + m[1..];
      KeysOfAppend([m[0]], m[1..]);
      KeysOfOne(m[0]);
      HeadNotInTail(m);
      if m[0].0 == k then
        KeysOfAppend([(k, v)], m[1..]);
        ConsDistinct((k, v), m[1..]);
        [(k, v)] + m[1..]
      else
        var rest := MapSet(m[1..], k, v);
        KeysOfAppend([m[0]], rest);
        ConsDistinct(m[0], rest);
        var r := [m[0]] + rest;
        assert forall i | 1 <= i < |r| :: r[i] == rest[i - 1];
        assert forall i | 1 <= i < |m| :: m[i] == m[1..][i - 1];
        r
  }

  lemma HeadNotInTail<V>(m: seq<(string, V)>)
    requires |m| > 0 && DistinctKeys(m)
    ensures DistinctKeys(m[1..]) && m[0].0 !in KeysOf(m[1..])
  {
    assert forall i | 1 <= i < |m| :: m[1..][i - 1] == m[i];
  }

  lemma ConsDistinct<V>(x: (string, V), s: seq<(string, V)>)
    requires DistinctKeys(s) && x.0 !in KeysOf(s)
    ensures DistinctKeys([x] + s)
  {
    var r := [x] + s;
    assert forall i | 1 <= i < |r| :: r[i] == s[i - 1];
  }

  /** `new Map(entries)`. */
  function JsMap<V>(entries: seq<(string, V)>): (r: seq<(string, V)>)
    ensures DistinctKeys(r) && KeysOf(r) == KeysOf(entries)
    ensures |r| <= |entries|
    decreases |entries|
  {
    if |entries| == 0 then []
    else
      var init := entries[..|entries| - 1];
      var last := entries[|entries| - 1];
      assert entries == init + [last];
      KeysOfAppend(init, [last]);
      KeysOfOne(last);
      MapSet(JsMap(init), last.0, last.1)
  }

  /** `map.get(k)`. */
  function Lookup<V>(m: seq<(string, V)>, k: string): Option<V>
    decreases |m|
  {
    if |m| == 0 then None else if m[0].0 == k then Some(m[0].1) else Lookup(m[1..], k)
  }

  /** The value of the last entry with key `k`: the one `new Map` keeps. */
  function LastValue<V>(entries: seq<(string, V)>, k: string): Option<V>
    decreases |entries|
  {
    if |entries| == 0 then None
    else if entries[|entries| - 1].0 == k then Some(entries[|entries| - 1].1)
    else LastValue(entries[..|entries| - 1], k)
  }

  lemma {:induction false} LookupMapSet<V>(m: seq<(string, V)>, k: string, v: V, k': string)
    requires DistinctKeys(m)
    ensures Lookup(MapSet(m, k, v), k') == if k' == k then Some(v) else Lookup(m, k')
    decreases |m|
  {
    if |m| > 0 && m[0].0 != k {
      LookupMapSet(m[1..], k, v, k');
    }
  }

  /** Later entries win: the map holds, for each key, its last value. */
  lemma {:induction false} JsMapLastWins<V>(entries: seq<(string, V)>, k: string)
    ensures Lookup(JsMap(entries), k) == LastValue(entries, k)
    decreases |entries|
  {
    if |entries| > 0 {
      var init := entries[..|entries| - 1];
      var last := entries[|entries| - 1];
      LookupMapSet(JsMap(init), last.0, last.1, k);
      JsMapLastWins(init, k);
    }
  }

  /** With distinct keys, `new Map` loses nothing and keeps the order. */
  lemma {:induction false} JsMapOfDistinct<V>(entries: seq<(string, V)>)
    requires DistinctKeys(entries)
    ensures JsMap(entries) == entries
    decreases |entries|
  {
    if |entries| > 0 {
      var init := entries[..|entries| - 1];
      var last := entries[|entries| - 1];
      LastKeyNew(entries);
      JsMapOfDistinct(init);
      assert JsMap(entries) == MapSet(init, last.0, last.1);
      assert init + [last] == entries;
    }
  }

  /** Without repeated keys, the last key is not among the earlier ones,
      which have no repeated keys either. */
  lemma LastKeyNew<V>(entries: seq<(string, V)>)
    requires DistinctKeys(entries) && |entries| > 0
    ensures DistinctKeys(entries[..|entries| - 1])
    ensures entries[|entries| - 1].0 !in KeysOf(entries[..|entries| - 1])
  {
    var init := entries[..|entries| - 1];
    assert forall i | 0 <= i < |init| :: init[i] == entries[i];
  }

  /** The aspect adds the version outputs only under a set `ODMD_rev_ref`,
      a set `ODMD_build_id` and a stack named after that build. */
  predicate VersionsGate(revRefEnv: Option<string>, buildIdEnv: Option<string>, stackName: string) {
    EnvSet(revRefEnv) && EnvSet(buildIdEnv) && StartsWith(stackName, buildIdEnv.value)
  }

  /** `<build id>/<revision path>`, the key of both version maps. */
  function EnverKey(g: Contracts, e: nat): string
    requires WellFormed(g) && e < |g.envers|
  {
    EnverBuildId(g, e) + "/" + PathOf(g.envers[e].rev)
  }

  lemma EnverKeyInjective(g: Contracts, e1: nat, e2: nat)
    requires WellFormed(g) && e1 < |g.envers| && e2 < |g.envers| && DistinctEnvers(g)
    requires ValidRef(g.envers[e1].rev) && ValidRef(g.envers[e2].rev)
    requires !('/' in EnverBuildId(g, e1)) && !('/' in EnverBuildId(g, e2))
    ensures EnverKey(g, e1) == EnverKey(g, e2) <==> e1 == e2
  {
    if EnverKey(g, e1) == EnverKey(g, e2) {
      SplitUnique(EnverBuildId(g, e1), PathOf(g.envers[e1].rev), EnverBuildId(g, e2), PathOf(g.envers[e2].rev), '/');
      PathInjective(g.envers[e1].rev, g.envers[e2].rev);
    }
  }

  /** The entries handed to `new Map`: each environment's key with its
      versions attribute. A plain projection; what the map built from them
      keeps is stated by `VersionMapComplete`. */
  function VersionEntries(g: Contracts, pairs: seq<(nat, AttToken)>): (r: seq<(string, AttToken)>)
    requires WellFormed(g) && forall i | 0 <= i < |pairs| :: pairs[i].0 < |g.envers|
    ensures |r| == |pairs|
    ensures forall i | 0 <= i < |r| :: r[i] == (EnverKey(g, pairs[i].0), pairs[i].1)
  {
    seq(|pairs|, i requires 0 <= i < |pairs| && pairs[i].0 < |g.envers| => (EnverKey(g, pairs[i].0), pairs[i].1))
  }

  /** A stack's version map: one entry per producing environment; a later
      entry for the same environment replaces an earlier one. */
  function VersionMap(g: Contracts, pairs: seq<(nat, AttToken)>): (r: seq<(string, AttToken)>)
    requires WellFormed(g) && forall i | 0 <= i < |pairs| :: pairs[i].0 < |g.envers|
    ensures DistinctKeys(r)
    ensures forall k :: k in KeysOf(r) <==> exists i | 0 <= i < |pairs| :: k == EnverKey(g, pairs[i].0)
  {
    var entries := VersionEntries(g, pairs);
    forall k ensures k in KeysOf(entries) <==> exists i | 0 <= i < |pairs| :: k == EnverKey(g, pairs[i].0) {
      if k in KeysOf(entries) {
        var i :| 0 <= i < |entries| && entries[i].0 == k;
      }
    }
    JsMap(entries)
  }

  /** Environments that are pairwise distinct each keep their own entry, in order. */
  lemma VersionMapComplete(g: Contracts, pairs: seq<(nat, AttToken)>)
    requires WellFormed(g) && DistinctEnvers(g)
    requires forall i | 0 <= i < |pairs| :: pairs[i].0 < |g.envers|
    requires forall e | 0 <= e < |g.envers| :: ValidRef(g.envers[e].rev) && !('/' in EnverBuildId(g, e))
    requires forall i, j | 0 <= i < j < |pairs| :: pairs[i].0 != pairs[j].0
    ensures VersionMap(g, pairs) == VersionEntries(g, pairs)
  {
    var entries := VersionEntries(g, pairs);
    forall i, j | 0 <= i < j < |pairs| ensures entries[i].0 != entries[j].0 {
      EnverKeyInjective(g, pairs[i].0, pairs[j].0);
    }
    JsMapOfDistinct(entries);
  }

  /** `odmdShareInVersionMapOut`: the share-ins of a stack and their versions attributes. */
  function ShareInVersionMap(g: Contracts, sis: seq<ShareIn>): (r: seq<(string, AttToken)>)
    requires WellFormed(g) && forall i | 0 <= i < |sis| :: sis[i].producerEnver < |g.envers|
    ensures DistinctKeys(r)
    ensures forall k :: k in KeysOf(r) <==> exists i | 0 <= i < |sis| :: k == EnverKey(g, sis[i].producerEnver)
  {
    var pairs := seq(|sis|, i requires 0 <= i < |sis| => (sis[i].producerEnver, GetAtt(ResourceOf(sis[i].stack, sis[i].id), ShareVersions)));
    assert forall i | 0 <= i < |sis| :: pairs[i].0 == sis[i].producerEnver;
    VersionMap(g, pairs)
  }

  /** The attribute recorded for each share-in is its `getInVersions()`. */
  lemma ShareInVersionsAreInVersions(g: Contracts, sis: seq<ShareIn>)
    requires WellFormed(g) && DistinctEnvers(g)
    requires forall i | 0 <= i < |sis| :: ShareInOk(g, sis[i]) && sis[i].producerEnver < |g.envers|
    requires forall e | 0 <= e < |g.envers| :: ValidRef(g.envers[e].rev) && !('/' in EnverBuildId(g, e))
    requires forall i, j | 0 <= i < j < |sis| :: sis[i].producerEnver != sis[j].producerEnver
    ensures |ShareInVersionMap(g, sis)| == |sis|
    ensures forall i | 0 <= i < |sis| :: ShareInVersionMap(g, sis)[i].0 == EnverKey(g, sis[i].producerEnver)
                                         && GetInVersions(sis[i]) == Some(ShareInVersionMap(g, sis)[i].1)
  {
    var pairs := seq(|sis|, i requires 0 <= i < |sis| => (sis[i].producerEnver, GetAtt(ResourceOf(sis[i].stack, sis[i].id), ShareVersions)));
    VersionMapComplete(g, pairs);
    forall i | 0 <= i < |sis| ensures GetInVersions(sis[i]) == Some(pairs[i].1) {
      ShareInServesItsConsumers(g, sis[i], 0);
    }
  }

  /** `odmdShareOutVersionMapOut`: the share-outs of a stack and their versions attributes. */
  function ShareOutVersionMap(g: Contracts, sos: seq<ShareOut>): (r: seq<(string, AttToken)>)
    requires WellFormed(g) && forall i | 0 <= i < |sos| :: sos[i].producingEnver < |g.envers|
    ensures DistinctKeys(r)
    ensures forall k :: k in KeysOf(r) <==> exists i | 0 <= i < |sos| :: k == EnverKey(g, sos[i].producingEnver)
  {
    var pairs := seq(|sos|, i requires 0 <= i < |sos| => (sos[i].producingEnver, sos[i].outVersions));
    assert forall i | 0 <= i < |sos| :: pairs[i].0 == sos[i].producingEnver;
    VersionMap(g, pairs)
  }

  /** `vi64arr`: one `key:value` line per map entry, in map order; `render`
      is how the attribute token prints. */
  function VersionLines(m: seq<(string, AttToken)>, render: AttToken -> string): (r: seq<string>)
    ensures |r| == |m|
    ensures forall i | 0 <= i < |r| :: StartsWith(r[i], m[i].0 + ":") && r[i][|m[i].0| + 1..] == render(m[i].1)
  {
    seq(|m|, i requires 0 <= i < |m| => m[i].0 + ":" + render(m[i].1))
  }

  /** A key without `:` is read back from its line as the text before the
      first `:`. */
  lemma VersionLineKey(m: seq<(string, AttToken)>, render: AttToken -> string, i: nat)
    requires i < |m| && !(':' in m[i].0)
    ensures FindChar(VersionLines(m, render)[i], ':') == Some(|m[i].0|)
  {
    var line := VersionLines(m, render)[i];
    assert line[|m[i].0|] == ':';
    forall j | 0 <= j < |m[i].0| ensures line[j] != ':' {
      assert line[j] == m[i].0[j];
    }
  }
}
