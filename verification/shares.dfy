/** Sharing values between stacks: a `ShareIn` batches the consumers of one
    stack that read from one producing environment; a `ShareOut` publishes
    the values of one environment's producers. Both talk to a custom
    resource whose attributes are modelled as `GetAtt` tokens. */
module Shares {
  import opened Wrappers
  import opened Errors
  import opened Strings
  import opened RevRefs
  import opened Graph
  import opened Sanitizers

  /** `SHARE_VERSIONS`. */
  const ShareVersions: string := "share..version"
  /** `OndemandContracts.REV_REF_name`. */
  const RevRefName: string := "ODMD_rev_ref"
  const ServiceTokenName: string := "ServiceToken"

  /** An attribute of a custom resource, resolved at deploy time. */
  datatype AttToken = GetAtt(resource: string, attribute: string)

  /** The members every plain JavaScript object `{}` inherits from
      `Object.prototype`: reading one of these names from an object that has
      no own entry under it gives the inherited member. */
  const ObjectProtoKeys: set<string> :=
    {"constructor", "hasOwnProperty", "isPrototypeOf", "propertyIsEnumerable", "toString",
     "toLocaleString", "valueOf", "__proto__", "__defineGetter__", "__defineSetter__",
     "__lookupGetter__", "__lookupSetter__"}

  /** The accessor name under which assigning a string to a plain object is
      silently ignored. */
  const ProtoAccessor: string := "__proto__"

  /** A value read from the runtime data: an attribute stored there, or the
      member inherited from `Object.prototype` under that name. */
  datatype RtValue = Attr(token: AttToken) | Inherited(member: string)

  /** `OdmdShareIn`: the stack it lives in, its construct id, the consumer
      build, the batched consumers, their common producing environment, and
      the runtime data `_rtData`. */
  datatype ShareIn = ShareIn(stack: string, id: string, consumerBuildId: string, refConsumers: seq<nat>,
                             producerEnver: nat, rtData: map<string, AttToken>)

  /** The environment that owns the producer consumer `c` reads. */
  function SourceEnver(g: Contracts, c: nat): nat
    requires WellFormed(g) && c < |g.consumers|
  {
    ProducerEnver(g, g.consumers[c].producer)
  }

  function ProducerName(g: Contracts, c: nat): string
    requires WellFormed(g) && c < |g.consumers|
  {
    g.producers[g.consumers[c].producer].name
  }

  predicate ValidConsumers(g: Contracts, cs: seq<nat>) {
    forall i | 0 <= i < |cs| :: cs[i] < |g.consumers|
  }

  /** The path of the share-in's custom resource. */
  function ResourceOf(stack: string, id: string): string {
    stack + "/" + id + "/share-in-values"
  }

  /** What `refresh` leaves in `_rtData`: one attribute per consumed
      producer name, and the versions attribute. A producer named
      `__proto__` leaves no entry: the assignment is ignored. */
  function RtData(g: Contracts, resource: string, cs: seq<nat>): (m: map<string, AttToken>)
    requires WellFormed(g) && ValidConsumers(g, cs)
    ensures forall i | 0 <= i < |cs| && ProducerName(g, cs[i]) != ProtoAccessor ::
              ProducerName(g, cs[i]) in m && m[ProducerName(g, cs[i])] == GetAtt(resource, ProducerName(g, cs[i]))
    ensures |cs| > 0 ==> ShareVersions in m && m[ShareVersions] == GetAtt(resource, ShareVersions)
    ensures ProtoAccessor !in m
    ensures forall k | k in m :: m[k] == GetAtt(resource, k)
    ensures forall k | k in m :: k == ShareVersions || exists i | 0 <= i < |cs| :: k == ProducerName(g, cs[i])
  {
    var names := set i | 0 <= i < |cs| :: ProducerName(g, cs[i]);
    var keys := (if |cs| > 0 then names + {ShareVersions} else names) - {ProtoAccessor};
    map k | k in keys :: GetAtt(resource, k)
  }

  /** A share-in as the constructor and `addRefProducer` keep it. */
  predicate ShareInOk(g: Contracts, si: ShareIn) {
    && WellFormed(g)
    && |si.refConsumers| > 0 && ValidConsumers(g, si.refConsumers)
    && (forall i | 0 <= i < |si.refConsumers| :: SourceEnver(g, si.refConsumers[i]) == si.producerEnver)
    && si.rtData == RtData(g, ResourceOf(si.stack, si.id), si.refConsumers)
  }

  /** `new OdmdShareIn(stack, consumerBuildId, refConsumers)`: every consumer
      must read from one producing environment. The construct id names the
      first consumer's producer, so an empty list fails outright. */
  function NewShareIn(g: Contracts, stack: string, consumerBuildId: string, cs: seq<nat>): (r: Result<ShareIn, Error>)
    requires WellFormed(g) && ValidConsumers(g, cs)
    ensures r.Ok? <==> |cs| > 0 && forall i | 0 <= i < |cs| :: SourceEnver(g, cs[i]) == SourceEnver(g, cs[0])
    ensures r.Ok? ==> ShareInOk(g, r.value) && r.value.refConsumers == cs && r.value.stack == stack
    ensures r.Ok? ==> r.value.producerEnver == SourceEnver(g, cs[0]) && r.value.consumerBuildId == consumerBuildId
  {
    if |cs| == 0 then Err(ShareInEmpty)
    else if exists i | 0 <= i < |cs| :: SourceEnver(g, cs[i]) != SourceEnver(g, cs[0]) then Err(ShareInMultiEnver)
    else
      var p := g.consumers[cs[0]].producer;
      var id := "odmd-share-in_" + consumerBuildId + "_" + ProducerPath(g, p);
      Ok(ShareIn(stack, id, consumerBuildId, cs, SourceEnver(g, cs[0]), RtData(g, ResourceOf(stack, id), cs)))
  }

  /** `addRefProducer(consumer)`: a consumer already batched changes
      nothing; one reading another environment is rejected; otherwise it is
      appended and the runtime data refreshed. */
  function AddRefProducer(g: Contracts, si: ShareIn, c: nat): (r: Result<ShareIn, Error>)
    requires ShareInOk(g, si) && c < |g.consumers|
    ensures c in si.refConsumers ==> r == Ok(si)
    ensures r.Ok? <==> c in si.refConsumers || SourceEnver(g, c) == si.producerEnver
    ensures r.Ok? ==> ShareInOk(g, r.value) && c in r.value.refConsumers
    ensures r.Ok? && !(c in si.refConsumers) ==> r.value.refConsumers == si.refConsumers + [c]
    ensures r.Ok? ==> r.value.producerEnver == si.producerEnver && r.value.id == si.id && r.value.stack == si.stack
  {
    if c in si.refConsumers then Ok(si)
    else if SourceEnver(g, si.refConsumers[0]) != SourceEnver(g, c) then Err(ShareInMultiEnver)
    else
      var cs := si.refConsumers + [c];
      Ok(si.(refConsumers := cs, rtData := RtData(g, ResourceOf(si.stack, si.id), cs)))
  }

  /** `getShareValue(producer)`: the runtime attribute of that name; for a
      name the runtime data lacks, the member a plain object inherits under
      it, if any. */
  function GetShareValue(si: ShareIn, name: string): (r: Option<RtValue>)
    ensures r.None? <==> name !in si.rtData && name !in ObjectProtoKeys
    ensures (r.Some? && r.value.Attr?) <==> name in si.rtData
    ensures r.Some? && r.value.Attr? ==> r.value.token == si.rtData[name]
    ensures r.Some? && r.value.Inherited? ==> r.value.member == name
  {
    if name in si.rtData then Some(Attr(si.rtData[name]))
    else if name in ObjectProtoKeys then Some(Inherited(name))
    else None
  }

  /** `getInVersions()`. */
  function GetInVersions(si: ShareIn): (r: Option<AttToken>)
    ensures r.Some? <==> ShareVersions in si.rtData
  {
    if ShareVersions in si.rtData then Some(si.rtData[ShareVersions]) else None
  }

  /** Every batched consumer reads its producer's attribute, except that a
      producer named `__proto__` reads the inherited prototype instead; the
      versions attribute is always there. */
  lemma ShareInServesItsConsumers(g: Contracts, si: ShareIn, i: nat)
    requires ShareInOk(g, si) && i < |si.refConsumers|
    ensures ProducerName(g, si.refConsumers[i]) != ProtoAccessor ==>
              GetShareValue(si, ProducerName(g, si.refConsumers[i]))
                == Some(Attr(GetAtt(ResourceOf(si.stack, si.id), ProducerName(g, si.refConsumers[i]))))
    ensures ProducerName(g, si.refConsumers[i]) == ProtoAccessor ==>
              GetShareValue(si, ProtoAccessor) == Some(Inherited(ProtoAccessor))
    ensures GetInVersions(si) == Some(GetAtt(ResourceOf(si.stack, si.id), ShareVersions))
  {
  }

  /** Adding a consumer twice is the same as adding it once. */
  lemma AddRefProducerIdempotent(g: Contracts, si: ShareIn, c: nat)
    requires ShareInOk(g, si) && c < |g.consumers|
    requires AddRefProducer(g, si, c).Ok?
    ensures AddRefProducer(g, AddRefProducer(g, si, c).value, c) == AddRefProducer(g, si, c)
  {
  }

  // ---------------------------------------------------------------- share-in keys

  /** The construct ids from the root down to environment `e`. */
  function EnverScopeIds(g: Contracts, e: nat): seq<string>
    requires WellFormed(g) && e < |g.envers|
  {
    [g.rootId, EnverBuildId(g, e), PathOf(g.envers[e].rev)]
  }

  /** The `_sharingIns` key as written: `OdmdNames.create(producer enver,
      stackName)`, the environment's construct ids and the stack name run
      together with everything non-alphanumeric dropped. */
  function ShareInKeyAsWritten(g: Contracts, e: nat, stackName: string, md5: string -> string): Result<string, Error>
    requires WellFormed(g) && e < |g.envers|
  {
    CreateName(EnverScopeIds(g, e), stackName, DefaultNameCap, md5)
  }

  /** A contracts graph with one build `app` holding branches `feature-1`
      and `feature1`. */
  function CollidingGraph(): (g: Contracts)
    ensures WellFormed(g) && |g.envers| == 2
  {
    Contracts("ondemandenv", "central", 0, [Build("app", AppBuild, [0, 1])], [0],
              [Enver(0, "acc", "us-east-1", RevRef(Branch, "feature-1", None), CdkEnver, true),
               Enver(0, "acc", "us-east-1", RevRef(Branch, "feature1", None), CdkEnver, true)],
              [], [])
  }

  /** Dropping a `-` does not change what remains after stripping. */
  lemma StripIgnoresDash(a: string, b: string, keep: char -> bool)
    requires !keep('-')
    ensures Filter(a + "-" + b, keep) == Filter(a + b, keep)
  {
    FilterAppend(a + "-", b, keep);
    FilterAppend(a, "-", keep);
    FilterAppend(a, b, keep);
  }

  /** Three ids run together. */
  lemma Join3(a: string, b: string, c: string)
    ensures Join([a, b, c], "") == a + b + c
  {
    assert [a, b, c][1..] == [b, c] && [b, c][1..] == [c];
    assert Join([b, c], "") == b + "" + c;
    assert b + "" + c == b + c && a + "" == a;
    assert a + (b + c) == a + b + c;
  }

  /** The scope ids of an environment on branch `<stem><tail>` run together
      with a stack name: the common part, then the tail and the name. */
  lemma ScopeRunTogether(root: string, build: string, stem: string, tail: string, stackName: string)
    ensures Join([root, build, SinglePath(Branch, stem + tail)], "") + stackName ==
            (root + build + ([TypeChar(Branch)] + ".." + stem)) + (tail + stackName)
  {
    Join3(root, build, SinglePath(Branch, stem + tail));
  }

  /** Two scopes whose stripped names agree and fit get the same name. */
  lemma SameStrippedSameName(ids0: seq<string>, ids1: seq<string>, v: string, md5: string -> string)
    requires Filter(Join(ids0, "") + v, KeepFor("")) == Filter(Join(ids1, "") + v, KeepFor(""))
    requires |Join(ids1, "") + v| <= DefaultNameCap
    ensures CreateName(ids0, v, DefaultNameCap, md5) == CreateName(ids1, v, DefaultNameCap, md5)
    ensures CreateName(ids0, v, DefaultNameCap, md5).Ok?
  {
  }

  /** The two environments are different, yet share one key for any stack
      name of up to 30 characters: the second consumer in that stack reading
      the other environment makes `addRefProducer` throw. */
  lemma ShareInKeyCollides(stackName: string, md5: string -> string)
    requires |stackName| <= 30
    ensures var g := CollidingGraph();
            && g.envers[0] != g.envers[1]
            && ShareInKeyAsWritten(g, 0, stackName, md5) == ShareInKeyAsWritten(g, 1, stackName, md5)
            && ShareInKeyAsWritten(g, 0, stackName, md5).Ok?
  {
    var g := CollidingGraph();
    var ids0 := EnverScopeIds(g, 0);
    var ids1 := EnverScopeIds(g, 1);
    assert EnverBuildId(g, 0) == "app" && EnverBuildId(g, 1) == "app";
    assert "feature" + "-" + "1" == "feature" + ("-" + "1");
    assert g.envers[0].rev == RevRef(Branch, "feature" + ("-" + "1"), None);
    assert PathOf(g.envers[0].rev) == SinglePath(Branch, "feature" + ("-" + "1"));
    assert PathOf(g.envers[1].rev) == SinglePath(Branch, "feature" + "1");
    assert ids0 == ["ondemandenv", "app", SinglePath(Branch, "feature" + ("-" + "1"))];
    assert ids1 == ["ondemandenv", "app", SinglePath(Branch, "feature" + "1")];
    var a := "ondemandenv" + "app" + ([TypeChar(Branch)] + ".." + "feature");
    ScopeRunTogether("ondemandenv", "app", "feature", "-" + "1", stackName);
    ScopeRunTogether("ondemandenv", "app", "feature", "1", stackName);
    assert Join(ids0, "") + stackName == a + "-" + ("1" + stackName);
    StripIgnoresDash(a, "1" + stackName, KeepFor(""));
    SameStrippedSameName(ids0, ids1, stackName, md5);
  }

  /** The key with the separators kept: build id, revision path and stack
      name joined by `/`. */
  function ShareInKey(g: Contracts, e: nat, stackName: string): string
    requires WellFormed(g) && e < |g.envers|
  {
    EnverBuildId(g, e) + "/" + PathOf(g.envers[e].rev) + "/" + stackName
  }

  /** Distinct (build id, revision, stack) triples never share a key. */
  lemma ShareInKeyInjective(g: Contracts, e1: nat, s1: string, e2: nat, s2: string)
    requires WellFormed(g) && e1 < |g.envers| && e2 < |g.envers|
    requires ValidRef(g.envers[e1].rev) && ValidRef(g.envers[e2].rev)
    requires !('/' in EnverBuildId(g, e1)) && !('/' in EnverBuildId(g, e2))
    ensures ShareInKey(g, e1, s1) == ShareInKey(g, e2, s2) <==>
              EnverBuildId(g, e1) == EnverBuildId(g, e2) && g.envers[e1].rev == g.envers[e2].rev && s1 == s2
  {
    var r1 := g.envers[e1].rev;
    var r2 := g.envers[e2].rev;
    if ShareInKey(g, e1, s1) == ShareInKey(g, e2, s2) {
      assert ShareInKey(g, e1, s1) == EnverBuildId(g, e1) + "/" + (PathOf(r1) + "/" + s1);
      assert ShareInKey(g, e2, s2) == EnverBuildId(g, e2) + "/" + (PathOf(r2) + "/" + s2);
      SplitUnique(EnverBuildId(g, e1), PathOf(r1) + "/" + s1, EnverBuildId(g, e2), PathOf(r2) + "/" + s2, '/');
      Producers.PathHasNoSlash(r1);
      Producers.PathHasNoSlash(r2);
      SplitUnique(PathOf(r1), s1, PathOf(r2), s2, '/');
      PathInjective(r1, r2);
    }
  }

  /** A batched consumer finds its producer's value: the attribute of that
      name, or the inherited prototype for `__proto__`. */
  lemma ServesConsumer(g: Contracts, si: ShareIn, c: nat)
    requires ShareInOk(g, si) && c in si.refConsumers
    ensures c < |g.consumers|
    ensures GetShareValue(si, ProducerName(g, c)) == Some(ServedValue(si, ProducerName(g, c)))
  {
    var idx :| 0 <= idx < |si.refConsumers| && si.refConsumers[idx] == c;
    ShareInServesItsConsumers(g, si, idx);
  }

  /** What a share-in hands a consumer of producer `name`: the attribute
      of its custom resource, or the prototype the ignored `__proto__`
      assignment leaves in place. */
  function ServedValue(si: ShareIn, name: string): RtValue {
    if name == ProtoAccessor then Inherited(ProtoAccessor) else Attr(GetAtt(ResourceOf(si.stack, si.id), name))
  }

  /** The share-in for key `key` once consumer `c` is in it. */
  function ShareInFor(g: Contracts, sharingIns: map<string, ShareIn>, key: string, c: nat, stack: string)
    : (r: Result<ShareIn, Error>)
    requires WellFormed(g) && c < |g.consumers|
    requires key in sharingIns ==> ShareInOk(g, sharingIns[key])
    ensures r.Ok? ==> ShareInOk(g, r.value) && c in r.value.refConsumers && r.value.producerEnver == SourceEnver(g, c)
    ensures key !in sharingIns ==> r.Ok? && r.value.stack == stack
    ensures key in sharingIns && r.Ok? ==> r.value.stack == sharingIns[key].stack
    ensures key in sharingIns ==> (r.Ok? <==> SourceEnver(g, c) == sharingIns[key].producerEnver)
    ensures r.Err? ==> r.error == ShareInMultiEnver
  {
    if key !in sharingIns then NewShareIn(g, stack, EnverBuildId(g, g.consumers[c].enver), [c])
    else AddRefProducer(g, sharingIns[key], c)
  }

  /** `getSharedValue(stack)` for consumer `c`: the share-in under the key
      for (producing environment, stack) is created or widened, and the
      value is its attribute for the producer's name. */
  function GetSharedValue(g: Contracts, sharingIns: map<string, ShareIn>, c: nat, stack: string)
    : (r: Result<(map<string, ShareIn>, RtValue), Error>)
    requires WellFormed(g) && c < |g.consumers|
    requires forall k | k in sharingIns :: ShareInOk(g, sharingIns[k])
    ensures r.Ok? ==> var key := ShareInKey(g, SourceEnver(g, c), stack);
                      && key in r.value.0 && ShareInOk(g, r.value.0[key])
                      && c in r.value.0[key].refConsumers
                      && r.value.0[key].producerEnver == SourceEnver(g, c)
                      && r.value.1 == ServedValue(r.value.0[key], ProducerName(g, c))
                      && (key !in sharingIns ==> r.value.0[key].stack == stack)
                      && (key in sharingIns ==> r.value.0[key].stack == sharingIns[key].stack)
    ensures r.Ok? ==> forall k | k in r.value.0 :: ShareInOk(g, r.value.0[k])
    ensures r.Ok? ==> r.value.0.Keys == sharingIns.Keys + {ShareInKey(g, SourceEnver(g, c), stack)}
    ensures r.Ok? ==> forall k | k in sharingIns && k != ShareInKey(g, SourceEnver(g, c), stack) ::
                        r.value.0[k] == sharingIns[k]
    ensures ShareInKey(g, SourceEnver(g, c), stack) !in sharingIns ==> r.Ok?
    ensures r.Err? ==> r.error == ShareInMultiEnver
  {
    var key := ShareInKey(g, SourceEnver(g, c), stack);
    var si :- ShareInFor(g, sharingIns, key, c, stack);
    ServesConsumer(g, si, c);
    Ok((Put(g, sharingIns, key, si), GetShareValue(si, ProducerName(g, c)).value))
  }

  /** Stores a share-in under a key, keeping every other entry. */
  function Put(g: Contracts, sharingIns: map<string, ShareIn>, key: string, si: ShareIn): (r: map<string, ShareIn>)
    requires forall k | k in sharingIns :: ShareInOk(g, sharingIns[k])
    requires ShareInOk(g, si)
    ensures key in r && r[key] == si
    ensures r.Keys == sharingIns.Keys + {key}
    ensures forall k | k in sharingIns && k != key :: r[k] == sharingIns[k]
    ensures forall k | k in r :: ShareInOk(g, r[k])
  {
    sharingIns[key := si]
  }

  /** Every share-in sits under the key of its own environment and stack. */
  predicate Keyed(g: Contracts, sharingIns: map<string, ShareIn>)
    requires WellFormed(g)
  {
    forall k | k in sharingIns :: sharingIns[k].producerEnver < |g.envers|
      && k == ShareInKey(g, sharingIns[k].producerEnver, sharingIns[k].stack)
  }

  /** No two environments have the same build id and revision. */
  predicate DistinctEnvers(g: Contracts)
    requires WellFormed(g)
  {
    forall e1, e2 | 0 <= e1 < |g.envers| && 0 <= e2 < |g.envers| ::
      EnverBuildId(g, e1) == EnverBuildId(g, e2) && g.envers[e1].rev == g.envers[e2].rev ==> e1 == e2
  }

  /** With the separated key, looking up a shared value never mixes two
      environments in one share-in: it always succeeds. */
  lemma GetSharedValueNeverMixes(g: Contracts, sharingIns: map<string, ShareIn>, c: nat, stack: string)
    requires WellFormed(g) && c < |g.consumers| && DistinctEnvers(g)
    requires forall e | 0 <= e < |g.envers| :: ValidRef(g.envers[e].rev) && !('/' in EnverBuildId(g, e))
    requires forall k | k in sharingIns :: ShareInOk(g, sharingIns[k])
    requires Keyed(g, sharingIns)
    ensures GetSharedValue(g, sharingIns, c, stack).Ok?
  {
    var e := SourceEnver(g, c);
    var key := ShareInKey(g, e, stack);
    if key in sharingIns {
      var si := sharingIns[key];
      ShareInKeyInjective(g, e, stack, si.producerEnver, si.stack);
      assert si.producerEnver == e;
    }
  }

  /** ... and the share-in map stays keyed by environment and stack. */
  lemma GetSharedValueKeepsKeyed(g: Contracts, sharingIns: map<string, ShareIn>, c: nat, stack: string)
    requires WellFormed(g) && c < |g.consumers| && DistinctEnvers(g)
    requires forall e | 0 <= e < |g.envers| :: ValidRef(g.envers[e].rev) && !('/' in EnverBuildId(g, e))
    requires forall k | k in sharingIns :: ShareInOk(g, sharingIns[k])
    requires Keyed(g, sharingIns)
    ensures GetSharedValue(g, sharingIns, c, stack).Ok? && Keyed(g, GetSharedValue(g, sharingIns, c, stack).value.0)
  {
    GetSharedValueNeverMixes(g, sharingIns, c, stack);
    var key := ShareInKey(g, SourceEnver(g, c), stack);
    var m := GetSharedValue(g, sharingIns, c, stack).value.0;
    forall k | k in m ensures m[k].producerEnver < |g.envers| && k == ShareInKey(g, m[k].producerEnver, m[k].stack) {
      if k != key {
        assert m[k] == sharingIns[k];
      }
    }
  }

  // ---------------------------------------------------------------- share-out

  /** `OdmdShareOut`: its construct id, the producing environment, and the
      properties handed to the custom resource. */
  datatype ShareOut = ShareOut(id: string, producingEnver: nat, properties: map<string, string>, outVersions: AttToken)

  function OutName(g: Contracts, kv: (nat, string)): string
    requires kv.0 < |g.producers|
  {
    g.producers[kv.0].name
  }

  predicate ValidProducers(g: Contracts, refToVal: seq<(nat, string)>) {
    forall i | 0 <= i < |refToVal| :: refToVal[i].0 < |g.producers|
  }

  /** A JavaScript `Map`'s keys are distinct. */
  predicate DistinctKeys<K(==), V>(kvs: seq<(K, V)>) {
    forall i, j | 0 <= i < j < |kvs| :: kvs[i].0 != kvs[j].0
  }

  /** `properties[name] = value` for every producer, in order. */
  function NamedValues(g: Contracts, refToVal: seq<(nat, string)>): (m: map<string, string>)
    requires ValidProducers(g, refToVal)
    ensures forall k | k in m :: exists i | 0 <= i < |refToVal| :: k == OutName(g, refToVal[i])
    ensures forall i | 0 <= i < |refToVal| :: OutName(g, refToVal[i]) in m
    decreases |refToVal|
  {
    if |refToVal| == 0 then map[]
    else
      var last := refToVal[|refToVal| - 1];
      NamedValues(g, refToVal[..|refToVal| - 1])[OutName(g, last) := last.1]
  }

  lemma {:induction false} NamedValuesAt(g: Contracts, refToVal: seq<(nat, string)>, i: nat)
    requires ValidProducers(g, refToVal) && i < |refToVal|
    requires forall a, b | 0 <= a < b < |refToVal| :: OutName(g, refToVal[a]) != OutName(g, refToVal[b])
    ensures NamedValues(g, refToVal)[OutName(g, refToVal[i])] == refToVal[i].1
    decreases |refToVal|
  {
    if i < |refToVal| - 1 {
      var init := refToVal[..|refToVal| - 1];
      assert init[i] == refToVal[i];
      NamedValuesAt(g, init, i);
    }
  }

  /** When `new OdmdShareOut` accepts its arguments: something to share,
      not in the central account, `ODMD_rev_ref` set, every producer in the
      environment `enverRef` names, one environment, no `ServiceToken`, no
      repeated name, no `ODMD_rev_ref` prefix, and no name the properties
      object `{}` already answers (an inherited `Object.prototype` member is
      truthy, so the "already used" check fires for it). */
  predicate ShareOutAccepts(g: Contracts, stackAccount: string, refToVal: seq<(nat, string)>,
                            enverRef: Option<string>, revRefEnv: Option<string>)
    requires WellFormed(g) && ValidProducers(g, refToVal)
  {
    && |refToVal| > 0
    && stackAccount != g.centralAccount
    && EnvSet(revRefEnv)
    && enverRef.Some?
    && (forall i | 0 <= i < |refToVal| :: PathOf(g.envers[ProducerEnver(g, refToVal[i].0)].rev) == enverRef.value)
    && (forall i | 0 <= i < |refToVal| :: ProducerEnver(g, refToVal[i].0) == ProducerEnver(g, refToVal[0].0))
    && (forall i | 0 <= i < |refToVal| :: OutName(g, refToVal[i]) != ServiceTokenName)
    && (forall i, j | 0 <= i < j < |refToVal| :: OutName(g, refToVal[i]) != OutName(g, refToVal[j]))
    && (forall i | 0 <= i < |refToVal| :: !StartsWith(OutName(g, refToVal[i]), RevRefName))
    && (forall i | 0 <= i < |refToVal| :: OutName(g, refToVal[i]) !in ObjectProtoKeys)
  }

  /** The constructor's checks, in the order it makes them. */
  function ShareOutCheck(g: Contracts, stackAccount: string, refToVal: seq<(nat, string)>,
                         enverRef: Option<string>, revRefEnv: Option<string>): (r: Outcome<Error>)
    requires WellFormed(g) && ValidProducers(g, refToVal)
    ensures r.Pass? <==> ShareOutAccepts(g, stackAccount, refToVal, enverRef, revRefEnv)
    ensures r == Fail(ShareOutEmpty) <==> |refToVal| == 0
    ensures r == Fail(ShareOutFromCentral) <==> |refToVal| > 0 && stackAccount == g.centralAccount
    ensures r == Fail(ShareOutNameInUse) ==> exists i | 0 <= i < |refToVal| :: OutName(g, refToVal[i]) in ObjectProtoKeys
  {
    if |refToVal| == 0 then Fail(ShareOutEmpty)
    else if stackAccount == g.centralAccount then Fail(ShareOutFromCentral)
    else if !EnvSet(revRefEnv) then Fail(ShareOutRevRefUnset)
    else if enverRef.None? || exists i | 0 <= i < |refToVal| :: PathOf(g.envers[ProducerEnver(g, refToVal[i].0)].rev) != enverRef.value then
      Fail(ShareOutEnverMismatch)
    else if exists i | 0 <= i < |refToVal| :: ProducerEnver(g, refToVal[i].0) != ProducerEnver(g, refToVal[0].0) then
      Fail(ShareOutMultiEnver)
    else if exists i | 0 <= i < |refToVal| :: OutName(g, refToVal[i]) == ServiceTokenName then Fail(ShareOutServiceToken)
    else if exists i, j | 0 <= i < j < |refToVal| :: OutName(g, refToVal[i]) == OutName(g, refToVal[j]) then
      Fail(ShareOutDuplicateName)
    else if exists i | 0 <= i < |refToVal| :: StartsWith(OutName(g, refToVal[i]), RevRefName) then Fail(ShareOutReservedPrefix)
    else if exists i | 0 <= i < |refToVal| :: OutName(g, refToVal[i]) in ObjectProtoKeys then Fail(ShareOutNameInUse)
    else Pass
  }

  /** The reserved key and its `...` variant both start with `ODMD_rev_ref`. */
  lemma ReservedKeysStartWithPrefix()
    ensures StartsWith(RevRefName, RevRefName) && StartsWith(RevRefName + "...", RevRefName)
  {
    assert (RevRefName + "...")[..|RevRefName|] == RevRefName;
  }

  /** The custom resource's properties: each producer's value under its
      name, the revision path under `ODMD_rev_ref`, the stack id under
      `ODMD_rev_ref...`. */
  function ShareOutProperties(g: Contracts, refToVal: seq<(nat, string)>, revPath: string, stackId: string)
    : (m: map<string, string>)
    requires ValidProducers(g, refToVal)
    requires forall i, j | 0 <= i < j < |refToVal| :: OutName(g, refToVal[i]) != OutName(g, refToVal[j])
    requires forall i | 0 <= i < |refToVal| :: !StartsWith(OutName(g, refToVal[i]), RevRefName)
    ensures forall i | 0 <= i < |refToVal| :: OutName(g, refToVal[i]) in m && m[OutName(g, refToVal[i])] == refToVal[i].1
    ensures RevRefName in m && m[RevRefName] == revPath
    ensures RevRefName + "..." in m && m[RevRefName + "..."] == stackId
    ensures forall k | k in m :: k == RevRefName || k == RevRefName + "..." || exists i | 0 <= i < |refToVal| :: k == OutName(g, refToVal[i])
  {
    var named := NamedValues(g, refToVal);
    var props := WithReserved(named, revPath, stackId);
    forall i | 0 <= i < |refToVal| ensures props[OutName(g, refToVal[i])] == refToVal[i].1 {
      NamedValuesAt(g, refToVal, i);
    }
    props
  }

  /** Adds the two reserved entries to the named values. */
  function WithReserved(named: map<string, string>, revPath: string, stackId: string): (m: map<string, string>)
    ensures m.Keys == named.Keys + {RevRefName, RevRefName + "..."}
    ensures m[RevRefName] == revPath && m[RevRefName + "..."] == stackId
    ensures forall k | k in named && !StartsWith(k, RevRefName) :: m[k] == named[k]
  {
    ReservedKeysStartWithPrefix();
    named[RevRefName := revPath][RevRefName + "..." := stackId]
  }

  /** `new OdmdShareOut(stack, refToVal, enverRef)`. */
  function NewShareOut(g: Contracts, stackAccount: string, stackId: string, refToVal: seq<(nat, string)>,
                       enverRef: Option<string>, revRefEnv: Option<string>): (r: Result<ShareOut, Error>)
    requires WellFormed(g) && ValidProducers(g, refToVal) && DistinctKeys(refToVal)
    ensures r.Ok? <==> ShareOutAccepts(g, stackAccount, refToVal, enverRef, revRefEnv)
    ensures r == Err(ShareOutEmpty) <==> |refToVal| == 0
    ensures r.Ok? ==> r.value.producingEnver == ProducerEnver(g, refToVal[0].0)
    ensures r.Ok? ==> forall i | 0 <= i < |refToVal| ::
                        OutName(g, refToVal[i]) in r.value.properties && r.value.properties[OutName(g, refToVal[i])] == refToVal[i].1
    ensures r.Ok? ==> RevRefName in r.value.properties && RevRefName + "..." in r.value.properties
    ensures r.Ok? ==> r.value.properties[RevRefName] == PathOf(g.envers[r.value.producingEnver].rev)
                      && r.value.properties[RevRefName + "..."] == stackId
    ensures r.Ok? ==> |r.value.properties| == |refToVal| + 2
  {
    match ShareOutCheck(g, stackAccount, refToVal, enverRef, revRefEnv)
    case Fail(e) => Err(e)
    case Pass =>
      var enver := ProducerEnver(g, refToVal[0].0);
      var props := ShareOutProperties(g, refToVal, PathOf(g.envers[enver].rev), stackId);
      ShareOutPropertyCount(g, refToVal, PathOf(g.envers[enver].rev), stackId);
      var id := "odmd-share-out_" + enverRef.value;
      Ok(ShareOut(id, enver, props, GetAtt(stackId + "/" + id + "/share-values", ShareVersions)))
  }

  /** With distinct names, `NamedValues` keeps one entry per producer. */
  lemma {:induction false} NamedValuesCount(g: Contracts, refToVal: seq<(nat, string)>)
    requires ValidProducers(g, refToVal)
    requires forall i, j | 0 <= i < j < |refToVal| :: OutName(g, refToVal[i]) != OutName(g, refToVal[j])
    ensures |NamedValues(g, refToVal)| == |refToVal|
    decreases |refToVal|
  {
    if |refToVal| > 0 {
      var init := refToVal[..|refToVal| - 1];
      var last := refToVal[|refToVal| - 1];
      NamedValuesCount(g, init);
      assert forall i | 0 <= i < |init| :: init[i] == refToVal[i];
      assert OutName(g, last) !in NamedValues(g, init);
    }
  }

  /** The properties hold exactly one entry per producer and the two
      reserved entries. */
  lemma ShareOutPropertyCount(g: Contracts, refToVal: seq<(nat, string)>, revPath: string, stackId: string)
    requires ValidProducers(g, refToVal)
    requires forall i, j | 0 <= i < j < |refToVal| :: OutName(g, refToVal[i]) != OutName(g, refToVal[j])
    requires forall i | 0 <= i < |refToVal| :: !StartsWith(OutName(g, refToVal[i]), RevRefName)
    ensures |ShareOutProperties(g, refToVal, revPath, stackId)| == |refToVal| + 2
  {
    var named := NamedValues(g, refToVal);
    NamedValuesCount(g, refToVal);
    ReservedKeysStartWithPrefix();
    assert RevRefName !in named;
    assert RevRefName + "..." !in named;
    assert RevRefName != RevRefName + "...";
  }

  /** A sequence of distinct elements has as many elements as its set. */
  lemma {:induction false} DistinctSeqCard<T>(s: seq<T>)
    requires forall i, j | 0 <= i < j < |s| :: s[i] != s[j]
    ensures |set i | 0 <= i < |s| :: s[i]| == |s|
    decreases |s|
  {
    if |s| > 0 {
      var init := s[..|s| - 1];
      DistinctSeqCard(init);
      var a := set i | 0 <= i < |init| :: init[i];
      var b := set i | 0 <= i < |s| :: s[i];
      assert b == a + {s[|s| - 1]};
      assert s[|s| - 1] !in a;
    }
  }

  /** `OdmdShareOut.validate`: no environment may own two share-outs. */
  method ValidateShareOuts(owners: seq<nat>) returns (r: Outcome<Error>)
    ensures r.Pass? <==> forall i, j | 0 <= i < j < |owners| :: owners[i] != owners[j]
    ensures r.Fail? ==> r.error == MultipleShareOuts
  {
    var seen: set<nat> := {};
    var k := 0;
    while k < |owners|
      invariant 0 <= k <= |owners|
      invariant seen == set i | 0 <= i < k :: owners[i]
      invariant forall i, j | 0 <= i < j < k :: owners[i] != owners[j]
    {
      if owners[k] in seen {
        var i :| 0 <= i < k && owners[i] == owners[k];
        return Fail(MultipleShareOuts);
      }
      seen := seen + {owners[k]};
      k := k + 1;
    }
    return Pass;
  }
}
