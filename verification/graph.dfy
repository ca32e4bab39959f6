/** The contracts graph: builds, their environments ("envers"), the
    producers each environment publishes and the consumers that read them.

    Objects are arena entries addressed by index, so object identity (which
    the source compares with `==`) is index equality. Construct paths are
    `<root id>/<build id>/<revision path>/<child id>`. */
module Graph {
  import opened Wrappers
  import opened Errors
  import opened Strings
  import opened RevRefs
  import opened Producers

  /** The build classes the graph rules tell apart. */
  datatype BuildKind = ContractsLibBuild | NetworkingBuild | VpcRdsBuild | KubeEksBuild | UserAuthBuild | AppBuild

  /** The environment classes the graph rules tell apart; a user-auth
      environment carries its callback and logout URL consumers. */
  datatype EnverKind =
    | CdkEnver
    | CtnImgEnver
    | UserAuthEnver(callbackUrls: seq<nat>, logoutUrls: seq<nat>)
    | PlainEnver

  datatype AlarmLevel = Email | IM | Phone

  /** `RefConsumerOption.trigger`. */
  datatype Trigger = NoTrigger | Directly | Approval(approvalRoles: seq<string>, alarmLevel: AlarmLevel)

  /** `RefConsumerOption`; `defaultIfAbsent` may be left undefined. */
  datatype ConsumerOptions = ConsumerOptions(defaultIfAbsent: Option<string>, trigger: Trigger)

  /** The options a consumer gets when none are given. */
  const DefaultOptions: ConsumerOptions := ConsumerOptions(Some("-"), Directly)

  datatype Build = Build(id: string, kind: BuildKind, envers: seq<nat>)

  datatype Enver = Enver(build: nat, account: string, region: string, rev: RevRef, kind: EnverKind, ephemeral: bool)

  datatype Producer = Producer(enver: nat, id: string, name: string)

  datatype Consumer = Consumer(enver: nat, id: string, producer: nat, options: ConsumerOptions)

  /** `OndemandContracts`: the construct root, the central account, the
      contracts-library build, every build object, the `_builds` registry in
      registration order, and the arenas. */
  datatype Contracts = Contracts(
    rootId: string,
    centralAccount: string,
    contractsLib: nat,
    builds: seq<Build>,
    registry: seq<nat>,
    envers: seq<Enver>,
    producers: seq<Producer>,
    consumers: seq<Consumer>)

  /** Every index points into its arena and every environment is listed by
      the build that owns it. */
  predicate WellFormed(g: Contracts) {
    && g.contractsLib < |g.builds|
    && (forall i | 0 <= i < |g.registry| :: g.registry[i] < |g.builds|)
    && (forall b, i | 0 <= b < |g.builds| && 0 <= i < |g.builds[b].envers| ::
          g.builds[b].envers[i] < |g.envers| && g.envers[g.builds[b].envers[i]].build == b)
    && (forall e | 0 <= e < |g.envers| :: EnverOk(g, g.envers[e]))
    && (forall p | 0 <= p < |g.producers| :: g.producers[p].enver < |g.envers|)
    && (forall c | 0 <= c < |g.consumers| :: ConsumerOk(g, g.consumers[c]))
  }

  predicate EnverOk(g: Contracts, en: Enver) {
    && en.build < |g.builds|
    && (en.kind.UserAuthEnver? ==>
          (forall i | 0 <= i < |en.kind.callbackUrls| :: en.kind.callbackUrls[i] < |g.consumers|)
          && (forall i | 0 <= i < |en.kind.logoutUrls| :: en.kind.logoutUrls[i] < |g.consumers|))
  }

  predicate ConsumerOk(g: Contracts, c: Consumer) {
    c.enver < |g.envers| && c.producer < |g.producers|
  }

  // ---------------------------------------------------------------- derived views

  /** The build id of the build owning environment `e`. */
  function EnverBuildId(g: Contracts, e: nat): string
    requires WellFormed(g) && e < |g.envers|
  {
    g.builds[g.envers[e].build].id
  }

  /** The environment that owns producer `p`. */
  function ProducerEnver(g: Contracts, p: nat): nat
    requires WellFormed(g) && p < |g.producers|
  {
    g.producers[p].enver
  }

  /** `producer.consumers`: the consumers registered on producer `p`. */
  function ConsumersOf(g: Contracts, p: nat): set<nat> {
    set c | 0 <= c < |g.consumers| && g.consumers[c].producer == p
  }

  /** The consumers created inside environment `e`. */
  function ConsumersIn(g: Contracts, e: nat): set<nat> {
    set c | 0 <= c < |g.consumers| && g.consumers[c].enver == e
  }

  function BuildPath(g: Contracts, b: nat): string
    requires b < |g.builds|
  {
    g.rootId + "/" + g.builds[b].id
  }

  /** An environment's construct path; its construct id is its revision path. */
  function EnverNodePath(g: Contracts, e: nat): string
    requires WellFormed(g) && e < |g.envers|
  {
    BuildPath(g, g.envers[e].build) + "/" + PathOf(g.envers[e].rev)
  }

  function ConsumerPath(g: Contracts, c: nat): string
    requires WellFormed(g) && c < |g.consumers|
  {
    EnverNodePath(g, g.consumers[c].enver) + "/" + g.consumers[c].id
  }

  // ---------------------------------------------------------------- graph invariants

  /** Every edge crosses a build boundary (by build id). */
  predicate CrossBuildEdges(g: Contracts)
    requires WellFormed(g)
  {
    forall c | 0 <= c < |g.consumers| ::
      EnverBuildId(g, g.consumers[c].enver) != EnverBuildId(g, ProducerEnver(g, g.consumers[c].producer))
  }

  /** The contracts library only produces. */
  predicate ContractsLibConsumesNothing(g: Contracts)
    requires WellFormed(g)
  {
    forall c | 0 <= c < |g.consumers| :: g.envers[g.consumers[c].enver].build != g.contractsLib
  }

  // ---------------------------------------------------------------- building the graph

  /** Adds a build with no environments; `_builds` registration happens in
      the build constructor, so the build joins the registry too. */
  function AddBuild(g: Contracts, id: string, kind: BuildKind): (r: (Contracts, nat))
    requires WellFormed(g)
    ensures WellFormed(r.0) && r.1 == |g.builds|
    ensures r.0.builds == g.builds + [Build(id, kind, [])]
    ensures r.0.registry == g.registry + [r.1]
    ensures r.0.envers == g.envers && r.0.producers == g.producers && r.0.consumers == g.consumers
  {
    (g.(builds := g.builds + [Build(id, kind, [])], registry := g.registry + [|g.builds|]), |g.builds|)
  }

  /** A newly constructed environment has no user-auth URL consumers yet. */
  predicate NoUrlsYet(k: EnverKind) {
    k.UserAuthEnver? ==> k.callbackUrls == [] && k.logoutUrls == []
  }

  /** Constructs an environment of build `b` and pushes it onto the build's
      `envers`. */
  function AddEnver(g: Contracts, b: nat, account: string, region: string, rev: RevRef, kind: EnverKind, ephemeral: bool): (r: (Contracts, nat))
    requires WellFormed(g) && b < |g.builds|
    requires NoUrlsYet(kind)
    ensures WellFormed(r.0) && r.1 == |g.envers|
    ensures r.0.envers == g.envers + [Enver(b, account, region, rev, kind, ephemeral)]
    ensures |r.0.builds| == |g.builds|
    ensures r.0.builds[b].envers == g.builds[b].envers + [r.1]
    ensures forall b' | 0 <= b' < |g.builds| && b' != b :: r.0.builds[b'] == g.builds[b']
    ensures forall b' | 0 <= b' < |g.builds| :: r.0.builds[b'].id == g.builds[b'].id && r.0.builds[b'].kind == g.builds[b'].kind
    ensures r.0.registry == g.registry && r.0.producers == g.producers && r.0.consumers == g.consumers
    ensures r.0.contractsLib == g.contractsLib && r.0.rootId == g.rootId
  {
    var e := |g.envers|;
    var bl := g.builds[b];
    var g' := g.(envers := g.envers + [Enver(b, account, region, rev, kind, ephemeral)],
                 builds := g.builds[b := bl.(envers := bl.envers + [e])]);
    (g', e)
  }

  /** `new OdmdCrossRefProducer(enver, id, props)` as arena entries: the
      producer and its descendants in construction (pre-)order. */
  function AddProducer(g: Contracts, e: nat, id: string, props: ProducerProps): (r: Result<(Contracts, nat), Error>)
    requires WellFormed(g) && e < |g.envers|
    ensures r.Ok? <==> SegmentsOk(id, props)
    ensures r.Ok? ==> WellFormed(r.value.0) && r.value.1 == |g.producers|
    ensures r.Ok? ==> |r.value.0.producers| > |g.producers| && r.value.0.producers[..|g.producers|] == g.producers
    ensures r.Ok? ==> r.value.0.producers[r.value.1] == Producer(e, id, Segment(id, props))
    ensures r.Ok? ==> forall q | |g.producers| <= q < |r.value.0.producers| :: r.value.0.producers[q].enver == e
    ensures r.Ok? ==> r.value.0 == g.(producers := r.value.0.producers)
  {
    var t :- NewProducer(id, props, None);
    var flat := Flatten(t);
    var g' := g.(producers := g.producers + seq(|flat|, i requires 0 <= i < |flat| => Producer(e, flat[i].0, flat[i].1)));
    Ok((g', |g.producers|))
  }

  /** The (id, name) pairs of a producer tree in pre-order. */
  function Flatten(t: ProducerTree): (r: seq<(string, string)>)
    ensures |r| >= 1 && r[0] == (t.id, t.name)
    decreases t, 1
  {
    [(t.id, t.name)] + FlattenAll(t.children, 0)
  }

  function FlattenAll(ts: seq<ProducerTree>, i: nat): seq<(string, string)>
    requires i <= |ts|
    decreases ts, 0, |ts| - i
  {
    if i == |ts| then [] else Flatten(ts[i]) + FlattenAll(ts, i + 1)
  }

  /** `new OdmdCrossRefConsumer(enver, id, producer, options)`: consuming
      from a producer of the same build id, or consuming in the contracts
      library, is rejected; otherwise the consumer is registered on the
      producer. */
  function NewConsumer(g: Contracts, e: nat, id: string, p: nat, options: ConsumerOptions): (r: Result<(Contracts, nat), Error>)
    requires WellFormed(g) && e < |g.envers| && p < |g.producers|
    ensures r.Ok? <==> EnverBuildId(g, ProducerEnver(g, p)) != EnverBuildId(g, e) && g.envers[e].build != g.contractsLib
    ensures r == Err(SameBuildConsumption) <==> EnverBuildId(g, ProducerEnver(g, p)) == EnverBuildId(g, e)
    ensures r.Err? ==> r.error == SameBuildConsumption || r.error == ContractsLibConsumes
    ensures r.Ok? ==> WellFormed(r.value.0) && r.value.1 == |g.consumers|
    ensures r.Ok? ==> r.value.0.consumers == g.consumers + [Consumer(e, id, p, options)]
    ensures r.Ok? ==> r.value.0 == g.(consumers := r.value.0.consumers)
  {
    if EnverBuildId(g, ProducerEnver(g, p)) == EnverBuildId(g, e) then Err(SameBuildConsumption)
    else if g.envers[e].build == g.contractsLib then Err(ContractsLibConsumes)
    else
      var g' := g.(consumers := g.consumers + [Consumer(e, id, p, options)]);
      assert WellFormed(g') by {
        forall e' | 0 <= e' < |g'.envers| ensures EnverOk(g', g'.envers[e']) {
          assert EnverOk(g, g.envers[e']);
        }
      }
      Ok((g', |g.consumers|))
  }

  /** The new consumer is registered on its producer and on no other. */
  lemma NewConsumerRegisters(g: Contracts, e: nat, id: string, p: nat, options: ConsumerOptions)
    requires WellFormed(g) && e < |g.envers| && p < |g.producers|
    requires NewConsumer(g, e, id, p, options).Ok?
    ensures var (g', c) := NewConsumer(g, e, id, p, options).value;
            && ConsumersOf(g', p) == ConsumersOf(g, p) + {c}
            && forall q :: q != p ==> ConsumersOf(g', q) == ConsumersOf(g, q)
  {
  }

  /** Adding a consumer keeps every edge cross-build and keeps the contracts
      library free of consumers. */
  lemma NewConsumerKeepsInvariants(g: Contracts, e: nat, id: string, p: nat, options: ConsumerOptions)
    requires WellFormed(g) && e < |g.envers| && p < |g.producers|
    requires CrossBuildEdges(g) && ContractsLibConsumesNothing(g)
    requires NewConsumer(g, e, id, p, options).Ok?
    ensures CrossBuildEdges(NewConsumer(g, e, id, p, options).value.0)
    ensures ContractsLibConsumesNothing(NewConsumer(g, e, id, p, options).value.0)
  {
    var g' := NewConsumer(g, e, id, p, options).value.0;
    forall c | 0 <= c < |g'.consumers|
      ensures EnverBuildId(g', g'.consumers[c].enver) != EnverBuildId(g', ProducerEnver(g', g'.consumers[c].producer))
      ensures g'.envers[g'.consumers[c].enver].build != g'.contractsLib
    {
      if c < |g.consumers| {
        assert g'.consumers[c] == g.consumers[c];
      }
    }
  }

  /** Adding builds, environments and producers adds no consumer. */
  lemma GrowthKeepsInvariants(g: Contracts, g': Contracts)
    requires WellFormed(g) && WellFormed(g')
    requires CrossBuildEdges(g) && ContractsLibConsumesNothing(g)
    requires g'.consumers == g.consumers && g'.contractsLib == g.contractsLib
    requires g.envers <= g'.envers && g.producers <= g'.producers
    requires |g.builds| <= |g'.builds|
    requires forall b | 0 <= b < |g.builds| :: g'.builds[b].id == g.builds[b].id
    ensures CrossBuildEdges(g') && ContractsLibConsumesNothing(g')
  {
    forall c | 0 <= c < |g'.consumers|
      ensures EnverBuildId(g', g'.consumers[c].enver) != EnverBuildId(g', ProducerEnver(g', g'.consumers[c].producer))
    {
      var cc := g.consumers[c];
      assert g'.envers[cc.enver] == g.envers[cc.enver];
      assert g'.producers[cc.producer] == g.producers[cc.producer];
      assert g'.envers[g'.producers[cc.producer].enver] == g.envers[g.producers[cc.producer].enver];
    }
  }

  // ---------------------------------------------------------------- consumer tokens

  /** `OdmdCrossRefConsumer.OdmdRef_prefix`. */
  const RefPrefix: string := "OdmdRefConsumer: "

  /** `toOdmdRef`: `OdmdRefConsumer: ${<consumer path>}`. */
  function ToOdmdRef(g: Contracts, c: nat): (r: string)
    requires WellFormed(g) && c < |g.consumers|
    ensures StartsWith(r, RefPrefix + "${") && EndsWith(r, "}")
  {
    RefPrefix + "${" + ConsumerPath(g, c) + "}"
  }

  /** The consumer path inside a token: what follows the prefix, up to the
      first `}`; `substring(0, -1)` makes it empty when there is no `}`. */
  function TokenTarget(s: string): (r: string)
    requires StartsWith(s, RefPrefix + "${")
    ensures !('}' in r)
  {
    var tmp := s[|RefPrefix| + 2..];
    match FindChar(tmp, '}')
    case None => ""
    case Some(k) => tmp[..k]
  }

  /** A construct `node.findAll()` visits under a build: the build itself,
      its environments, and their producers and consumers. */
  datatype Node = BuildNode(b: nat) | EnverNode(e: nat) | ProducerNode(p: nat) | ConsumerNode(c: nat)

  /** The node's index points into its arena. */
  predicate NodeOk(g: Contracts, n: Node) {
    match n
    case BuildNode(b) => b < |g.builds|
    case EnverNode(e) => e < |g.envers|
    case ProducerNode(p) => p < |g.producers|
    case ConsumerNode(c) => c < |g.consumers|
  }

  /** The build whose construct subtree holds the node. */
  function NodeBuild(g: Contracts, n: Node): nat
    requires WellFormed(g) && NodeOk(g, n)
  {
    match n
    case BuildNode(b) => b
    case EnverNode(e) => g.envers[e].build
    case ProducerNode(p) => g.envers[g.producers[p].enver].build
    case ConsumerNode(c) => g.envers[g.consumers[c].enver].build
  }

  /** A producer's construct path: it is a child of its environment. */
  function ProducerPath(g: Contracts, p: nat): string
    requires WellFormed(g) && p < |g.producers|
  {
    EnverNodePath(g, g.producers[p].enver) + "/" + g.producers[p].id
  }

  /** The node's construct path. */
  function NodePath(g: Contracts, n: Node): (r: string)
    requires WellFormed(g) && NodeOk(g, n)
    ensures |r| > 0
  {
    match n
    case BuildNode(b) => BuildPath(g, b)
    case EnverNode(e) => EnverNodePath(g, e)
    case ProducerNode(p) => ProducerPath(g, p)
    case ConsumerNode(c) => ConsumerPath(g, c)
  }

  /** The producers of environment `e` from index `p` on, in creation order. */
  function ProducerNodes(g: Contracts, e: nat, p: nat): (r: seq<Node>)
    ensures forall n :: n in r <==> n.ProducerNode? && p <= n.p < |g.producers| && g.producers[n.p].enver == e
    decreases |g.producers| - p
  {
    if p >= |g.producers| then []
    else (if g.producers[p].enver == e then [ProducerNode(p)] else []) + ProducerNodes(g, e, p + 1)
  }

  /** The consumers of environment `e` from index `c` on, in creation order. */
  function ConsumerNodes(g: Contracts, e: nat, c: nat): (r: seq<Node>)
    ensures forall n :: n in r <==> n.ConsumerNode? && c <= n.c < |g.consumers| && g.consumers[n.c].enver == e
    decreases |g.consumers| - c
  {
    if c >= |g.consumers| then []
    else (if g.consumers[c].enver == e then [ConsumerNode(c)] else []) + ConsumerNodes(g, e, c + 1)
  }

  /** An environment's subtree in preorder: the environment, then its
      producers, then its consumers. */
  function EnverWalk(g: Contracts, e: nat): (r: seq<Node>)
    ensures |r| > 0 && r[0] == EnverNode(e)
    ensures forall n :: n in r <==> (|| n == EnverNode(e)
                                    || (n.ProducerNode? && n.p < |g.producers| && g.producers[n.p].enver == e)
                                    || (n.ConsumerNode? && n.c < |g.consumers| && g.consumers[n.c].enver == e))
  {
    [EnverNode(e)] + ProducerNodes(g, e, 0) + ConsumerNodes(g, e, 0)
  }

  /** The subtrees of the environments of build `b` from index `e` on. */
  function EnverWalks(g: Contracts, b: nat, e: nat): (r: seq<Node>)
    requires WellFormed(g)
    ensures forall n :: n in r ==> NodeOk(g, n) && !n.BuildNode? && NodeBuild(g, n) == b
    ensures forall e' | e <= e' < |g.envers| && g.envers[e'].build == b :: EnverNode(e') in r
    ensures forall p | 0 <= p < |g.producers| && g.producers[p].enver >= e && g.envers[g.producers[p].enver].build == b ::
              ProducerNode(p) in r
    ensures forall c | 0 <= c < |g.consumers| && g.consumers[c].enver >= e && g.envers[g.consumers[c].enver].build == b ::
              ConsumerNode(c) in r
    decreases |g.envers| - e
  {
    if e >= |g.envers| then []
    else (if g.envers[e].build == b then EnverWalk(g, e) else []) + EnverWalks(g, b, e + 1)
  }

  /** `b.node.findAll()`: the build and every construct below it, in preorder. */
  function BuildWalk(g: Contracts, b: nat): (r: seq<Node>)
    requires WellFormed(g) && b < |g.builds|
    ensures |r| > 0 && r[0] == BuildNode(b)
    ensures forall n :: n in r <==> NodeOk(g, n) && NodeBuild(g, n) == b
  {
    var r := [BuildNode(b)] + EnverWalks(g, b, 0);
    forall n | NodeOk(g, n) && NodeBuild(g, n) == b ensures n in r {
      if !n.BuildNode? {
        assert n in EnverWalks(g, b, 0);
      }
    }
    r
  }

  /** `find(e => e.node.path == target)` on the nodes from index `i` on. */
  function FindNodeByPath(g: Contracts, ns: seq<Node>, target: string, i: nat): (r: Option<Node>)
    requires WellFormed(g) && forall j | 0 <= j < |ns| :: NodeOk(g, ns[j])
    ensures r.Some? ==> (exists j | i <= j < |ns| :: ns[j] == r.value) && NodePath(g, r.value) == target
    ensures r.None? <==> forall j | i <= j < |ns| :: NodePath(g, ns[j]) != target
    decreases |ns| - i
  {
    if i >= |ns| then None
    else if NodePath(g, ns[i]) == target then Some(ns[i])
    else FindNodeByPath(g, ns, target, i + 1)
  }

  /** The node lies below the registered build `registry[k]`. */
  predicate InRegistered(g: Contracts, n: Node, k: nat)
    requires WellFormed(g) && NodeOk(g, n)
  {
    k < |g.registry| && NodeBuild(g, n) == g.registry[k]
  }

  /** The search of `getRefConsumerFromOdmdRef`: the builds in registry
      order from index `i` on, each walked in preorder, and the first node
      whose path is `target`. */
  function FindInBuilds(g: Contracts, target: string, i: nat): (r: Option<Node>)
    requires WellFormed(g)
    ensures r.Some? ==> NodeOk(g, r.value) && NodePath(g, r.value) == target
    ensures r.Some? ==> exists k | i <= k < |g.registry| :: InRegistered(g, r.value, k)
    ensures r.None? <==> forall n, k | NodeOk(g, n) && i <= k < |g.registry| && InRegistered(g, n, k) ::
                           NodePath(g, n) != target
    decreases |g.registry| - i
  {
    if i >= |g.registry| then None
    else
      var walk := BuildWalk(g, g.registry[i]);
      var hit := FindNodeByPath(g, walk, target, 0);
      if hit.Some? then
        assert InRegistered(g, hit.value, i);
        hit
      else
        assert forall n | NodeOk(g, n) && InRegistered(g, n, i) :: NodePath(g, n) != target by {
          forall n | NodeOk(g, n) && InRegistered(g, n, i) ensures NodePath(g, n) != target {
            assert n in walk;
            var j :| 0 <= j < |walk| && walk[j] == n;
          }
        }
        FindInBuilds(g, target, i + 1)
  }

  /** `getRefConsumerFromOdmdRef`: the construct, of whatever kind, whose
      path the token names; the source casts it to a consumer unchecked. */
  function ResolveRefToken(g: Contracts, s: string): (r: Result<Node, Error>)
    requires WellFormed(g)
    ensures r.Ok? ==> NodeOk(g, r.value) && !('}' in NodePath(g, r.value))
    ensures r.Ok? ==> StartsWith(s, RefPrefix + "${" + NodePath(g, r.value) + "}")
    ensures r.Ok? ==> exists k | 0 <= k < |g.registry| :: InRegistered(g, r.value, k)
    ensures r == Err(NotARefToken) <==> !StartsWith(s, RefPrefix + "${")
    ensures r == Err(UnknownConsumerPath) <==>
              StartsWith(s, RefPrefix + "${")
              && forall n, k | NodeOk(g, n) && 0 <= k < |g.registry| && InRegistered(g, n, k) ::
                   NodePath(g, n) != TokenTarget(s)
    ensures r.Err? ==> r.error == NotARefToken || r.error == UnknownConsumerPath
  {
    if !StartsWith(s, RefPrefix + "${") then Err(NotARefToken)
    else
      var target := TokenTarget(s);
      match FindInBuilds(g, target, 0)
      case None => Err(UnknownConsumerPath)
      case Some(n) =>
        TokenFramesTarget(s);
        Ok(n)
  }

  /** A non-empty target is followed by the `}` that ends it. */
  lemma TokenFramesTarget(s: string)
    requires StartsWith(s, RefPrefix + "${") && TokenTarget(s) != ""
    ensures StartsWith(s, RefPrefix + "${" + TokenTarget(s) + "}")
  {
    var target := TokenTarget(s);
    var tmp := s[|RefPrefix| + 2..];
    var k := FindChar(tmp, '}').value;
    assert s == (RefPrefix + "${") + tmp;
    assert tmp[..k + 1] == target + "}";
    assert s[..|RefPrefix| + 2 + k + 1] == (RefPrefix + "${") + tmp[..k + 1];
  }

  /** Distinct constructs have distinct paths (the construct library
      rejects a second child with an existing id). */
  ghost predicate UniqueNodePaths(g: Contracts)
    requires WellFormed(g)
  {
    forall n1, n2 | NodeOk(g, n1) && NodeOk(g, n2) && n1 != n2 :: NodePath(g, n1) != NodePath(g, n2)
  }

  /** A token naming any construct below a registered build (the build,
      an environment, a producer or a consumer) resolves to that construct,
      provided its path has no `}`. */
  lemma NodeTokenResolves(g: Contracts, n: Node)
    requires WellFormed(g) && NodeOk(g, n) && UniqueNodePaths(g)
    requires exists k | 0 <= k < |g.registry| :: InRegistered(g, n, k)
    requires !('}' in NodePath(g, n))
    ensures ResolveRefToken(g, RefPrefix + "${" + NodePath(g, n) + "}") == Ok(n)
  {
    var path := NodePath(g, n);
    var s := RefPrefix + "${" + path + "}";
    var tmp := s[|RefPrefix| + 2..];
    assert tmp == path + "}";
    assert FindChar(tmp, '}') == Some(|path|) by {
      assert tmp[|path|] == '}';
    }
    assert TokenTarget(s) == path;
  }

  /** A consumer's token resolves back to that consumer, provided its build
      is registered and its path has no `}`. */
  lemma RefTokenRoundTrip(g: Contracts, c: nat)
    requires WellFormed(g) && c < |g.consumers| && UniqueNodePaths(g)
    requires exists k | 0 <= k < |g.registry| :: InRegistered(g, ConsumerNode(c), k)
    requires !('}' in ConsumerPath(g, c))
    ensures ResolveRefToken(g, ToOdmdRef(g, c)) == Ok(ConsumerNode(c))
  {
    assert NodePath(g, ConsumerNode(c)) == ConsumerPath(g, c);
    NodeTokenResolves(g, ConsumerNode(c));
  }

  // ---------------------------------------------------------------- target selection

  /** `getTargetEnver(buildId, enverRef)`: the first registered build with
      that id, then its first environment whose revision path is `enverRef`. */
  function GetTargetEnver(g: Contracts, buildId: Option<string>, enverRef: Option<string>): (r: Result<nat, Error>)
    requires WellFormed(g)
    ensures r == Err(TargetSelectorUnset) <==> !EnvSet(buildId) || !EnvSet(enverRef)
    ensures r.Ok? ==> r.value < |g.envers| && EnverBuildId(g, r.value) == buildId.value
                      && PathOf(g.envers[r.value].rev) == enverRef.value
    ensures r == Err(UnknownBuildId) <==>
      (EnvSet(buildId) && EnvSet(enverRef)
       && forall i | 0 <= i < |g.registry| :: g.builds[g.registry[i]].id != buildId.value)
    ensures r == Err(UnknownEnverRef) <==>
      (EnvSet(buildId) && EnvSet(enverRef) && FindBuild(g, buildId.value, 0).Some?
       && var es := g.builds[FindBuild(g, buildId.value, 0).value].envers;
          forall j | 0 <= j < |es| :: PathOf(g.envers[es[j]].rev) != enverRef.value)
    ensures r.Ok? ==> FindBuild(g, buildId.value, 0).Some?
                      && r.value in g.builds[FindBuild(g, buildId.value, 0).value].envers
    ensures r.Ok? ==> var es := g.builds[FindBuild(g, buildId.value, 0).value].envers;
                      exists k | 0 <= k < |es| :: es[k] == r.value && forall j | 0 <= j < k :: PathOf(g.envers[es[j]].rev) != enverRef.value
    ensures r.Err? ==> r.error in {TargetSelectorUnset, UnknownBuildId, UnknownEnverRef}
  {
    if !EnvSet(buildId) || !EnvSet(enverRef) then Err(TargetSelectorUnset)
    else
      match FindBuild(g, buildId.value, 0)
      case None => Err(UnknownBuildId)
      case Some(b) =>
        match FindEnverByPath(g, g.builds[b].envers, enverRef.value, 0)
        case None => Err(UnknownEnverRef)
        case Some(e) => Ok(e)
  }

  /** The first registered build with id `id`. */
  function FindBuild(g: Contracts, id: string, i: nat): (r: Option<nat>)
    requires WellFormed(g)
    ensures r.Some? ==> r.value < |g.builds| && g.builds[r.value].id == id
    ensures r.Some? ==> exists k | i <= k < |g.registry| :: g.registry[k] == r.value
                          && forall j | i <= j < k :: g.builds[g.registry[j]].id != id
    ensures r.None? <==> forall k | i <= k < |g.registry| :: g.builds[g.registry[k]].id != id
    decreases |g.registry| - i
  {
    if i >= |g.registry| then None
    else if g.builds[g.registry[i]].id == id then Some(g.registry[i])
    else FindBuild(g, id, i + 1)
  }

  /** The first environment among `es` whose revision path is `path`. */
  function FindEnverByPath(g: Contracts, es: seq<nat>, path: string, i: nat): (r: Option<nat>)
    requires forall j | 0 <= j < |es| :: es[j] < |g.envers|
    ensures r.Some? ==> exists k | i <= k < |es| :: es[k] == r.value && forall j | i <= j < k :: PathOf(g.envers[es[j]].rev) != path
    ensures r.Some? ==> r.value < |g.envers| && PathOf(g.envers[r.value].rev) == path
    ensures r.None? <==> forall j | i <= j < |es| :: PathOf(g.envers[es[j]].rev) != path
    decreases |es| - i
  {
    if i >= |es| then None
    else if PathOf(g.envers[es[i]].rev) == path then Some(es[i])
    else
      var r := FindEnverByPath(g, es, path, i + 1);
      assert r.Some? ==> exists k | i <= k < |es| :: es[k] == r.value && forall j | i <= j < k :: PathOf(g.envers[es[j]].rev) != path by {
        if r.Some? {
          var k :| i + 1 <= k < |es| && es[k] == r.value && forall j | i + 1 <= j < k :: PathOf(g.envers[es[j]].rev) != path;
          assert forall j | i <= j < k :: PathOf(g.envers[es[j]].rev) != path;
        }
      }
      r
  }

  /** The environments of a build have distinct revision paths (their
      construct ids). */
  predicate DistinctEnverPaths(g: Contracts, b: nat)
    requires WellFormed(g) && b < |g.builds|
  {
    forall i, j | 0 <= i < |g.builds[b].envers| && 0 <= j < |g.builds[b].envers| && i != j ::
      PathOf(g.envers[g.builds[b].envers[i]].rev) != PathOf(g.envers[g.builds[b].envers[j]].rev)
  }

  /** Selecting an environment by its own build id and revision path finds
      it, when its build is the first registered one with that id. */
  lemma TargetEnverFindsOwn(g: Contracts, b: nat, i: nat)
    requires WellFormed(g) && b < |g.builds| && i < |g.builds[b].envers|
    requires FindBuild(g, g.builds[b].id, 0) == Some(b)
    requires DistinctEnverPaths(g, b)
    requires g.builds[b].id != ""
    ensures GetTargetEnver(g, Some(g.builds[b].id), Some(PathOf(g.envers[g.builds[b].envers[i]].rev))) == Ok(g.builds[b].envers[i])
  {
    var es := g.builds[b].envers;
    var path := PathOf(g.envers[es[i]].rev);
    FindEnverFirst(g, es, path, 0, i);
  }

  lemma {:induction false} FindEnverFirst(g: Contracts, es: seq<nat>, path: string, from: nat, i: nat)
    requires forall j | 0 <= j < |es| :: es[j] < |g.envers|
    requires from <= i < |es| && PathOf(g.envers[es[i]].rev) == path
    requires forall j | 0 <= j < |es| && j != i :: PathOf(g.envers[es[j]].rev) != path
    ensures FindEnverByPath(g, es, path, from) == Some(es[i])
    decreases |es| - from
  {
    if from < i {
      FindEnverFirst(g, es, path, from + 1, i);
    }
  }

  // ---------------------------------------------------------------- IAM roles and SSM

  /** `centralRoleName`: `<buildId>-<region><account>-centerRole`. */
  function CentralRoleName(g: Contracts, e: nat): string
    requires WellFormed(g) && e < |g.envers|
  {
    EnverBuildId(g, e) + "-" + g.envers[e].region + g.envers[e].account + "-centerRole"
  }

  /** `buildRoleName`: `<buildId>-<region><account>-buildRole`. */
  function BuildRoleName(g: Contracts, e: nat): string
    requires WellFormed(g) && e < |g.envers|
  {
    EnverBuildId(g, e) + "-" + g.envers[e].region + g.envers[e].account + "-buildRole"
  }

  /** `centralRolePath` and `buildRolePath`: `/<buildId>/`. */
  function RolePath(g: Contracts, e: nat): string
    requires WellFormed(g) && e < |g.envers|
  {
    "/" + EnverBuildId(g, e) + "/"
  }

  const ArnPrefix: string := "arn:aws:iam::"

  function RoleArn(account: string, path: string, name: string): string {
    ArnPrefix + account + ":role" + path + name
  }

  /** `centralRoleArn`: the central account's role for this environment. */
  function CentralRoleArn(g: Contracts, e: nat): string
    requires WellFormed(g) && e < |g.envers|
  {
    RoleArn(g.centralAccount, RolePath(g, e), CentralRoleName(g, e))
  }

  /** `buildRoleArn`: the role in the environment's own account. */
  function BuildRoleArn(g: Contracts, e: nat): string
    requires WellFormed(g) && e < |g.envers|
  {
    RoleArn(g.envers[e].account, RolePath(g, e), BuildRoleName(g, e))
  }

  /** `artifactPrefixSsm`: `/odmd-config/<buildId>/buildArtifactBucketName/<account>`. */
  function ArtifactPrefixSsm(g: Contracts, e: nat): (r: string)
    requires WellFormed(g) && e < |g.envers|
    ensures StartsWith(r, "/odmd-config/") && EndsWith(r, "/" + g.envers[e].account)
  {
    var r := "/odmd-config/" + EnverBuildId(g, e) + "/buildArtifactBucketName/" + ("/" + g.envers[e].account)[1..];
    assert ("/" + g.envers[e].account)[1..] == g.envers[e].account;
    assert r == "/odmd-config/" + EnverBuildId(g, e) + "/buildArtifactBucketName" + ("/" + g.envers[e].account);
    r
  }

  /** The account an IAM role ARN names: what lies between `arn:aws:iam::` and the next `:`. */
  function ArnAccount(arn: string): (r: Option<string>)
    ensures r.Some? ==> !(':' in r.value)
  {
    if !StartsWith(arn, ArnPrefix) then None
    else
      var rest := arn[|ArnPrefix|..];
      match FindChar(rest, ':')
      case None => None
      case Some(k) => Some(rest[..k])
  }

  lemma ArnAccountOf(account: string, path: string, name: string)
    requires !(':' in account)
    ensures ArnAccount(RoleArn(account, path, name)) == Some(account)
  {
    var arn := RoleArn(account, path, name);
    var rest := arn[|ArnPrefix|..];
    assert rest == account + (":role" + path + name);
    assert rest[|account|] == ':';
  }

  /** The central role ARN names the central account, the build role ARN
      the environment's own account. */
  lemma RoleArnAccounts(g: Contracts, e: nat)
    requires WellFormed(g) && e < |g.envers|
    requires !(':' in g.centralAccount) && !(':' in g.envers[e].account)
    ensures ArnAccount(CentralRoleArn(g, e)) == Some(g.centralAccount)
    ensures ArnAccount(BuildRoleArn(g, e)) == Some(g.envers[e].account)
  {
    ArnAccountOf(g.centralAccount, RolePath(g, e), CentralRoleName(g, e));
    ArnAccountOf(g.envers[e].account, RolePath(g, e), BuildRoleName(g, e));
  }

  /** Within one build, environments in different (region, account) targets
      get different build roles, as long as account ids have one length
      (AWS account ids are twelve digits); environments sharing a target
      share the role. */
  lemma BuildRoleNamesSeparateTargets(g: Contracts, e1: nat, e2: nat)
    requires WellFormed(g) && e1 < |g.envers| && e2 < |g.envers|
    requires EnverBuildId(g, e1) == EnverBuildId(g, e2)
    requires |g.envers[e1].account| == |g.envers[e2].account|
    ensures BuildRoleName(g, e1) == BuildRoleName(g, e2) <==>
              g.envers[e1].region == g.envers[e2].region && g.envers[e1].account == g.envers[e2].account
  {
    var en1 := g.envers[e1];
    var en2 := g.envers[e2];
    var p := EnverBuildId(g, e1) + "-";
    if BuildRoleName(g, e1) == BuildRoleName(g, e2) {
      var s := BuildRoleName(g, e1);
      var mid1 := en1.region + en1.account;
      var mid2 := en2.region + en2.account;
      assert s == p + mid1 + "-buildRole" == p + mid2 + "-buildRole";
      assert mid1 == s[|p|..|s| - 10] == mid2;
      assert en1.account == mid1[|en1.region|..] == mid2[|en2.region|..] == en2.account;
      assert en1.region == mid1[..|en1.region|] == mid2[..|en2.region|] == en2.region;
    }
  }
}
