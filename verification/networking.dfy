/** The platform builds wired by the contracts root: which optional builds
    `initializeBuilds` creates, the networking build with its IPAM
    environment, the VPC and IP-address settings an application environment
    derives from an IPAM pool, and the EKS-cluster environment that reads the
    networking environment of its own region. */
module Networking {
  import opened Wrappers
  import opened Errors
  import opened Strings
  import opened RevRefs
  import opened Producers
  import opened Graph
  import opened Derive
  import opened Sanitizers
  import opened Validate

  // ---------------------------------------------------------------- initializeBuilds

  /** The optional repositories of `githubRepos` that are defined. */
  datatype Repos = Repos(userAuth: bool, networking: bool, eks: bool, defaultVpcRds: bool, defaultKubeEks: bool)

  /** One initialisation hook of the contracts root. */
  datatype Step = ContractsLibStep | UserAuthStep | NetworkingStep | EksStep | DefaultVpcRdsStep | DefaultKubeEksStep

  /** The position of a hook in the fixed calling order. */
  function Rank(s: Step): nat {
    match s
    case ContractsLibStep => 0
    case UserAuthStep => 1
    case NetworkingStep => 2
    case EksStep => 3
    case DefaultVpcRdsStep => 4
    case DefaultKubeEksStep => 5
  }

  predicate Increasing(steps: seq<Step>) {
    forall i, j | 0 <= i < j < |steps| :: Rank(steps[i]) < Rank(steps[j])
  }

  /** Whether a hook runs for the defined repositories and account. */
  predicate Wanted(repos: Repos, networkingAccount: Option<string>, s: Step) {
    match s
    case ContractsLibStep => true
    case UserAuthStep => repos.userAuth
    case NetworkingStep => repos.networking && EnvSet(networkingAccount)
    case EksStep => repos.eks
    case DefaultVpcRdsStep => repos.defaultVpcRds
    case DefaultKubeEksStep => repos.defaultKubeEks
  }

  const AllSteps: seq<Step> := [ContractsLibStep, UserAuthStep, NetworkingStep, EksStep, DefaultVpcRdsStep, DefaultKubeEksStep]

  /** Every hook appears in the list, at its rank. */
  lemma AllStepsListed()
    ensures forall s: Step :: Rank(s) < |AllSteps| && AllSteps[Rank(s)] == s
  {
  }

  /** The list is in calling order and holds every hook. */
  lemma AllStepsInOrder()
    ensures Increasing(AllSteps) && forall s: Step :: s in AllSteps
  {
    AllStepsListed();
    forall i, j | 0 <= i < j < |AllSteps| ensures Rank(AllSteps[i]) < Rank(AllSteps[j]) {
      assert Rank(AllSteps[i]) == i && Rank(AllSteps[j]) == j;
    }
    forall s: Step ensures s in AllSteps {
      assert AllSteps[Rank(s)] == s;
    }
  }

  /** The wanted hooks of `steps`, in the order of `steps`. */
  function Pick(steps: seq<Step>, repos: Repos, networkingAccount: Option<string>): (r: seq<Step>)
    ensures forall s :: s in r <==> s in steps && Wanted(repos, networkingAccount, s)
    ensures Increasing(steps) ==> Increasing(r)
    ensures |steps| > 0 && Wanted(repos, networkingAccount, steps[0]) ==> |r| > 0 && r[0] == steps[0]
  {
    if |steps| == 0 then []
    else
      var rest := Pick(steps[1..], repos, networkingAccount);
      if Wanted(repos, networkingAccount, steps[0]) then
        assert Increasing(steps) ==> forall j | 0 <= j < |rest| :: Rank(steps[0]) < Rank(rest[j]) by {
          if Increasing(steps) {
            forall j | 0 <= j < |rest| ensures Rank(steps[0]) < Rank(rest[j]) {
              assert rest[j] in steps[1..];
            }
          }
        }
        [steps[0]] + rest
      else rest
  }

  /** The hooks `initializeBuilds` calls, in order: the contracts library
      always, every other build when its repository is defined; the
      networking repository and the networking account must be defined
      together. */
  function InitializeBuilds(repos: Repos, networkingAccount: Option<string>): (r: Result<seq<Step>, Error>)
    ensures r.Err? <==> repos.networking != EnvSet(networkingAccount)
    ensures r.Err? ==> r.error == NetworkingHalfDefined
    ensures r.Ok? ==> |r.value| > 0 && r.value[0] == ContractsLibStep && Increasing(r.value)
    ensures r.Ok? ==> forall s :: s in r.value <==> Wanted(repos, networkingAccount, s)
  {
    if repos.networking != EnvSet(networkingAccount) then Err(NetworkingHalfDefined)
    else
      AllStepsInOrder();
      var r := Pick(AllSteps, repos, networkingAccount);
      assert Wanted(repos, networkingAccount, AllSteps[0]);
      Ok(r)
  }

  // ---------------------------------------------------------------- the networking build

  const NetworkingBuildId: string := "networking"
  const IpamRegion: string := "us-west-1"
  const IpamRev: RevRef := RevRef(Branch, "ipam_west1_le", None)

  /** An `IPAM_AB` environment: its four producers and the subdomain name
      servers it consumes, keyed by subdomain. */
  datatype Ipam = Ipam(enver: nat, centralVpcCidr: nat, ipamPoolName: nat, transitGatewayShareName: nat,
                       natPublicIP: nat, nameservers: map<string, nat>)

  /** The record agrees with the graph: each producer is the named producer
      of the environment, and each name-server consumer sits on the
      environment under `nameServer_<subdomain>`. */
  predicate IsIpam(g: Contracts, ip: Ipam) {
    && ip.enver < |g.envers|
    && ip.centralVpcCidr < |g.producers| && g.producers[ip.centralVpcCidr] == Producer(ip.enver, "central-Vpc-Cidr", "central-Vpc-Cidr")
    && ip.ipamPoolName < |g.producers| && g.producers[ip.ipamPoolName] == Producer(ip.enver, "share-pool", "share-pool")
    && ip.transitGatewayShareName < |g.producers| && g.producers[ip.transitGatewayShareName] == Producer(ip.enver, "share-tgw", "share-tgw")
    && ip.natPublicIP < |g.producers| && g.producers[ip.natPublicIP] == Producer(ip.enver, "nat-pub-ip", "nat-pub-ip")
    && forall d | d in ip.nameservers ::
         ip.nameservers[d] < |g.consumers|
         && g.consumers[ip.nameservers[d]].enver == ip.enver
         && g.consumers[ip.nameservers[d]].id == NameServerId(d)
  }

  function NameServerId(d: string): string {
    "nameServer_" + d
  }

  /** A producer declared with an id only: its name is the id. */
  function AddPlainProducer(g: Contracts, e: nat, id: string): (r: (Contracts, nat))
    requires WellFormed(g) && e < |g.envers| && SegmentOk(id)
    ensures WellFormed(r.0) && r.1 == |g.producers| && |r.0.producers| > r.1
    ensures r.0.producers[..|g.producers|] == g.producers
    ensures r.0.producers[r.1] == Producer(e, id, id)
    ensures r.0 == g.(producers := r.0.producers)
  {
    assert SegmentsOk(id, ProducerProps(None, []));
    AddProducer(g, e, id, ProducerProps(None, [])).value
  }

  /** Graphs that differ only by producers appended at the end. */
  predicate ProducersGrown(g: Contracts, g': Contracts) {
    && |g'.producers| >= |g.producers| && g'.producers[..|g.producers|] == g.producers
    && g' == g.(producers := g'.producers)
  }

  lemma ProducersGrownTrans(g: Contracts, g1: Contracts, g2: Contracts)
    requires ProducersGrown(g, g1) && ProducersGrown(g1, g2)
    ensures ProducersGrown(g, g2)
  {
    assert g2.producers[..|g.producers|] == g1.producers[..|g1.producers|][..|g.producers|];
  }

  /** Producers declared with ids only, in order. */
  function AddPlainProducers(g: Contracts, e: nat, ids: seq<string>): (r: (Contracts, seq<nat>))
    requires WellFormed(g) && e < |g.envers|
    requires forall k | 0 <= k < |ids| :: SegmentOk(ids[k])
    ensures WellFormed(r.0) && ProducersGrown(g, r.0) && |r.1| == |ids|
    ensures forall k | 0 <= k < |ids| :: |g.producers| <= r.1[k] < |r.0.producers|
    ensures forall k | 0 <= k < |ids| :: r.0.producers[r.1[k]] == Producer(e, ids[k], ids[k])
    decreases |ids|
  {
    if |ids| == 0 then (g, [])
    else
      var (g1, p) := AddPlainProducer(g, e, ids[0]);
      var (g2, ps) := AddPlainProducers(g1, e, ids[1..]);
      assert g2.producers[p] == g2.producers[..|g1.producers|][p];
      ProducersGrownTrans(g, g1, g2);
      (g2, [p] + ps)
  }

  const IpamProducerIds: seq<string> := ["central-Vpc-Cidr", "share-pool", "share-tgw", "nat-pub-ip"]

  lemma IpamProducerIdsOk()
    ensures forall k | 0 <= k < |IpamProducerIds| :: SegmentOk(IpamProducerIds[k])
  {
    forall k | 0 <= k < |IpamProducerIds| ensures SegmentOk(IpamProducerIds[k]) {
      if k == 0 {} else if k == 1 {} else if k == 2 {} else {}
    }
  }

  /** The field initialisers of `IPAM_AB`: the four producers, declared in order. */
  function AddIpamProducers(g: Contracts, e: nat): (r: (Contracts, Ipam))
    requires WellFormed(g) && e < |g.envers|
    ensures WellFormed(r.0) && IsIpam(r.0, r.1) && r.1.enver == e && r.1.nameservers == map[]
    ensures ProducersGrown(g, r.0)
  {
    IpamProducerIdsOk();
    var (g1, ps) := AddPlainProducers(g, e, IpamProducerIds);
    (g1, Ipam(e, ps[0], ps[1], ps[2], ps[3], map[]))
  }

  /** Build `b` is the networking build and its only environment `e` is
      the IPAM environment `b..ipam_west1_le` in `us-west-1` on the
      networking account, not ephemeral. */
  predicate NetworkingLayout(g: Contracts, b: nat, e: nat, account: string) {
    && b < |g.builds| && g.builds[b].id == NetworkingBuildId && g.builds[b].kind == NetworkingBuild
    && g.builds[b].envers == [e]
    && e < |g.envers| && g.envers[e] == Enver(b, account, IpamRegion, IpamRev, CdkEnver, false)
  }

  /** The build constructor of `OdmdBuildNetworking` with its environment
      list, before the IPAM producers are declared. Selecting the
      networking build for derivation always fails: either no environment
      matches the selector, or the selector's revision is rejected, or the
      replayed `IPAM_WEST1_LE` constructor receives the account as its
      revision. */
  function NetworkingShell(g: Contracts, account: string, buildIdEnv: Option<string>, revRefEnv: Option<string>)
    : (r: Result<(Contracts, nat), Error>)
    requires WellFormed(g)
    ensures r.Ok? <==> !Derives(NetworkingBuildId, buildIdEnv, revRefEnv)
    ensures r.Ok? ==> WellFormed(r.value.0) && r.value.1 == |g.builds| && |r.value.0.builds| == |g.builds| + 1
    ensures r.Ok? ==> NetworkingLayout(r.value.0, r.value.1, |g.envers|, account)
    ensures r.Ok? ==> r.value.0.registry == g.registry + [r.value.1] && r.value.0.consumers == g.consumers
  {
    var specs := [EnverSpec(account, IpamRegion, IpamRev, CdkEnver, false)];
    var (g1, b) :- NewOdmdBuild(g, NetworkingBuildId, NetworkingBuild, specs, buildIdEnv, revRefEnv);
    NewOdmdBuildInitialEnvers(g, NetworkingBuildId, NetworkingBuild, specs, buildIdEnv, revRefEnv);
    Ok((g1, b))
  }

  /** `OdmdBuildNetworking`: the networking build with its IPAM environment
      and the environment's four producers. */
  function NewNetworkingBuild(g: Contracts, account: string, buildIdEnv: Option<string>, revRefEnv: Option<string>)
    : (r: Result<(Contracts, nat, Ipam), Error>)
    requires WellFormed(g)
    ensures r.Ok? <==> !Derives(NetworkingBuildId, buildIdEnv, revRefEnv)
    ensures r.Ok? ==> WellFormed(r.value.0) && IsIpam(r.value.0, r.value.2) && r.value.2.nameservers == map[]
    ensures r.Ok? ==> r.value.1 == |g.builds| && |r.value.0.builds| == |g.builds| + 1
    ensures r.Ok? ==> NetworkingLayout(r.value.0, r.value.1, r.value.2.enver, account)
    ensures r.Ok? ==> r.value.0.registry == g.registry + [r.value.1] && r.value.0.consumers == g.consumers
  {
    var (g1, b) :- NetworkingShell(g, account, buildIdEnv, revRefEnv);
    var (g2, ip) := AddIpamProducers(g1, |g.envers|);
    Ok((g2, b, ip))
  }

  /** The IPAM environment is accepted by the revision constructor. */
  lemma IpamRevValid()
    ensures NewRevRef(Branch, "ipam_west1_le", None) == Ok(IpamRev)
  {
  }

  /** `IPAM_AB.addSubdomainServer`: a subdomain already present fails;
      otherwise exactly one consumer `nameServer_<d>` of the name-server
      producer is added on the IPAM environment and recorded under `d`. */
  function AddSubdomainServer(g: Contracts, ip: Ipam, d: string, nsServers: nat): (r: Result<(Contracts, Ipam), Error>)
    requires WellFormed(g) && IsIpam(g, ip) && nsServers < |g.producers|
    ensures d in ip.nameservers ==> r == Err(SubdomainExists)
    ensures r.Ok? <==> d !in ip.nameservers
                       && EnverBuildId(g, ProducerEnver(g, nsServers)) != EnverBuildId(g, ip.enver)
                       && g.envers[ip.enver].build != g.contractsLib
    ensures r.Ok? ==> var (g', ip') := r.value;
              && WellFormed(g') && IsIpam(g', ip')
              && g'.consumers == g.consumers + [Consumer(ip.enver, NameServerId(d), nsServers, DefaultOptions)]
              && ip'.nameservers == ip.nameservers[d := |g.consumers|]
              && ip' == ip.(nameservers := ip'.nameservers)
              && g' == g.(consumers := g'.consumers)
  {
    if d in ip.nameservers then Err(SubdomainExists)
    else
      var (g', c) :- NewConsumer(g, ip.enver, NameServerId(d), nsServers, DefaultOptions);
      Ok((g', ip.(nameservers := ip.nameservers[d := c])))
  }

  /** A subdomain is served once: registering it a second time fails. */
  lemma SubdomainServedOnce(g: Contracts, ip: Ipam, d: string, ns1: nat, ns2: nat)
    requires WellFormed(g) && IsIpam(g, ip) && ns1 < |g.producers| && ns2 < |g.producers|
    requires AddSubdomainServer(g, ip, d, ns1).Ok?
    ensures var (g', ip') := AddSubdomainServer(g, ip, d, ns1).value;
            AddSubdomainServer(g', ip', d, ns2) == Err(SubdomainExists)
  {
  }

  /** `IPAM_AB.getRevStackNames`: the environment stack and the NAT-sharing
      stack, each sanitized. */
  function IpamRevStackNames(buildId: string, rev: RevRef): (r: seq<string>)
    ensures |r| == 2 && r[0] == CdkRevStackNames(buildId, rev)[0]
    ensures All(r[1], StackChar) && |r[1]| == |buildId| + 12 + |RevStackPart(rev)|
    ensures r[0] != r[1]
  {
    [SanitizeStackName(buildId + "--" + RevStackPart(rev)),
     SanitizeStackName(buildId + "-share-nat--" + RevStackPart(rev))]
  }

  /** Both IPAM stack names satisfy the stack-name rule, length permitting. */
  lemma IpamStackNamesOk(buildId: string, rev: RevRef)
    requires |buildId| > 0 && IsAlpha(buildId[0]) && All(buildId, StackChar)
    requires |buildId| + 12 + |RevStackPart(rev)| <= 128
    ensures var r := IpamRevStackNames(buildId, rev);
            StackNameOk(r[0], buildId) && StackNameOk(r[1], buildId)
  {
    CdkStackNameOk(buildId, rev);
    assert buildId + "-share-nat--" + RevStackPart(rev) == buildId + ("-share-nat--" + RevStackPart(rev));
    SanitizeKeepsPrefix(buildId, "-share-nat--" + RevStackPart(rev));
  }

  // ---------------------------------------------------------------- VPC settings

  /** `OdmdIpAddresses`: the environment, the consumer of the IPAM pool
      producer, and the two netmask lengths. */
  datatype IpAddresses = IpAddresses(enver: nat, poolRef: nat, ipv4NetmaskLength: int, defaultSubnetIpv4NetmaskLength: int)

  /** The IPAM pool consumer of the addresses is a consumer on their
      environment. */
  predicate AddressesOk(g: Contracts, a: IpAddresses) {
    a.enver < |g.envers| && a.poolRef < |g.consumers| && g.consumers[a.poolRef].enver == a.enver
  }

  /** `new OdmdIpAddresses(enver, pool, netmask?, subnetMask?)`: a consumer
      of the pool producer, named after it; the masks default to 26 and 28. */
  function NewIpAddresses(g: Contracts, e: nat, pool: nat, netmask: Option<int>, subnetMask: Option<int>)
    : (r: Result<(Contracts, IpAddresses), Error>)
    requires WellFormed(g) && e < |g.envers| && pool < |g.producers|
    ensures r.Ok? <==> EnverBuildId(g, ProducerEnver(g, pool)) != EnverBuildId(g, e) && g.envers[e].build != g.contractsLib
    ensures r.Ok? ==> var (g', a) := r.value;
              && WellFormed(g') && AddressesOk(g', a) && a.enver == e
              && g'.consumers == g.consumers + [Consumer(e, g.producers[pool].name, pool, DefaultOptions)]
              && a.poolRef == |g.consumers|
              && (netmask.None? ==> a.ipv4NetmaskLength == 26)
              && (netmask.Some? ==> a.ipv4NetmaskLength == netmask.value)
              && (subnetMask.None? ==> a.defaultSubnetIpv4NetmaskLength == 28)
              && (subnetMask.Some? ==> a.defaultSubnetIpv4NetmaskLength == subnetMask.value)
              && g' == g.(consumers := g'.consumers)
  {
    var (g', c) :- NewConsumer(g, e, g.producers[pool].name, pool, DefaultOptions);
    Ok((g', IpAddresses(e, c, netmask.GetOr(26), subnetMask.GetOr(28))))
  }

  /** `allocateVpcCidr` and `allocateSubnetsCidr`: CIDRs come from the IPAM
      pool at deployment, so asking the settings for one always fails. */
  function AllocateCidr(a: IpAddresses, subnets: bool): (r: Result<string, Error>)
    ensures r.Err? && r.error == CidrNotAllocatable
  {
    Err(CidrNotAllocatable)
  }

  /** The VPC name: the given name when it already starts with the build
      id, else the build id followed by it. */
  function VpcName(buildId: string, name: string): (r: string)
    ensures StartsWith(r, buildId) && EndsWith(r, name)
    ensures StartsWith(name, buildId) <==> r == name
  {
    if StartsWith(name, buildId) then name else buildId + name
  }

  /** Prefixing is idempotent: a VPC name is its own VPC name. */
  lemma VpcNameIdempotent(buildId: string, name: string)
    ensures VpcName(buildId, VpcName(buildId, name)) == VpcName(buildId, name)
  {
  }

  /** `OdmdVpc`: the owning build, the VPC name, two availability zones, no
      NAT gateway, and the transit-gateway consumer. */
  datatype Vpc = Vpc(build: nat, ipAddresses: IpAddresses, vpcName: string, maxAzs: nat, natGateways: nat, transitGatewayRef: nat)

  /** The pool consumer of the addresses reads a producer of `ip`'s
      environment (the pool's type says its owner is an IPAM environment). */
  predicate PoolOf(g: Contracts, a: IpAddresses, ip: Ipam)
    requires WellFormed(g) && AddressesOk(g, a)
  {
    ProducerEnver(g, g.consumers[a.poolRef].producer) == ip.enver
  }

  /** `new OdmdVpc(addresses, name)`: the build is the owner of the
      addresses' environment, and the transit-gateway consumer, on that
      environment, reads the IPAM environment's `share-tgw` under the id
      `<revision path>-<pool producer name>`. */
  function NewVpc(g: Contracts, a: IpAddresses, ip: Ipam, name: string): (r: Result<(Contracts, Vpc), Error>)
    requires WellFormed(g) && AddressesOk(g, a) && IsIpam(g, ip) && PoolOf(g, a, ip)
    ensures r.Ok? <==> EnverBuildId(g, ip.enver) != EnverBuildId(g, a.enver) && g.envers[a.enver].build != g.contractsLib
    ensures r.Ok? ==> var (g', v) := r.value;
              && WellFormed(g') && v.build == g.envers[a.enver].build
              && StartsWith(v.vpcName, EnverBuildId(g, a.enver)) && EndsWith(v.vpcName, name)
              && v.maxAzs == 2 && v.natGateways == 0 && v.ipAddresses == a
              && v.transitGatewayRef == |g.consumers|
              && g'.consumers == g.consumers + [Consumer(a.enver, PathOf(g.envers[a.enver].rev) + "-" + g.producers[g.consumers[a.poolRef].producer].name,
                                                         ip.transitGatewayShareName, DefaultOptions)]
              && g' == g.(consumers := g'.consumers)
  {
    var b := g.envers[a.enver].build;
    var pool := g.consumers[a.poolRef].producer;
    var tgwId := PathOf(g.envers[a.enver].rev) + "-" + g.producers[pool].name;
    var (g', c) :- NewConsumer(g, a.enver, tgwId, ip.transitGatewayShareName, DefaultOptions);
    Ok((g', Vpc(b, a, VpcName(g.builds[b].id, name), 2, 0, c)))
  }

  // ---------------------------------------------------------------- EKS cluster environments

  /** `OdmdEnverEksCluster`: its five producers, the role name the cluster
      trusts, the IPAM environment it reads, and its three consumers of
      that environment. */
  datatype EksCluster = EksCluster(
    enver: nat,
    vpcCidr: nat, oidcProvider: nat, clusterEndpoint: nat, kubectlRoleArn: nat, defaultNodeGroupRoleArn: nat,
    kubeTrustCentralRoleName: string,
    network: Ipam,
    ipamPoolName: nat, transitGatewayShareName: nat, natPublicIP: nat)

  /** `kube_<type>_<value>_trustCentral_<region>`. */
  function KubeTrustCentralRoleName(rev: RevRef, region: string): (r: string)
    ensures StartsWith(r, "kube_") && EndsWith(r, "_trustCentral_" + region)
    ensures |r| == 7 + |rev.value| + 14 + |region|
  {
    "kube_" + [TypeChar(rev.kind)] + "_" + rev.value + ("_trustCentral_" + region)
  }

  /** The IPAM environment is in `region`. */
  predicate InRegion(g: Contracts, ip: Ipam, region: string) {
    ip.enver < |g.envers| && g.envers[ip.enver].region == region
  }

  /** `networking.envers.find(e => e.targetAWSRegion == region)`: the first
      IPAM environment in the region. */
  function FindIpamInRegion(g: Contracts, ipams: seq<Ipam>, region: string, i: nat := 0): (r: Option<nat>)
    requires i <= |ipams|
    ensures r.Some? ==> i <= r.value < |ipams| && InRegion(g, ipams[r.value], region)
    ensures r.Some? ==> forall k | i <= k < r.value :: !InRegion(g, ipams[k], region)
    ensures r.None? <==> forall k | i <= k < |ipams| :: !InRegion(g, ipams[k], region)
    decreases |ipams| - i
  {
    if i == |ipams| then None
    else if InRegion(g, ipams[i], region) then Some(i)
    else FindIpamInRegion(g, ipams, region, i + 1)
  }

  const EksProducerIds: seq<string> := ["vpcCidr", "oidcProvider", "clusterEndpoint", "kubectlRoleArn", "defaultNodeGroupRoleArn"]

  lemma EksProducerIdsOk()
    ensures forall k | 0 <= k < |EksProducerIds| :: SegmentOk(EksProducerIds[k])
  {
    forall k | 0 <= k < |EksProducerIds| ensures SegmentOk(EksProducerIds[k]) {
      AlnumSegmentOk(EksProducerIds[k]);
    }
  }

  /** Each producer field of the cluster is the producer of that name on
      the cluster's environment. */
  predicate EksProducersOk(g: Contracts, k: EksCluster) {
    && k.vpcCidr < |g.producers| && g.producers[k.vpcCidr] == Producer(k.enver, "vpcCidr", "vpcCidr")
    && k.oidcProvider < |g.producers| && g.producers[k.oidcProvider] == Producer(k.enver, "oidcProvider", "oidcProvider")
    && k.clusterEndpoint < |g.producers| && g.producers[k.clusterEndpoint] == Producer(k.enver, "clusterEndpoint", "clusterEndpoint")
    && k.kubectlRoleArn < |g.producers| && g.producers[k.kubectlRoleArn] == Producer(k.enver, "kubectlRoleArn", "kubectlRoleArn")
    && k.defaultNodeGroupRoleArn < |g.producers|
    && g.producers[k.defaultNodeGroupRoleArn] == Producer(k.enver, "defaultNodeGroupRoleArn", "defaultNodeGroupRoleArn")
  }

  /** Producers appended at the end keep the IPAM records valid. */
  lemma ProducersGrownKeepsIpam(g: Contracts, g': Contracts, ip: Ipam)
    requires IsIpam(g, ip) && ProducersGrown(g, g')
    ensures IsIpam(g', ip)
  {
    assert forall p | 0 <= p < |g.producers| :: g'.producers[p] == g'.producers[..|g.producers|][p];
  }

  /** Consumers appended at the end keep the IPAM records valid. */
  lemma ConsumersGrownKeepsIpam(g: Contracts, g': Contracts, ip: Ipam)
    requires IsIpam(g, ip) && g' == g.(consumers := g'.consumers)
    requires |g'.consumers| >= |g.consumers| && g'.consumers[..|g.consumers|] == g.consumers
    ensures IsIpam(g', ip)
  {
    assert forall c | 0 <= c < |g.consumers| :: g'.consumers[c] == g'.consumers[..|g.consumers|][c];
  }

  /** Producers appended at the end add no consumer, so no cross-region read. */
  lemma ProducersGrownKeepsRegions(g: Contracts, g': Contracts)
    requires WellFormed(g) && WellFormed(g') && ProducersGrown(g, g') && NoCrossRegion(g)
    ensures NoCrossRegion(g')
  {
    forall c | 0 <= c < |g'.consumers| ensures SameRegion(g', c) {
      assert SameRegion(g, c);
      assert g'.producers[g.consumers[c].producer] == g'.producers[..|g.producers|][g.consumers[c].producer];
    }
  }

  /** The three consumers of the IPAM environment's pool, transit-gateway
      and NAT producers, on environment `e`. */
  function AddEksConsumers(g: Contracts, e: nat, ip: Ipam): (r: Result<(Contracts, seq<nat>), Error>)
    requires WellFormed(g) && e < |g.envers| && IsIpam(g, ip)
    ensures r.Ok? <==> EnverBuildId(g, ip.enver) != EnverBuildId(g, e) && g.envers[e].build != g.contractsLib
    ensures r.Err? ==> r.error == SameBuildConsumption || r.error == ContractsLibConsumes
    ensures r.Ok? ==> var (g', cs) := r.value;
              && WellFormed(g') && g' == g.(consumers := g'.consumers)
              && g'.consumers == g.consumers + [Consumer(e, "ipamPoolName", ip.ipamPoolName, DefaultOptions),
                                                Consumer(e, "transitGatewayShareName", ip.transitGatewayShareName, DefaultOptions),
                                                Consumer(e, "natPublicIP", ip.natPublicIP, DefaultOptions)]
              && cs == [|g.consumers|, |g.consumers| + 1, |g.consumers| + 2]
  {
    var (g2, c1) :- NewConsumer(g, e, "ipamPoolName", ip.ipamPoolName, DefaultOptions);
    var (g3, c2) := NewConsumer(g2, e, "transitGatewayShareName", ip.transitGatewayShareName, DefaultOptions).value;
    var (g4, c3) := NewConsumer(g3, e, "natPublicIP", ip.natPublicIP, DefaultOptions).value;
    Ok((g4, [c1, c2, c3]))
  }

  /** Consumers of a same-region IPAM environment keep the region rule. */
  lemma EksConsumersKeepRegions(g: Contracts, e: nat, ip: Ipam)
    requires WellFormed(g) && e < |g.envers| && IsIpam(g, ip) && NoCrossRegion(g)
    requires InRegion(g, ip, g.envers[e].region)
    requires AddEksConsumers(g, e, ip).Ok?
    ensures NoCrossRegion(AddEksConsumers(g, e, ip).value.0)
  {
    var (g2, _) := NewConsumer(g, e, "ipamPoolName", ip.ipamPoolName, DefaultOptions).value;
    NewConsumerKeepsRegions(g, e, "ipamPoolName", ip.ipamPoolName, DefaultOptions);
    var (g3, _) := NewConsumer(g2, e, "transitGatewayShareName", ip.transitGatewayShareName, DefaultOptions).value;
    NewConsumerKeepsRegions(g2, e, "transitGatewayShareName", ip.transitGatewayShareName, DefaultOptions);
    NewConsumerKeepsRegions(g3, e, "natPublicIP", ip.natPublicIP, DefaultOptions);
  }

  /** The cluster on environment `e` reading the IPAM environment `ip`:
      the five producers, then the three consumers. */
  function EksClusterOn(g: Contracts, e: nat, ip: Ipam): (r: Result<(Contracts, EksCluster), Error>)
    requires WellFormed(g) && e < |g.envers| && IsIpam(g, ip)
    ensures r.Ok? <==> EnverBuildId(g, ip.enver) != EnverBuildId(g, e) && g.envers[e].build != g.contractsLib
    ensures r.Err? ==> r.error == SameBuildConsumption || r.error == ContractsLibConsumes
    ensures r.Ok? ==> WellFormed(r.value.0) && r.value.1.network == ip
  {
    var (g1, k0) := AddEksProducers(g, e, ip);
    ProducersGrownKeepsIpam(g, g1, ip);
    var (g2, cs) :- AddEksConsumers(g1, e, ip);
    Ok((g2, k0.(ipamPoolName := cs[0], transitGatewayShareName := cs[1], natPublicIP := cs[2])))
  }

  /** The cluster's records agree with the graph it built: the IPAM record
      is still valid, the producer fields name its own producers, and the
      three consumers on its environment read the IPAM environment's pool,
      transit-gateway and NAT producers. */
  lemma EksClusterOnShape(g: Contracts, e: nat, ip: Ipam)
    requires WellFormed(g) && e < |g.envers| && IsIpam(g, ip)
    requires EksClusterOn(g, e, ip).Ok?
    ensures var (g', k) := EksClusterOn(g, e, ip).value;
            && WellFormed(g') && k.enver == e && g'.envers == g.envers
            && k.kubeTrustCentralRoleName == KubeTrustCentralRoleName(g.envers[e].rev, g.envers[e].region)
            && IsIpam(g', ip) && EksProducersOk(g', k)
            && g'.consumers == g.consumers + [Consumer(e, "ipamPoolName", ip.ipamPoolName, DefaultOptions),
                                              Consumer(e, "transitGatewayShareName", ip.transitGatewayShareName, DefaultOptions),
                                              Consumer(e, "natPublicIP", ip.natPublicIP, DefaultOptions)]
  {
    var (g1, k0) := AddEksProducers(g, e, ip);
    ProducersGrownKeepsIpam(g, g1, ip);
    var (g2, cs) := AddEksConsumers(g1, e, ip).value;
    ConsumersGrownKeepsIpam(g1, g2, ip);
    assert g2.producers == g1.producers;
  }

  /** The field initialisers of `OdmdEnverEksCluster`: the five producers,
      declared in order, and the trusted role name. The consumer fields are
      left at the producers' first index until the consumers exist. */
  function AddEksProducers(g: Contracts, e: nat, ip: Ipam): (r: (Contracts, EksCluster))
    requires WellFormed(g) && e < |g.envers|
    ensures WellFormed(r.0) && ProducersGrown(g, r.0) && EksProducersOk(r.0, r.1)
    ensures r.1.enver == e && r.1.network == ip
    ensures r.1.kubeTrustCentralRoleName == KubeTrustCentralRoleName(g.envers[e].rev, g.envers[e].region)
  {
    EksProducerIdsOk();
    var (g1, ps) := AddPlainProducers(g, e, EksProducerIds);
    var role := KubeTrustCentralRoleName(g.envers[e].rev, g.envers[e].region);
    assert forall j | 0 <= j < 5 :: g1.producers[ps[j]] == Producer(e, EksProducerIds[j], EksProducerIds[j]);
    (g1, EksCluster(e, ps[0], ps[1], ps[2], ps[3], ps[4], role, ip, ps[0], ps[0], ps[0]))
  }

  /** Every record of the list is a networking environment of `g`. */
  predicate AllIpam(g: Contracts, ipams: seq<Ipam>) {
    forall k | 0 <= k < |ipams| :: IsIpam(g, ipams[k])
  }

  /** `new OdmdEnverEksCluster(...)` on environment `e`: the first
      networking environment of `e`'s region is the one it reads; without
      one it fails. */
  function NewEksCluster(g: Contracts, e: nat, ipams: seq<Ipam>): (r: Result<(Contracts, EksCluster), Error>)
    requires WellFormed(g) && e < |g.envers|
    requires AllIpam(g, ipams)
    ensures (r.Err? && r.error == NoNetworkingInRegion) <==> forall k | 0 <= k < |ipams| :: !InRegion(g, ipams[k], g.envers[e].region)
    ensures r.Ok? ==> WellFormed(r.value.0)
  {
    match FindIpamInRegion(g, ipams, g.envers[e].region)
    case None => Err(NoNetworkingInRegion)
    case Some(i) =>
      EksClusterOn(g, e, ipams[i])
  }

  /** The cluster reads the first networking environment of its region. */
  lemma EksClusterReadsFirstInRegion(g: Contracts, e: nat, ipams: seq<Ipam>)
    requires WellFormed(g) && e < |g.envers|
    requires AllIpam(g, ipams)
    requires NewEksCluster(g, e, ipams).Ok?
    ensures var f := FindIpamInRegion(g, ipams, g.envers[e].region);
            f.Some? && NewEksCluster(g, e, ipams).value.1.network == ipams[f.value]
  {
  }

  /** A cluster on a networking environment of its own region keeps the
      region rule of the whole-graph validation. */
  lemma EksClusterOnKeepsRegions(g: Contracts, e: nat, ip: Ipam)
    requires WellFormed(g) && e < |g.envers| && NoCrossRegion(g) && IsIpam(g, ip)
    requires InRegion(g, ip, g.envers[e].region)
    requires EksClusterOn(g, e, ip).Ok?
    ensures NoCrossRegion(EksClusterOn(g, e, ip).value.0)
  {
    var (g1, _) := AddEksProducers(g, e, ip);
    ProducersGrownKeepsRegions(g, g1);
    ProducersGrownKeepsIpam(g, g1, ip);
    EksConsumersKeepRegions(g1, e, ip);
  }

  /** The cluster's consumers read an environment of its own region, so the
      region rule of the whole-graph validation still holds afterwards. */
  lemma EksClusterKeepsRegions(g: Contracts, e: nat, ipams: seq<Ipam>, g': Contracts, k: EksCluster)
    requires WellFormed(g) && e < |g.envers| && NoCrossRegion(g)
    requires AllIpam(g, ipams)
    requires NewEksCluster(g, e, ipams) == Ok((g', k))
    ensures NoCrossRegion(g')
  {
    var i := FindIpamInRegion(g, ipams, g.envers[e].region).value;
    assert NewEksCluster(g, e, ipams) == EksClusterOn(g, e, ipams[i]);
    EksClusterOnKeepsRegions(g, e, ipams[i]);
  }
}
