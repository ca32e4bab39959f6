/** The default VPC/RDS build: a lookup-or-create registry of VPC
    environments keyed by (account, region, VPC name), each holding a
    lookup-or-create list of RDS clusters, each holding schemas and the
    login names mapped so far.

    The registry is kept apart from the reference graph: a client is a
    graph environment (only its account and region are read), and the
    IPAM environment a VPC draws from is an index. The name-server
    subdomains of an IPAM environment are registered only by this build's
    constructor, so they are exactly the domains of the registry's
    environments on that IPAM environment. */
module VpcRds {
  import opened Wrappers
  import opened Errors
  import opened Strings
  import opened RevRefs
  import opened Producers
  import opened Sanitizers
  import opened Graph
  import opened PgSchemas

  const VpcRdsBuildId: string := "OdmdBuildDefaultVpcRds"

  /** `SimpleVpc`: the VPC name, the IPAM environment and optional netmasks. */
  datatype SimpleVpc = SimpleVpc(vpcName: string, ipamEnver: nat, ipv4NetmaskLength: Option<int>,
                                 defaultSubnetIpv4NetmaskLength: Option<int>)

  /** A default VPC environment: where it deploys, the account's key in the
      accounts table, its revision, its VPC, its clients (graph
      environments), its clusters (indices into the registry's clusters),
      and the role name it trusts. */
  datatype VpcRdsEnver = VpcRdsEnver(account: string, region: string, accountKey: string, rev: RevRef, vpc: SimpleVpc,
                                     clients: set<nat>, clusters: seq<nat>, rdsTrustCentralRoleName: string, ephemeral: bool)

  /** An RDS cluster of a default VPC environment with its fixed settings,
      its schemas in order and the login names mapped so far in order. */
  datatype RdsCluster = RdsCluster(enver: nat, rdsId: string, clusterIdentifier: string, rootSecretName: string,
                                   defaultSgName: string, defaultDatabaseName: string, rootUsername: string,
                                   minCapacity: nat, maxCapacity: nat,
                                   schemaRoleUsers: seq<SchemaUsersProps>, usernames: seq<string>)

  /** The build: the platform's accounts table (key, account id) in
      declaration order, every account id, the construct ids from the root
      down to the build, its environments and its clusters. */
  datatype VpcRdsState = VpcRdsState(accounts: seq<(string, string)>, allAccounts: seq<string>, scopeIds: seq<string>,
                                     envers: seq<VpcRdsEnver>, clusters: seq<RdsCluster>)

  // ---------------------------------------------------------------- accounts and revisions

  /** `getAccountName(id)`: the first key whose account id is `id`; an
      unknown id fails (the source dereferences an undefined entry). */
  function AccountName(accounts: seq<(string, string)>, id: string): (r: Result<string, Error>)
    ensures r.Ok? <==> exists k | 0 <= k < |accounts| :: accounts[k].1 == id
    ensures r.Ok? ==> exists k | 0 <= k < |accounts| :: accounts[k] == (r.value, id) && forall j | 0 <= j < k :: accounts[j].1 != id
    ensures r.Err? ==> r.error == UnknownAccount
  {
    if |accounts| == 0 then Err(UnknownAccount)
    else if accounts[0].1 == id then Ok(accounts[0].0)
    else
      var r := AccountName(accounts[1..], id);
      assert forall k | 1 <= k < |accounts| :: accounts[1..][k - 1] == accounts[k];
      if r.Ok? then
        var k :| 0 <= k < |accounts[1..]| && accounts[1..][k] == (r.value, id) && forall j | 0 <= j < k :: accounts[1..][j].1 != id;
        assert accounts[k + 1] == (r.value, id);
        r
      else r
  }

  /** The default revision value `<region>_<accountKey>_<vpcName>` with every
      character outside `[a-zA-Z0-9_]` replaced by `_`. */
  function DefaultRevValue(region: string, accountKey: string, vpcName: string): (r: string)
    ensures |r| == |region| + |accountKey| + |vpcName| + 2
    ensures All(r, IsWord)
    ensures r[|region|] == '_' && r[|region| + 1 + |accountKey|] == '_'
    ensures forall i | 0 <= i < |region| :: r[i] == (if IsWord(region[i]) then region[i] else '_')
  {
    var raw := region + "_" + accountKey + "_" + vpcName;
    var r := ReplaceOutside(raw, IsWord, '_');
    assert raw[|region|] == '_' && raw[|region| + 1 + |accountKey|] == '_';
    assert forall i | 0 <= i < |region| :: raw[i] == region[i];
    r
  }

  /** Word characters never form a reserved separator. */
  lemma WordValueValid(v: string)
    requires |v| > 0 && All(v, IsWord)
    ensures ValidValue(v)
  {
    assert !HasPair(v, '.', '.') && !HasPair(v, '_', '-') && !HasPair(v, '-', '_') by {
      forall i | 0 <= i < |v| - 1 ensures !PairAt(v, i, '.', '.') && !PairAt(v, i, '_', '-') && !PairAt(v, i, '-', '_') {
        assert IsWord(v[i]) && IsWord(v[i + 1]);
      }
    }
  }

  /** The default revision is always a well-formed value: constructing it
      fails only when it starts with `v` (a branch may not) or contains an
      account id. */
  lemma DefaultRevAccepted(region: string, accountKey: string, vpcName: string, allAccounts: seq<string>)
    ensures var v := DefaultRevValue(region, accountKey, vpcName);
            NewContractsRevRef(Branch, v, None, allAccounts).Ok? <==>
              LowerChar(v[0]) != 'v' && forall k | 0 <= k < |allAccounts| :: !Contains(v, allAccounts[k])
  {
    var v := DefaultRevValue(region, accountKey, vpcName);
    WordValueValid(v);
    assert ValidRef(RevRef(Branch, v, None)) <==> LowerChar(v[0]) != 'v';
  }

  // ---------------------------------------------------------------- the registry invariant

  /** The environment serves this site. */
  predicate SameSite(en: VpcRdsEnver, account: string, region: string, vpcName: string) {
    en.account == account && en.region == region && en.vpc.vpcName == vpcName
  }

  /** The subdomain the environment registers on its IPAM environment. */
  function Domain(en: VpcRdsEnver): string {
    en.vpc.vpcName + "_" + en.accountKey
  }

  /** The clusters of environment `e` point back to it and have distinct
      rds ids. */
  predicate ClustersOk(st: VpcRdsState, e: nat)
    requires e < |st.envers|
  {
    var cs := st.envers[e].clusters;
    && (forall k | 0 <= k < |cs| :: cs[k] < |st.clusters| && st.clusters[cs[k]].enver == e)
    && (forall k1, k2 | 0 <= k1 < k2 < |cs| :: cs[k1] < |st.clusters| && cs[k2] < |st.clusters| &&
          st.clusters[cs[k1]].rdsId != st.clusters[cs[k2]].rdsId)
  }

  /** Within a cluster, schemas and mapped login names are distinct. */
  predicate ClusterOk(c: RdsCluster) {
    && (forall i, j | 0 <= i < j < |c.schemaRoleUsers| :: c.schemaRoleUsers[i].schema != c.schemaRoleUsers[j].schema)
    && (forall i, j | 0 <= i < j < |c.usernames| :: c.usernames[i] != c.usernames[j])
  }

  /** One environment per site, one domain per IPAM environment, every
      account key read from the accounts table, and well-linked clusters. */
  predicate Valid(st: VpcRdsState) {
    && (forall i, j | 0 <= i < j < |st.envers| ::
          !SameSite(st.envers[j], st.envers[i].account, st.envers[i].region, st.envers[i].vpc.vpcName))
    && (forall i, j | 0 <= i < j < |st.envers| ::
          st.envers[i].vpc.ipamEnver == st.envers[j].vpc.ipamEnver ==> Domain(st.envers[i]) != Domain(st.envers[j]))
    && (forall e | 0 <= e < |st.envers| :: AccountName(st.accounts, st.envers[e].account) == Ok(st.envers[e].accountKey))
    && (forall e | 0 <= e < |st.envers| :: ClustersOk(st, e))
    && (forall c | 0 <= c < |st.clusters| :: st.clusters[c].enver < |st.envers| && ClusterOk(st.clusters[c]))
  }

  /** `new OdmdBuildDefaultVpcRds(scope)`: no environments yet. */
  function NewVpcRdsBuild(rootId: string, accounts: seq<(string, string)>, allAccounts: seq<string>): (r: VpcRdsState)
    ensures Valid(r) && r.envers == [] && r.clusters == []
    ensures r.scopeIds == [rootId, VpcRdsBuildId]
  {
    VpcRdsState(accounts, allAccounts, [rootId, VpcRdsBuildId], [], [])
  }

  // ---------------------------------------------------------------- getOrCreateOne

  /** The first environment at or after `i` serving the site. */
  function FindSite(envers: seq<VpcRdsEnver>, account: string, region: string, vpcName: string, i: nat := 0): (r: Option<nat>)
    requires i <= |envers|
    ensures r.None? <==> forall j | i <= j < |envers| :: !SameSite(envers[j], account, region, vpcName)
    ensures r.Some? ==> i <= r.value < |envers| && SameSite(envers[r.value], account, region, vpcName)
    ensures r.Some? ==> forall j | i <= j < r.value :: !SameSite(envers[j], account, region, vpcName)
    decreases |envers| - i
  {
    if i == |envers| then None
    else if SameSite(envers[i], account, region, vpcName) then Some(i)
    else FindSite(envers, account, region, vpcName, i + 1)
  }

  /** A producer id with no children: accepted exactly when it is one valid
      name segment. */
  function CheckProducerId(id: string): (r: Outcome<Error>)
    ensures r.Pass? <==> SegmentOk(id)
    ensures r.Fail? ==> r.error == ProducerNameCharset || r.error == ProducerNameDotDot
  {
    var p := NewProducer(id, ProducerProps(None, []), None);
    if p.Err? then Fail(p.error) else Pass
  }

  /** The environment the constructor makes for a new site, before any
      client is added. */
  function FreshEnver(account: string, region: string, accountKey: string, rev: RevRef, vpc: SimpleVpc): VpcRdsEnver {
    VpcRdsEnver(account, region, accountKey, rev, vpc, {}, [], "rds_" + account + "_trustCentral_" + region, false)
  }

  /** `new ContractsEnverCdkDefaultVpc(build, region, accountKey, vpc)`: the
      default revision, the VPC's producers (named after the VPC), then the
      name-server subdomain `<vpcName>_<accountKey>` on the IPAM environment,
      which must not be registered yet. */
  function NewVpcRdsEnver(st: VpcRdsState, account: string, region: string, vpc: SimpleVpc): (r: Result<VpcRdsEnver, Error>)
    ensures r.Ok? ==> AccountName(st.accounts, account).Ok?
    ensures r.Ok? ==> r.value == FreshEnver(account, region, AccountName(st.accounts, account).value,
                                             RevRef(Branch, DefaultRevValue(region, AccountName(st.accounts, account).value, vpc.vpcName), None), vpc)
    ensures r.Ok? ==> forall j | 0 <= j < |st.envers| :: st.envers[j].vpc.ipamEnver == vpc.ipamEnver ==> Domain(st.envers[j]) != Domain(r.value)
    ensures r.Ok? <==> && AccountName(st.accounts, account).Ok?
                       && NewContractsRevRef(Branch, DefaultRevValue(region, AccountName(st.accounts, account).value, vpc.vpcName), None, st.allAccounts).Ok?
                       && SegmentOk("vpcIpv4Cidr_" + vpc.vpcName) && SegmentOk("nameServers_" + vpc.vpcName)
                       && forall j | 0 <= j < |st.envers| :: !(st.envers[j].vpc.ipamEnver == vpc.ipamEnver &&
                                                               Domain(st.envers[j]) == vpc.vpcName + "_" + AccountName(st.accounts, account).value)
  {
    var key :- AccountName(st.accounts, account);
    var rev :- NewContractsRevRef(Branch, DefaultRevValue(region, key, vpc.vpcName), None, st.allAccounts);
    var p1 := CheckProducerId("vpcIpv4Cidr_" + vpc.vpcName);
    var p2 := CheckProducerId("nameServers_" + vpc.vpcName);
    var en := FreshEnver(account, region, key, rev, vpc);
    if p1.Fail? then Err(p1.error)
    else if p2.Fail? then Err(p2.error)
    else if exists j | 0 <= j < |st.envers| :: st.envers[j].vpc.ipamEnver == vpc.ipamEnver && Domain(st.envers[j]) == Domain(en)
    then Err(SubdomainExists)
    else Ok(en)
  }

  /** `addClient(c)`: adding a client twice changes nothing. */
  function AddClient(en: VpcRdsEnver, c: nat): (r: VpcRdsEnver)
    ensures c in r.clients && r.clients - {c} <= en.clients && en.clients <= r.clients
    ensures r.(clients := en.clients) == en
    ensures c in en.clients ==> r == en
  {
    if c in en.clients then en else en.(clients := en.clients + {c})
  }

  /** Some environment serves the site. */
  predicate HasSite(envers: seq<VpcRdsEnver>, account: string, region: string, vpcName: string) {
    exists j | 0 <= j < |envers| :: SameSite(envers[j], account, region, vpcName)
  }

  /** Environment `i` gains a client; the invariant is kept. */
  function WithClient(st: VpcRdsState, i: nat, client: nat): (r: VpcRdsState)
    requires Valid(st) && i < |st.envers|
    ensures Valid(r) && r == st.(envers := st.envers[i := AddClient(st.envers[i], client)])
  {
    var st' := st.(envers := st.envers[i := AddClient(st.envers[i], client)]);
    assert forall e | 0 <= e < |st'.envers| :: ClustersOk(st', e) by {
      forall e | 0 <= e < |st'.envers| ensures ClustersOk(st', e) {
        assert st'.envers[e].clusters == st.envers[e].clusters;
        assert ClustersOk(st, e);
      }
    }
    st'
  }

  /** A new environment for a new site, with a free domain and no clusters,
      is appended; the invariant is kept. */
  function WithEnver(st: VpcRdsState, en: VpcRdsEnver): (r: VpcRdsState)
    requires Valid(st) && en.clusters == [] && AccountName(st.accounts, en.account) == Ok(en.accountKey)
    requires !HasSite(st.envers, en.account, en.region, en.vpc.vpcName)
    requires forall j | 0 <= j < |st.envers| :: st.envers[j].vpc.ipamEnver == en.vpc.ipamEnver ==> Domain(st.envers[j]) != Domain(en)
    ensures Valid(r) && r == st.(envers := st.envers + [en])
  {
    var st' := st.(envers := st.envers + [en]);
    assert forall e | 0 <= e < |st'.envers| :: ClustersOk(st', e) by {
      forall e | 0 <= e < |st'.envers| ensures ClustersOk(st', e) {
        if e < |st.envers| {
          assert ClustersOk(st, e);
        }
      }
    }
    st'
  }

  /** `getOrCreateOne(client, vpc)`: the environment serving the client's
      account and region with this VPC name gains the client; when there is
      none, one is created, appended, and given the client. */
  function GetOrCreateOne(st: VpcRdsState, g: Contracts, client: nat, vpc: SimpleVpc): (r: Result<(VpcRdsState, nat), Error>)
    requires Valid(st) && client < |g.envers|
    ensures r.Ok? ==> Valid(r.value.0) && r.value.1 < |r.value.0.envers|
                      && SameSite(r.value.0.envers[r.value.1], g.envers[client].account, g.envers[client].region, vpc.vpcName)
                      && client in r.value.0.envers[r.value.1].clients
                      && r.value.0.clusters == st.clusters
                      && r.value.0.accounts == st.accounts && r.value.0.allAccounts == st.allAccounts && r.value.0.scopeIds == st.scopeIds
    ensures HasSite(st.envers, g.envers[client].account, g.envers[client].region, vpc.vpcName)
            ==> r.Ok? && r.value.1 < |st.envers| && r.value.0.envers == st.envers[r.value.1 := AddClient(st.envers[r.value.1], client)]
    ensures !HasSite(st.envers, g.envers[client].account, g.envers[client].region, vpc.vpcName)
            ==> var en := NewVpcRdsEnver(st, g.envers[client].account, g.envers[client].region, vpc);
                (r.Ok? <==> en.Ok?) && (r.Ok? ==> r.value.1 == |st.envers| && r.value.0.envers == st.envers + [AddClient(en.value, client)])
  {
    var account := g.envers[client].account;
    var region := g.envers[client].region;
    var found := FindSite(st.envers, account, region, vpc.vpcName);
    if found.Some? then
      Ok((WithClient(st, found.value, client), found.value))
    else
      var en :- NewVpcRdsEnver(st, account, region, vpc);
      Ok((WithEnver(st, AddClient(en, client)), |st.envers|))
  }

  /** Asking again for the same client and VPC finds the same environment and
      changes nothing. */
  lemma GetOrCreateOneIdempotent(st: VpcRdsState, g: Contracts, client: nat, vpc: SimpleVpc)
    requires Valid(st) && client < |g.envers|
    requires GetOrCreateOne(st, g, client, vpc).Ok?
    ensures var (st', i) := GetOrCreateOne(st, g, client, vpc).value;
            GetOrCreateOne(st', g, client, vpc) == Ok((st', i))
  {
    var (st', i) := GetOrCreateOne(st, g, client, vpc).value;
    var account := g.envers[client].account;
    var region := g.envers[client].region;
    assert SameSite(st'.envers[i], account, region, vpc.vpcName);
    var f := FindSite(st'.envers, account, region, vpc.vpcName);
    assert f == Some(i);
    assert st'.(envers := st'.envers[i := AddClient(st'.envers[i], client)]) == st';
  }

  /** A second region for one VPC name in one account, on the same IPAM
      environment, cannot be created: its name-server subdomain is taken. */
  lemma SecondRegionRejected(st: VpcRdsState, g: Contracts, client: nat, vpc: SimpleVpc, j: nat)
    requires Valid(st) && client < |g.envers| && j < |st.envers|
    requires st.envers[j].account == g.envers[client].account && st.envers[j].vpc.vpcName == vpc.vpcName
    requires st.envers[j].vpc.ipamEnver == vpc.ipamEnver && st.envers[j].region != g.envers[client].region
    requires forall k | 0 <= k < |st.envers| :: !SameSite(st.envers[k], g.envers[client].account, g.envers[client].region, vpc.vpcName)
    ensures GetOrCreateOne(st, g, client, vpc).Err?
  {
    var key := AccountName(st.accounts, g.envers[client].account);
    assert key == Ok(st.envers[j].accountKey);
    assert Domain(st.envers[j]) == vpc.vpcName + "_" + key.value;
  }

  // ---------------------------------------------------------------- RDS clusters

  const DefaultRdsId: string := "db"

  /** `new ContractsRdsCluster(vpc, rdsId = 'db')` for environment `e`: the
      cluster identifier, the secret and security-group names (length-capped
      names under the build), and the fixed defaults. */
  function NewRdsCluster(st: VpcRdsState, e: nat, rdsId: Option<string>, md5: string -> string): (r: Result<RdsCluster, Error>)
    requires e < |st.envers|
    ensures r.Ok? ==> var id := rdsId.GetOr(DefaultRdsId);
                      && r.value.enver == e && r.value.rdsId == id
                      && r.value.clusterIdentifier == ClusterIdentifier(st.envers[e].vpc.vpcName, id)
                      && All(r.value.clusterIdentifier, ClusterChar)
                      && |r.value.rootSecretName| <= DefaultNameCap && |r.value.defaultSgName| <= DefaultNameCap
                      && r.value.defaultDatabaseName == "defaultDatabaseName" && r.value.rootUsername == "pgadmin"
                      && r.value.minCapacity == 2 && r.value.maxCapacity == 8
                      && r.value.schemaRoleUsers == [] && r.value.usernames == []
    ensures r.Err? ==> r.error == HashAllDigits
  {
    var id := rdsId.GetOr(DefaultRdsId);
    var vpcName := st.envers[e].vpc.vpcName;
    var root := CreateName(st.scopeIds, vpcName + id + "secret", DefaultNameCap, md5);
    var sg := CreateName(st.scopeIds, vpcName + id + "security", DefaultNameCap, md5);
    if root.Err? || sg.Err? then Err(HashAllDigits)
    else Ok(RdsCluster(e, id, ClusterIdentifier(vpcName, id), root.value, sg.value, "defaultDatabaseName", "pgadmin", 2, 8, [], []))
  }

  /** The first of `cs[i..]` whose cluster has this rds id. */
  function FindCluster(st: VpcRdsState, cs: seq<nat>, rdsId: string, i: nat := 0): (r: Option<nat>)
    requires i <= |cs| && forall k | 0 <= k < |cs| :: cs[k] < |st.clusters|
    ensures r.None? <==> forall k | i <= k < |cs| :: st.clusters[cs[k]].rdsId != rdsId
    ensures r.Some? ==> exists k | i <= k < |cs| :: cs[k] == r.value && st.clusters[r.value].rdsId == rdsId
    decreases |cs| - i
  {
    if i == |cs| then None
    else if st.clusters[cs[i]].rdsId == rdsId then Some(cs[i])
    else FindCluster(st, cs, rdsId, i + 1)
  }

  /** Some cluster of `cs` has this rds id. */
  predicate HasCluster(st: VpcRdsState, cs: seq<nat>, rdsId: string) {
    exists k | 0 <= k < |cs| :: cs[k] < |st.clusters| && st.clusters[cs[k]].rdsId == rdsId
  }

  /** A new cluster of environment `e` with an rds id the environment does
      not use yet is appended; the invariant is kept. */
  function WithCluster(st: VpcRdsState, e: nat, c: RdsCluster): (r: VpcRdsState)
    requires Valid(st) && e < |st.envers| && c.enver == e && c.schemaRoleUsers == [] && c.usernames == []
    requires !HasCluster(st, st.envers[e].clusters, c.rdsId)
    ensures Valid(r)
    ensures r == st.(clusters := st.clusters + [c],
                     envers := st.envers[e := st.envers[e].(clusters := st.envers[e].clusters + [|st.clusters|])])
  {
    var st' := st.(clusters := st.clusters + [c],
                   envers := st.envers[e := st.envers[e].(clusters := st.envers[e].clusters + [|st.clusters|])]);
    forall e' | 0 <= e' < |st'.envers| ensures ClustersOk(st', e') {
      ClusterLinksKept(st, e, c, e');
    }
    st'
  }

  /** After appending cluster `c` to environment `e`, every environment's
      cluster links still hold. */
  lemma ClusterLinksKept(st: VpcRdsState, e: nat, c: RdsCluster, e': nat)
    requires Valid(st) && e < |st.envers| && e' < |st.envers| && c.enver == e
    requires !HasCluster(st, st.envers[e].clusters, c.rdsId)
    ensures ClustersOk(st.(clusters := st.clusters + [c],
                           envers := st.envers[e := st.envers[e].(clusters := st.envers[e].clusters + [|st.clusters|])]), e')
  {
    var st' := st.(clusters := st.clusters + [c],
                   envers := st.envers[e := st.envers[e].(clusters := st.envers[e].clusters + [|st.clusters|])]);
    assert ClustersOk(st, e');
    if e' == e {
      var cs' := st'.envers[e].clusters;
      assert forall k | 0 <= k < |cs'| - 1 :: cs'[k] == st.envers[e].clusters[k];
    }
  }

  /** `getOrCreateRdsCluster(rdsId)` on environment `e`: the cluster with this
      rds id, or a new one appended to the environment's clusters. */
  function GetOrCreateRdsCluster(st: VpcRdsState, e: nat, rdsId: string, md5: string -> string): (r: Result<(VpcRdsState, nat), Error>)
    requires Valid(st) && e < |st.envers|
    ensures r.Ok? ==> Valid(r.value.0) && |r.value.0.envers| == |st.envers| && r.value.1 < |r.value.0.clusters|
    ensures r.Ok? ==> r.value.1 in r.value.0.envers[e].clusters && r.value.0.clusters[r.value.1].rdsId == rdsId
    ensures HasCluster(st, st.envers[e].clusters, rdsId) ==> r.Ok? && r.value.0 == st
    ensures !HasCluster(st, st.envers[e].clusters, rdsId)
            ==> var c := NewRdsCluster(st, e, Some(rdsId), md5);
                (r.Ok? <==> c.Ok?) && (r.Ok? ==> r.value.1 == |st.clusters| && r.value.0 == WithCluster(st, e, c.value))
  {
    assert ClustersOk(st, e);
    var found := FindCluster(st, st.envers[e].clusters, rdsId);
    if found.Some? then Ok((st, found.value))
    else
      var c :- NewRdsCluster(st, e, Some(rdsId), md5);
      Ok((WithCluster(st, e, c), |st.clusters|))
  }

  /** Asking twice for the same rds id gives the same cluster and nothing new. */
  lemma GetOrCreateRdsClusterIdempotent(st: VpcRdsState, e: nat, rdsId: string, md5: string -> string)
    requires Valid(st) && e < |st.envers|
    requires GetOrCreateRdsCluster(st, e, rdsId, md5).Ok?
    ensures var (st', c) := GetOrCreateRdsCluster(st, e, rdsId, md5).value;
            GetOrCreateRdsCluster(st', e, rdsId, md5) == Ok((st', c))
  {
    var (st', c) := GetOrCreateRdsCluster(st, e, rdsId, md5).value;
    var cs := st'.envers[e].clusters;
    var k :| 0 <= k < |cs| && cs[k] == c;
    assert st'.clusters[cs[k]].rdsId == rdsId;
    assert ClustersOk(st', e);
    var f := FindCluster(st', cs, rdsId);
    assert f == Some(c);
  }

  // ---------------------------------------------------------------- schema users

  /** The login names of a schema's users, in order. A plain projection;
      what mapping them does is stated by `MapUsernames`. */
  function UserNames(us: seq<PgUsr>): (r: seq<string>)
    ensures |r| == |us| && forall i | 0 <= i < |us| :: r[i] == us[i].userName
  {
    seq(|us|, i requires 0 <= i < |us| => us[i].userName)
  }

  /** The login names can all be mapped after `have`: none is mapped
      already, none repeats, and each makes a valid producer id. */
  predicate NamesFit(have: seq<string>, names: seq<string>) {
    && (forall i | 0 <= i < |names| :: names[i] !in have && SegmentOk("clusteruser-" + names[i]))
    && (forall i, j | 0 <= i < j < |names| :: names[i] != names[j])
  }

  /** The mapping loop: each name in order is rejected if already mapped,
      else gets its producer (whose id must be valid) and is mapped. The
      names mapped before a failure stay mapped. */
  function MapUsernames(have: seq<string>, names: seq<string>): (r: (seq<string>, Outcome<Error>))
    ensures r.1.Pass? <==> NamesFit(have, names)
    ensures r.1.Pass? ==> r.0 == have + names
    ensures |have| <= |r.0| && r.0[..|have|] == have
    ensures (forall i, j | 0 <= i < j < |have| :: have[i] != have[j]) ==>
              forall i, j | 0 <= i < j < |r.0| :: r.0[i] != r.0[j]
    ensures r.1.Fail? ==> r.1.error in {PgUserExists, ProducerNameCharset, ProducerNameDotDot}
    decreases |names|
  {
    if |names| == 0 then (have, Pass)
    else if names[0] in have then (have, Fail(PgUserExists))
    else
      var p := CheckProducerId("clusteruser-" + names[0]);
      if p.Fail? then (have, Fail(p.error))
      else
        var r := MapUsernames(have + [names[0]], names[1..]);
        assert (have + [names[0]])[..|have|] == have;
        assert r.0[..|have|] == have by {
          assert r.0[..|have| + 1][..|have|] == r.0[..|have|];
        }
        NamesFitStep(have, names);
        assert r.1.Pass? ==> r.0 == have + names by {
          if r.1.Pass? {
            assert have + [names[0]] + names[1..] == have + names;
          }
        }
        r
  }

  /** Fitting a list of names is fitting its head, then its tail after the
      head is mapped. */
  lemma NamesFitStep(have: seq<string>, names: seq<string>)
    requires |names| > 0
    ensures NamesFit(have, names) <==>
              names[0] !in have && SegmentOk("clusteruser-" + names[0]) && NamesFit(have + [names[0]], names[1..])
  {
    assert forall i | 1 <= i < |names| :: names[1..][i - 1] == names[i];
    if NamesFit(have, names) {
      forall i | 0 <= i < |names[1..]| ensures names[1..][i] !in have + [names[0]] {
        assert names[1..][i] == names[i + 1] && names[0] != names[i + 1];
      }
    }
    if names[0] !in have && NamesFit(have + [names[0]], names[1..]) {
      forall i, j | 0 <= i < j < |names| ensures names[i] != names[j] {
        if i == 0 {
          assert names[j] == names[1..][j - 1];
        } else {
          assert names[i] == names[1..][i - 1] && names[j] == names[1..][j - 1];
        }
      }
    }
  }

  /** The cluster has a schema of this name. */
  predicate HasSchema(c: RdsCluster, schema: string) {
    exists i | 0 <= i < |c.schemaRoleUsers| :: c.schemaRoleUsers[i].schema == schema
  }

  /** Changing clusters' schemas and names, but not their owners or rds ids,
      keeps the environments' cluster links. */
  lemma ClustersKept(st: VpcRdsState, st': VpcRdsState)
    requires Valid(st) && st'.envers == st.envers && st'.accounts == st.accounts && |st'.clusters| == |st.clusters|
    requires forall c | 0 <= c < |st.clusters| :: st'.clusters[c].enver == st.clusters[c].enver
               && st'.clusters[c].rdsId == st.clusters[c].rdsId && ClusterOk(st'.clusters[c])
    ensures Valid(st')
  {
    forall e | 0 <= e < |st'.envers| ensures ClustersOk(st', e) {
      assert ClustersOk(st, e);
    }
  }

  /** Cluster `rc` is replaced by one with the same owner and rds id whose
      schemas and names are distinct; the invariant is kept. */
  function WithClusterData(st: VpcRdsState, rc: nat, c: RdsCluster): (r: VpcRdsState)
    requires Valid(st) && rc < |st.clusters| && ClusterOk(c)
    requires c.enver == st.clusters[rc].enver && c.rdsId == st.clusters[rc].rdsId
    ensures Valid(r) && r == st.(clusters := st.clusters[rc := c])
  {
    var st' := st.(clusters := st.clusters[rc := c]);
    ClustersKept(st, st');
    st'
  }

  /** `addSchemaUsers(rds, schemaUsers)` on environment `e`: the cluster
      must be one of the environment's and must not have the schema yet.
      The schema is added first; then the props' users are read through the
      secret-filling getter (the stored props are the same object, so they
      are filled too) and their login names mapped. A later failure keeps
      the schema and the names mapped before it. */
  function AddSchemaUsers(st: VpcRdsState, e: nat, rc: nat, props: SchemaUsersProps, md5: string -> string): (r: (VpcRdsState, Outcome<Error>))
    requires Valid(st) && e < |st.envers| && rc < |st.clusters|
    ensures Valid(r.0) && r.0.envers == st.envers && |r.0.clusters| == |st.clusters|
    ensures forall c | 0 <= c < |st.clusters| && c != rc :: r.0.clusters[c] == st.clusters[c]
    ensures rc !in st.envers[e].clusters ==> r == (st, Fail(RdsNotOfThisVpc))
    ensures rc in st.envers[e].clusters && HasSchema(st.clusters[rc], props.schema) ==> r == (st, Fail(SchemaExists))
    ensures r.1.Pass? <==> && rc in st.envers[e].clusters && !HasSchema(st.clusters[rc], props.schema)
                           && UserSecrets(props, md5).Ok?
                           && NamesFit(st.clusters[rc].usernames, UserNames(props.userSecrets))
    ensures r.1.Pass? ==> r.0.clusters[rc] == st.clusters[rc].(schemaRoleUsers := st.clusters[rc].schemaRoleUsers + [UserSecrets(props, md5).value],
                                                               usernames := st.clusters[rc].usernames + UserNames(props.userSecrets))
    ensures r.0 != st ==> var n := |st.clusters[rc].schemaRoleUsers|;
                          |r.0.clusters[rc].schemaRoleUsers| == n + 1
                          && r.0.clusters[rc].schemaRoleUsers[..n] == st.clusters[rc].schemaRoleUsers
                          && r.0.clusters[rc].schemaRoleUsers[n].schema == props.schema
  {
    if rc !in st.envers[e].clusters then (st, Fail(RdsNotOfThisVpc))
    else if HasSchema(st.clusters[rc], props.schema) then (st, Fail(SchemaExists))
    else StoreSchema(st, rc, props, md5)
  }

  /** The part of `addSchemaUsers` after its checks: the schema is stored
      (filled when the getter succeeds), then the login names are mapped. */
  function StoreSchema(st: VpcRdsState, rc: nat, props: SchemaUsersProps, md5: string -> string): (r: (VpcRdsState, Outcome<Error>))
    requires Valid(st) && rc < |st.clusters| && !HasSchema(st.clusters[rc], props.schema)
    ensures Valid(r.0) && r.0.envers == st.envers && |r.0.clusters| == |st.clusters|
    ensures forall c | 0 <= c < |st.clusters| && c != rc :: r.0.clusters[c] == st.clusters[c]
    ensures r.1.Pass? <==> UserSecrets(props, md5).Ok? && NamesFit(st.clusters[rc].usernames, UserNames(props.userSecrets))
    ensures r.1.Pass? ==> r.0.clusters[rc] == st.clusters[rc].(schemaRoleUsers := st.clusters[rc].schemaRoleUsers + [UserSecrets(props, md5).value],
                                                               usernames := st.clusters[rc].usernames + UserNames(props.userSecrets))
    ensures var n := |st.clusters[rc].schemaRoleUsers|;
            |r.0.clusters[rc].schemaRoleUsers| == n + 1
            && r.0.clusters[rc].schemaRoleUsers[..n] == st.clusters[rc].schemaRoleUsers
            && r.0.clusters[rc].schemaRoleUsers[n].schema == props.schema
  {
    var c := st.clusters[rc];
    var filled := UserSecrets(props, md5);
    var stored := if filled.Ok? then filled.value else props;
    var schemas := c.schemaRoleUsers + [stored];
    assert schemas[..|c.schemaRoleUsers|] == c.schemaRoleUsers;
    assert ClusterOk(c);
    if filled.Err? then
      (WithClusterData(st, rc, c.(schemaRoleUsers := schemas)), Fail(filled.error))
    else
      var (names, out) := MapUsernames(c.usernames, UserNames(filled.value.userSecrets));
      assert UserNames(filled.value.userSecrets) == UserNames(props.userSecrets);
      (WithClusterData(st, rc, c.(schemaRoleUsers := schemas, usernames := names)), out)
  }

  /** A call that failed after adding its schema cannot be retried: the
      schema is already there. */
  lemma FailedSchemaBlocksRetry(st: VpcRdsState, e: nat, rc: nat, props: SchemaUsersProps, md5: string -> string)
    requires Valid(st) && e < |st.envers| && rc < |st.clusters|
    requires AddSchemaUsers(st, e, rc, props, md5).0 != st
    ensures var st' := AddSchemaUsers(st, e, rc, props, md5).0;
            AddSchemaUsers(st', e, rc, props, md5) == (st', Fail(SchemaExists))
  {
    var st' := AddSchemaUsers(st, e, rc, props, md5).0;
    var n := |st.clusters[rc].schemaRoleUsers|;
    assert rc in st.envers[e].clusters;
    assert st'.clusters[rc].schemaRoleUsers[n].schema == props.schema;
  }

  // ---------------------------------------------------------------- stack names

  /** Every stack name of the build starts with this. */
  const StackBase: string := VpcRdsBuildId + "--"

  /** Extending a string keeps its prefixes. */
  lemma StartsWithExtend(s: string, t: string, p: string)
    requires StartsWith(s, p)
    ensures StartsWith(s + t, p)
  {
    assert (s + t)[..|p|] == s[..|p|];
  }

  /** The unsanitized stack names of the clusters: per cluster, the cluster's
      name, then one name per schema. */
  function ClusterStackNames(base: string, st: VpcRdsState, cs: seq<nat>): (r: seq<string>)
    requires StartsWith(base, StackBase) && forall k | 0 <= k < |cs| :: cs[k] < |st.clusters|
    ensures forall i | 0 <= i < |r| :: StartsWith(r[i], StackBase)
  {
    if |cs| == 0 then []
    else
      var c := st.clusters[cs[0]];
      var own := base + "-" + c.clusterIdentifier;
      StartsWithExtend(base, "-" + c.clusterIdentifier, StackBase);
      assert own == base + ("-" + c.clusterIdentifier);
      var schemas := seq(|c.schemaRoleUsers|, j requires 0 <= j < |c.schemaRoleUsers| => own + "-" + c.schemaRoleUsers[j].schema);
      forall j | 0 <= j < |schemas| ensures StartsWith(schemas[j], StackBase) {
        StartsWithExtend(own, "-" + c.schemaRoleUsers[j].schema, StackBase);
        assert schemas[j] == own + ("-" + c.schemaRoleUsers[j].schema);
      }
      [own] + schemas + ClusterStackNames(base, st, cs[1..])
  }

  /** Sanitizing a name that starts with `<buildId>--` keeps the build id. */
  lemma SanitizedKeepsBuildId(n: string)
    requires StartsWith(n, StackBase)
    ensures StartsWith(SanitizeStackName(n), VpcRdsBuildId)
  {
    assert StackChar('O');
    assert All(VpcRdsBuildId, StackChar);
    var rest := n[|VpcRdsBuildId|..];
    assert n == VpcRdsBuildId + rest by {
      assert n[..|StackBase|][..|VpcRdsBuildId|] == VpcRdsBuildId;
    }
    SanitizeKeepsPrefix(VpcRdsBuildId, rest);
  }

  /** Each name sanitized, in order. */
  function SanitizeEach(raw: seq<string>): (r: seq<string>)
    requires forall i | 0 <= i < |raw| :: StartsWith(raw[i], StackBase)
    ensures |r| == |raw|
    ensures forall i | 0 <= i < |r| :: r[i] == SanitizeStackName(raw[i]) && All(r[i], StackChar) && StartsWith(r[i], VpcRdsBuildId)
  {
    var r := seq(|raw|, i requires 0 <= i < |raw| => SanitizeStackName(raw[i]));
    forall i | 0 <= i < |r| ensures StartsWith(r[i], VpcRdsBuildId) {
      SanitizedKeepsBuildId(raw[i]);
    }
    r
  }

  /** `getRevStackNames()`: `<buildId>--<rev part>`, then the clusters' names,
      every one sanitized. */
  function VpcRdsStackNames(st: VpcRdsState, e: nat): (r: seq<string>)
    requires Valid(st) && e < |st.envers|
    ensures |r| >= 1 && r[0] == SanitizeStackName(StackBase + RevStackPart(st.envers[e].rev))
    ensures forall i | 0 <= i < |r| :: All(r[i], StackChar) && StartsWith(r[i], VpcRdsBuildId)
  {
    assert ClustersOk(st, e);
    var base := StackBase + RevStackPart(st.envers[e].rev);
    StartsWithExtend(StackBase, RevStackPart(st.envers[e].rev), StackBase);
    SanitizeEach([base] + ClusterStackNames(base, st, st.envers[e].clusters))
  }

  /** The stack names the whole-graph rule accepts are exactly those short
      enough: the build id already fixes the shape and the prefix. */
  lemma VpcRdsStackNamesOk(st: VpcRdsState, e: nat, i: nat)
    requires Valid(st) && e < |st.envers| && i < |VpcRdsStackNames(st, e)|
    ensures var n := VpcRdsStackNames(st, e)[i];
            StackNameOk(n, VpcRdsBuildId) <==> |n| <= 128
  {
    var n := VpcRdsStackNames(st, e)[i];
    assert n[..|VpcRdsBuildId|] == VpcRdsBuildId;
    assert n[0] == 'O';
  }

  // ---------------------------------------------------------------- allowed producers

  /** The options of an allow-list consumer. */
  const AllowOptions: ConsumerOptions := ConsumerOptions(Some("0.0.0.0/32"), Directly)

  /** `addAllowProducer(producer)`: a consumer of the producer, named after
      it, on the environment `addrEnver` of the VPC's addresses, appended
      to the cluster's allow list. */
  function AddAllowProducer(g: Contracts, addrEnver: nat, p: nat, allowing: seq<nat>): (r: Result<(Contracts, seq<nat>), Error>)
    requires WellFormed(g) && addrEnver < |g.envers| && p < |g.producers|
    ensures r.Ok? <==> NewConsumer(g, addrEnver, g.producers[p].name, p, AllowOptions).Ok?
    ensures r.Ok? ==> WellFormed(r.value.0) && r.value.1 == allowing + [|g.consumers|]
    ensures r.Ok? ==> r.value.0.consumers == g.consumers + [Consumer(addrEnver, g.producers[p].name, p, AllowOptions)]
    ensures r.Ok? ==> ConsumersOf(r.value.0, p) == ConsumersOf(g, p) + {|g.consumers|}
  {
    var (g', c) :- NewConsumer(g, addrEnver, g.producers[p].name, p, AllowOptions);
    NewConsumerRegisters(g, addrEnver, g.producers[p].name, p, AllowOptions);
    Ok((g', allowing + [c]))
  }
}
