/** The whole-graph rules the repository's test suite enforces on every
    registered build: build ids, revision values, distinct revision paths,
    stack names, overlapping root branches per region and account, the VPC
    and RDS settings of each environment, and that one VPC name means one VPC
    configuration within an account.

    Each rule has a reference predicate; each check reports the first
    failing rule in the suite's order and passes exactly when the
    predicates hold. */
module Rules {
  import opened Wrappers
  import opened Errors
  import opened Strings
  import opened RevRefs
  import opened Graph
  import opened Sanitizers
  import opened PgSchemas

  const ResPrefix: string := "odmd-"
  const MaxBuildIdLength: nat := 25
  const MaxRevValueLength: nat := 40
  const MaxStackNameLength: nat := 128

  /** The first failing check over `xs`, in order. */
  function FirstFail<T>(xs: seq<T>, f: T -> Outcome<Error>): (r: Outcome<Error>)
    ensures r.Pass? <==> forall i | 0 <= i < |xs| :: f(xs[i]).Pass?
    ensures r.Fail? ==> exists i | 0 <= i < |xs| :: f(xs[i]) == r && forall j | 0 <= j < i :: f(xs[j]).Pass?
  {
    if |xs| == 0 then Pass
    else if f(xs[0]).Fail? then f(xs[0])
    else
      assert forall i | 0 <= i < |xs| - 1 :: xs[1..][i] == xs[i + 1];
      FirstFail(xs[1..], f)
  }

  /** The distinct strings of `ss` in order of first appearance, as a
      JavaScript `Map` or `Set` iterates the keys it was given. */
  function FirstSeen(ss: seq<string>): (r: seq<string>)
    ensures forall s :: s in r <==> s in ss
    ensures forall i, j | 0 <= i < j < |r| :: r[i] != r[j]
  {
    if |ss| == 0 then []
    else
      var rest := FirstSeen(ss[..|ss| - 1]);
      assert ss == ss[..|ss| - 1] + [ss[|ss| - 1]];
      if ss[|ss| - 1] in rest then rest else rest + [ss[|ss| - 1]]
  }

  /** Of two strings in `FirstSeen(ss)`, the earlier one occurs in `ss`
      before the later one first does. With the contract of `FirstSeen`
      this fixes the order completely. */
  lemma {:induction false} FirstSeenOrder(ss: seq<string>, i: nat, j: nat)
    requires i < j < |FirstSeen(ss)|
    ensures exists p | 0 <= p < |ss| :: ss[p] == FirstSeen(ss)[i] && FirstSeen(ss)[j] !in ss[..p]
  {
    var r := FirstSeen(ss);
    var init := ss[..|ss| - 1];
    var rest := FirstSeen(init);
    assert ss == init + [ss[|ss| - 1]];
    if j < |rest| {
      assert r[..|rest|] == rest;
      FirstSeenOrder(init, i, j);
      var p :| 0 <= p < |init| && init[p] == rest[i] && rest[j] !in init[..p];
      assert ss[..p] == init[..p];
    } else {
      assert r == rest + [ss[|ss| - 1]] && r[i] == rest[i] && rest[i] in init;
      var p :| 0 <= p < |init| && init[p] == rest[i];
      assert ss[..p] == init[..p];
    }
  }

  /** The first string of `ss` comes first. */
  lemma {:induction false} FirstSeenHead(ss: seq<string>)
    requires |ss| > 0
    ensures |FirstSeen(ss)| > 0 && FirstSeen(ss)[0] == ss[0]
  {
    var init := ss[..|ss| - 1];
    if |init| > 0 {
      FirstSeenHead(init);
      assert init[0] == ss[0];
    }
  }

  // ---------------------------------------------------------------- build ids

  /** At most 25 characters, and only the contracts library may start with
      `odmd-` in any letter case. */
  predicate BuildIdOk(g: Contracts, b: nat)
    requires b < |g.builds|
  {
    && (b == g.contractsLib || !StartsWith(Lower(g.builds[b].id), ResPrefix))
    && |g.builds[b].id| <= MaxBuildIdLength
  }

  function CheckBuildId(g: Contracts, b: nat): (r: Outcome<Error>)
    requires b < |g.builds|
    ensures r.Pass? <==> BuildIdOk(g, b)
    ensures r.Fail? ==> r.error == (if b != g.contractsLib && StartsWith(Lower(g.builds[b].id), ResPrefix)
                                    then BuildIdReservedPrefix else BuildIdTooLong)
  {
    if StartsWith(Lower(g.builds[b].id), ResPrefix) && b != g.contractsLib then Fail(BuildIdReservedPrefix)
    else if |g.builds[b].id| > MaxBuildIdLength then Fail(BuildIdTooLong)
    else Pass
  }

  // ---------------------------------------------------------------- revision values

  /** `^[a-zA-Z0-9_]+$`. */
  predicate WordValue(v: string) {
    |v| > 0 && All(v, IsWord)
  }

  /** At most 40 characters (longer than 25 only warns), and with a GitHub
      repository only word characters, since the value becomes part of
      secret names. */
  predicate RevValueOk(en: Enver, gitHub: bool) {
    |en.rev.value| <= MaxRevValueLength && (gitHub ==> WordValue(en.rev.value))
  }

  function CheckRevValue(en: Enver, gitHub: bool): (r: Outcome<Error>)
    ensures r.Pass? <==> RevValueOk(en, gitHub)
    ensures r.Fail? ==> r.error == (if |en.rev.value| > MaxRevValueLength then RevValueTooLong else RevValueNotWord)
  {
    if |en.rev.value| > MaxRevValueLength then Fail(RevValueTooLong)
    else if !WordValue(en.rev.value) && gitHub then Fail(RevValueNotWord)
    else Pass
  }

  /** The per-environment checks as functions of the environment index;
      indices outside the arena pass (they do not occur in a well-formed
      graph). */
  function NonEmptyFor(g: Contracts): nat -> Outcome<Error> {
    (e: nat) => if e < |g.envers| && |g.envers[e].rev.value| == 0 then Fail(EmptyRevValue) else Pass
  }

  function RevCheckFor(g: Contracts, gitHub: bool): nat -> Outcome<Error> {
    (e: nat) => if e < |g.envers| then CheckRevValue(g.envers[e], gitHub) else Pass
  }

  // ---------------------------------------------------------------- distinct paths

  /** One deployment per revision path within a build. */
  predicate DistinctPaths(g: Contracts, es: seq<nat>)
    requires forall i | 0 <= i < |es| :: es[i] < |g.envers|
  {
    forall i, j | 0 <= i < j < |es| :: PathOf(g.envers[es[i]].rev) != PathOf(g.envers[es[j]].rev)
  }

  /** The `Map<path, Set<enver>>` reduction: fails on the first path seen
      before. */
  method CheckDistinctPaths(g: Contracts, es: seq<nat>) returns (r: Outcome<Error>)
    requires forall i | 0 <= i < |es| :: es[i] < |g.envers|
    ensures r.Pass? <==> DistinctPaths(g, es)
    ensures r.Fail? ==> r.error == DuplicateRevPath
  {
    var seen: set<string> := {};
    var k := 0;
    while k < |es|
      invariant 0 <= k <= |es|
      invariant seen == set i | 0 <= i < k :: PathOf(g.envers[es[i]].rev)
      invariant forall i, j | 0 <= i < j < k :: PathOf(g.envers[es[i]].rev) != PathOf(g.envers[es[j]].rev)
    {
      var p := PathOf(g.envers[es[k]].rev);
      if p in seen {
        return Fail(DuplicateRevPath);
      }
      seen := seen + {p};
      k := k + 1;
    }
    return Pass;
  }

  // ---------------------------------------------------------------- stack names

  /** The checks on one stack name, in order: length, shape, build prefix. */
  function CheckStackName(name: string, buildId: string): (r: Outcome<Error>)
    ensures r.Pass? <==> StackNameOk(name, buildId)
    ensures r.Fail? ==> r.error == (if |name| > MaxStackNameLength then StackNameTooLong
                                    else if !(|name| > 0 && IsAlpha(name[0]) && All(name, StackChar)) then StackNameShape
                                    else StackNameNotBuildPrefixed)
  {
    if |name| > MaxStackNameLength then Fail(StackNameTooLong)
    else if !(|name| > 0 && IsAlpha(name[0]) && All(name, StackChar)) then Fail(StackNameShape)
    else if !StartsWith(name, buildId) then Fail(StackNameNotBuildPrefixed)
    else Pass
  }

  function NameCheckFor(buildId: string): string -> Outcome<Error> {
    n => CheckStackName(n, buildId)
  }

  /** A CDK environment's stack names all satisfy the rule, and every
      environment has a region and an account. `stacks(e)` is
      `getRevStackNames()` of a CDK environment and `None` for others. */
  predicate EnverStacksOk(g: Contracts, e: nat, stacks: nat -> Option<seq<string>>)
    requires WellFormed(g) && e < |g.envers|
  {
    && (stacks(e).Some? ==> forall k | 0 <= k < |stacks(e).value| :: StackNameOk(stacks(e).value[k], EnverBuildId(g, e)))
    && g.envers[e].region != ""
    && g.envers[e].account != ""
  }

  function CheckEnverStacks(g: Contracts, e: nat, stacks: nat -> Option<seq<string>>): (r: Outcome<Error>)
    requires WellFormed(g) && e < |g.envers|
    ensures r.Pass? <==> EnverStacksOk(g, e, stacks)
  {
    var names := if stacks(e).Some? then stacks(e).value else [];
    var r := FirstFail(names, NameCheckFor(EnverBuildId(g, e)));
    if r.Fail? then r
    else if g.envers[e].region == "" then Fail(EnverRegionUnset)
    else if g.envers[e].account == "" then Fail(EnverAccountUnset)
    else Pass
  }

  function StackCheckFor(g: Contracts, stacks: nat -> Option<seq<string>>): nat -> Outcome<Error>
    requires WellFormed(g)
  {
    (e: nat) => if e < |g.envers| then CheckEnverStacks(g, e, stacks) else Pass
  }

  // ---------------------------------------------------------------- overlapping root branches

  /** The grouping key, `<region>/<account>`. */
  function GroupKey(en: Enver): string {
    en.region + "/" + en.account
  }

  /** One value is a prefix of the other (so a dynamic branch of one could
      be read as a branch of the other). */
  predicate Overlap(u: string, v: string) {
    StartsWith(u, v) || StartsWith(v, u)
  }

  /** Environments `i` and `j` do not clash: different groups, or values
      neither of which prefixes the other. */
  predicate Clear(g: Contracts, es: seq<nat>, i: nat, j: nat)
    requires i < |es| && j < |es| && es[i] < |g.envers| && es[j] < |g.envers|
  {
    GroupKey(g.envers[es[i]]) == GroupKey(g.envers[es[j]]) ==> !Overlap(g.envers[es[i]].rev.value, g.envers[es[j]].rev.value)
  }

  predicate NoOverlap(g: Contracts, es: seq<nat>)
    requires forall i | 0 <= i < |es| :: es[i] < |g.envers|
  {
    forall i, j | 0 <= j < i < |es| :: Clear(g, es, i, j)
  }

  /** The pairwise loop over each region/account group; the order within a
      group is the environments' order, so it visits the same pairs. */
  method CheckOverlap(g: Contracts, es: seq<nat>) returns (r: Outcome<Error>)
    requires forall i | 0 <= i < |es| :: es[i] < |g.envers|
    ensures r.Pass? <==> NoOverlap(g, es)
    ensures r.Fail? ==> r.error == OverlappingRootBranches
  {
    var i := 1;
    while i < |es|
      invariant 1 <= i <= |es| || (|es| == 0 && i == 1)
      invariant forall i', j | 0 <= j < i' < i && i' < |es| :: Clear(g, es, i', j)
    {
      var j := 0;
      while j < i
        invariant 0 <= j <= i
        invariant forall j' | 0 <= j' < j :: Clear(g, es, i, j')
      {
        if !Clear(g, es, i, j) {
          return Fail(OverlappingRootBranches);
        }
        j := j + 1;
      }
      i := i + 1;
    }
    return Pass;
  }

  // ---------------------------------------------------------------- one build

  /** Every rule the suite applies to one build. */
  predicate BuildRulesHold(g: Contracts, b: nat, gitHub: bool, stacks: nat -> Option<seq<string>>)
    requires WellFormed(g) && b < |g.builds|
  {
    var es := g.builds[b].envers;
    && BuildIdOk(g, b)
    && (forall i | 0 <= i < |es| :: |g.envers[es[i]].rev.value| > 0)
    && (forall i | 0 <= i < |es| :: RevValueOk(g.envers[es[i]], gitHub))
    && DistinctPaths(g, es)
    && (forall i | 0 <= i < |es| :: EnverStacksOk(g, es[i], stacks))
    && NoOverlap(g, es)
  }

  /** The checks of one build, in the suite's order. */
  method CheckBuild(g: Contracts, b: nat, gitHub: bool, stacks: nat -> Option<seq<string>>) returns (r: Outcome<Error>)
    requires WellFormed(g) && b < |g.builds|
    ensures r.Pass? <==> BuildRulesHold(g, b, gitHub, stacks)
    ensures !BuildIdOk(g, b) ==> r == CheckBuildId(g, b)
  {
    var es := g.builds[b].envers;
    r := CheckBuildId(g, b);
    if r.Fail? {
      return;
    }
    r := FirstFail(es, NonEmptyFor(g));
    if r.Fail? {
      return;
    }
    r := FirstFail(es, RevCheckFor(g, gitHub));
    if r.Fail? {
      return;
    }
    r := CheckDistinctPaths(g, es);
    if r.Fail? {
      return;
    }
    r := FirstFail(es, StackCheckFor(g, stacks));
    if r.Fail? {
      return;
    }
    r := CheckOverlap(g, es);
  }

  // ---------------------------------------------------------------- VPC and RDS settings

  /** `OdmdIpAddresses` as the checks see it; `isOdmd` is false for any
      other `IIpAddresses`. A netmask of 0 is JavaScript-falsy, like an
      absent one. */
  datatype AddressInfo = AddressInfo(isOdmd: bool, ipv4NetmaskLength: int, defaultSubnetIpv4NetmaskLength: int, poolOwner: nat)

  /** An environment's `vpcConfig`: its object identity, name, addresses,
      number of subnet configurations, and the owner of the transit-gateway
      producer when there is a transit-gateway consumer. */
  datatype VpcInfo = VpcInfo(config: nat, vpcName: Option<string>, addresses: Option<AddressInfo>,
                             subnetConfigurations: nat, transitGatewayOwner: Option<nat>)

  datatype SchemaUsers = SchemaUsers(schema: string, userNames: seq<string>)

  /** An environment's `rdsConfig`: its identifiers, the identity of its VPC
      configuration and whether that VPC's addresses are `OdmdIpAddresses`,
      and its schema users. */
  datatype RdsInfo = RdsInfo(clusterIdentifier: string, defaultDatabaseName: string, vpc: nat, vpcAddressesOdmd: bool,
                             schemaRoleUsers: seq<SchemaUsers>)

  datatype EnverExtras = EnverExtras(vpc: Option<VpcInfo>, rds: Option<RdsInfo>)

  /** `[a-z0-9-]`. */
  predicate ClusterIdChar(c: char) { IsLowerAlnum(c) || c == '-' }

  /** `^[a-z](?:(?![-]{2,})[a-z0-9-]){1,62}(?<!-)$`: 2 to 63 characters,
      a lower-case letter first, no `--`, no trailing `-`. */
  predicate ClusterIdOk(s: string) {
    && 2 <= |s| <= 63
    && IsLower(s[0]) && All(s, ClusterIdChar)
    && !HasPair(s, '-', '-')
    && s[|s| - 1] != '-'
  }

  /** `[A-Za-z0-9_$]`. */
  predicate DbNameChar(c: char) { IsWord(c) || c == '$' }

  /** `^[A-Za-z_][A-Za-z0-9_$]{0,62}$`. */
  predicate DbNameOk(s: string) {
    1 <= |s| <= 63 && (IsAlpha(s[0]) || s[0] == '_') && All(s, DbNameChar)
  }

  /** Every schema and user name is valid and no schema repeats. */
  predicate SchemasOk(us: seq<SchemaUsers>) {
    && (forall i | 0 <= i < |us| :: PgNameOk(us[i].schema))
    && (forall i, k | 0 <= i < |us| && 0 <= k < |us[i].userNames| :: PgNameOk(us[i].userNames[k]))
    && (forall i, j | 0 <= i < j < |us| :: us[i].schema != us[j].schema)
  }

  /** The schema reduction: per entry, the schema name, then its user
      names, then whether the schema was seen before. */
  function CheckSchemas(us: seq<SchemaUsers>, seen: set<string>): (r: Outcome<Error>)
    ensures r.Pass? <==> SchemasOk(us) && forall i | 0 <= i < |us| :: us[i].schema !in seen
    ensures r.Fail? ==> r.error == InvalidPgName || r.error == RepeatedSchema
    decreases |us|
  {
    if |us| == 0 then Pass
    else if !PgNameOk(us[0].schema) then Fail(InvalidPgName)
    else if exists k | 0 <= k < |us[0].userNames| :: !PgNameOk(us[0].userNames[k]) then Fail(InvalidPgName)
    else if us[0].schema in seen then Fail(RepeatedSchema)
    else
      var r := CheckSchemas(us[1..], seen + {us[0].schema});
      assert forall i | 1 <= i < |us| :: us[i] == us[1..][i - 1];
      r
  }

  /** Some environment of the build has exactly this VPC configuration. */
  predicate VpcInBuild(g: Contracts, b: nat, extras: nat -> EnverExtras, config: nat)
    requires b < |g.builds|
  {
    exists i | 0 <= i < |g.builds[b].envers| ::
      extras(g.builds[b].envers[i]).vpc.Some? && extras(g.builds[b].envers[i]).vpc.value.config == config
  }

  predicate RdsOk(g: Contracts, e: nat, extras: nat -> EnverExtras)
    requires WellFormed(g) && e < |g.envers| && extras(e).rds.Some?
  {
    var rds := extras(e).rds.value;
    && ClusterIdOk(rds.clusterIdentifier)
    && DbNameOk(rds.defaultDatabaseName)
    && VpcInBuild(g, g.envers[e].build, extras, rds.vpc)
    && rds.vpcAddressesOdmd
    && SchemasOk(rds.schemaRoleUsers)
  }

  /** `checkRdsEnver`. */
  function CheckRds(g: Contracts, e: nat, extras: nat -> EnverExtras): (r: Outcome<Error>)
    requires WellFormed(g) && e < |g.envers| && extras(e).rds.Some?
    ensures r.Pass? <==> RdsOk(g, e, extras)
  {
    var rds := extras(e).rds.value;
    if !ClusterIdOk(rds.clusterIdentifier) then Fail(InvalidClusterIdentifier)
    else if !DbNameOk(rds.defaultDatabaseName) then Fail(InvalidDatabaseName)
    else if !VpcInBuild(g, g.envers[e].build, extras, rds.vpc) then Fail(RdsVpcNotInBuild)
    else if !rds.vpcAddressesOdmd then Fail(RdsVpcNotOdmd)
    else CheckSchemas(rds.schemaRoleUsers, {})
  }

  predicate VpcEnverOk(g: Contracts, e: nat, extras: nat -> EnverExtras)
    requires WellFormed(g) && e < |g.envers| && extras(e).vpc.Some?
  {
    var v := extras(e).vpc.value;
    && v.addresses.Some? && v.addresses.value.isOdmd
    && v.addresses.value.ipv4NetmaskLength != 0
    && (v.addresses.value.defaultSubnetIpv4NetmaskLength != 0 || v.subnetConfigurations > 0)
    && (v.transitGatewayOwner.Some? ==> v.transitGatewayOwner.value == v.addresses.value.poolOwner)
    && (extras(e).rds.Some? ==> RdsOk(g, e, extras))
  }

  /** `checkVpcEnver`. */
  function CheckVpcEnver(g: Contracts, e: nat, extras: nat -> EnverExtras): (r: Outcome<Error>)
    requires WellFormed(g) && e < |g.envers| && extras(e).vpc.Some?
    ensures r.Pass? <==> VpcEnverOk(g, e, extras)
  {
    var v := extras(e).vpc.value;
    if v.addresses.None? then Fail(VpcAddressesMissing)
    else if !v.addresses.value.isOdmd then Fail(VpcAddressesNotOdmd)
    else if v.addresses.value.ipv4NetmaskLength == 0 then Fail(VpcNetmaskMissing)
    else if v.addresses.value.defaultSubnetIpv4NetmaskLength == 0 && v.subnetConfigurations == 0 then Fail(VpcSubnetsMissing)
    else if v.transitGatewayOwner.Some? && v.transitGatewayOwner.value != v.addresses.value.poolOwner then Fail(VpcTgwMismatch)
    else if extras(e).rds.Some? then CheckRds(g, e, extras)
    else Pass
  }

  function VpcCheckFor(g: Contracts, extras: nat -> EnverExtras): nat -> Outcome<Error>
    requires WellFormed(g)
  {
    (e: nat) => if e < |g.envers| && extras(e).vpc.Some? then CheckVpcEnver(g, e, extras) else Pass
  }

  // ---------------------------------------------------------------- VPC names per account

  /** A VPC environment as the name check sees it. */
  datatype VpcEntry = VpcEntry(buildId: string, account: string, vpcName: Option<string>, config: nat)

  /** Every VPC is named, and one name means one configuration. */
  predicate NamesConsistent(xs: seq<VpcEntry>) {
    && (forall x | x in xs :: x.vpcName.Some?)
    && (forall x, y | x in xs && y in xs && x.vpcName == y.vpcName :: x.config == y.config)
  }

  /** `detectDivVpcWithSameName` folded over the entries: the map keeps
      the last entry of each name. */
  function DetectDivergent(xs: seq<VpcEntry>, seen: map<string, nat>): (r: Outcome<Error>)
    ensures r.Fail? ==> r.error == VpcNameUndefined || r.error == DivergentVpcConfig
    decreases |xs|
  {
    if |xs| == 0 then Pass
    else if xs[0].vpcName.None? then Fail(VpcNameUndefined)
    else if xs[0].vpcName.value in seen && seen[xs[0].vpcName.value] != xs[0].config then Fail(DivergentVpcConfig)
    else DetectDivergent(xs[1..], seen[xs[0].vpcName.value := xs[0].config])
  }

  /** The map agrees with every entry of the same name. */
  predicate SeenAgrees(xs: seq<VpcEntry>, seen: map<string, nat>) {
    forall x | x in xs && x.vpcName.Some? && x.vpcName.value in seen :: seen[x.vpcName.value] == x.config
  }

  /** The fold passes exactly when the entries are consistent among
      themselves and with what was seen before. */
  lemma {:induction false} DetectDivergentSound(xs: seq<VpcEntry>, seen: map<string, nat>)
    ensures DetectDivergent(xs, seen).Pass? <==> NamesConsistent(xs) && SeenAgrees(xs, seen)
    decreases |xs|
  {
    if |xs| > 0 && xs[0].vpcName.Some? {
      var n := xs[0].vpcName.value;
      if !(n in seen && seen[n] != xs[0].config) {
        var seen' := seen[n := xs[0].config];
        DetectDivergentSound(xs[1..], seen');
        if NamesConsistent(xs) && SeenAgrees(xs, seen) {
          ConsistentStepDown(xs, seen);
        }
        if NamesConsistent(xs[1..]) && SeenAgrees(xs[1..], seen') {
          ConsistentStepUp(xs, seen);
        }
      }
    }
  }

  /** Consistency of a list, with the map, carries over to its tail once
      the head is recorded. */
  lemma ConsistentStepDown(xs: seq<VpcEntry>, seen: map<string, nat>)
    requires |xs| > 0 && xs[0].vpcName.Some?
    requires NamesConsistent(xs) && SeenAgrees(xs, seen)
    ensures NamesConsistent(xs[1..]) && SeenAgrees(xs[1..], seen[xs[0].vpcName.value := xs[0].config])
  {
    assert forall x | x in xs[1..] :: x in xs;
  }

  /** And back: a consistent tail that agrees with the map recording the
      head makes the whole list consistent with the map before. */
  lemma ConsistentStepUp(xs: seq<VpcEntry>, seen: map<string, nat>)
    requires |xs| > 0 && xs[0].vpcName.Some?
    requires !(xs[0].vpcName.value in seen && seen[xs[0].vpcName.value] != xs[0].config)
    requires NamesConsistent(xs[1..]) && SeenAgrees(xs[1..], seen[xs[0].vpcName.value := xs[0].config])
    ensures NamesConsistent(xs) && SeenAgrees(xs, seen)
  {
    var n := xs[0].vpcName.value;
    var seen' := seen[n := xs[0].config];
    assert forall x | x in xs :: x == xs[0] || x in xs[1..];
    forall x, y | x in xs && y in xs && x.vpcName == y.vpcName
      ensures x.config == y.config
    {
      if x != xs[0] && y == xs[0] {
        assert seen'[n] == x.config;
      } else if x == xs[0] && y != xs[0] {
        assert seen'[n] == y.config;
      }
    }
  }

  /** Entries of one account, or of one build, in order. */
  function OfAccount(xs: seq<VpcEntry>, a: string): (r: seq<VpcEntry>)
    ensures forall x :: x in r <==> x in xs && x.account == a
  {
    if |xs| == 0 then []
    else (if xs[0].account == a then [xs[0]] else []) + OfAccount(xs[1..], a)
  }

  function OfBuild(xs: seq<VpcEntry>, b: string): (r: seq<VpcEntry>)
    ensures forall x :: x in r <==> x in xs && x.buildId == b
  {
    if |xs| == 0 then []
    else (if xs[0].buildId == b then [xs[0]] else []) + OfBuild(xs[1..], b)
  }

  /** The build ids of the entries, one per entry. */
  function BuildIds(xs: seq<VpcEntry>): seq<string> {
    seq(|xs|, i requires 0 <= i < |xs| => xs[i].buildId)
  }

  function BuildCheckFor(xs: seq<VpcEntry>): string -> Outcome<Error> {
    b => DetectDivergent(OfBuild(xs, b), map[])
  }

  /** The per-build folds can never fail once the per-account fold passed:
      a build's entries are some of the account's entries. */
  lemma BuildFoldsRedundant(mine: seq<VpcEntry>)
    requires DetectDivergent(mine, map[]).Pass?
    ensures FirstFail(FirstSeen(BuildIds(mine)), BuildCheckFor(mine)).Pass?
  {
    var ids := FirstSeen(BuildIds(mine));
    forall i | 0 <= i < |ids| ensures BuildCheckFor(mine)(ids[i]).Pass? {
      BuildShareConsistent(mine, ids[i]);
    }
  }

  /** A build's share of entries that pass the fold passes it too. */
  lemma BuildShareConsistent(xs: seq<VpcEntry>, b: string)
    requires DetectDivergent(xs, map[]).Pass?
    ensures DetectDivergent(OfBuild(xs, b), map[]).Pass?
  {
    DetectDivergentSound(xs, map[]);
    DetectDivergentSound(OfBuild(xs, b), map[]);
  }

  /** One account: the fold over its VPC environments, then the fold over
      each build's share of them. Only the first fold can fail, so the
      account fails exactly when its names are inconsistent, and then with
      what that fold reports. */
  function CheckAccount(xs: seq<VpcEntry>, a: string): (r: Outcome<Error>)
    ensures r.Pass? <==> NamesConsistent(OfAccount(xs, a))
    ensures r.Fail? ==> r == DetectDivergent(OfAccount(xs, a), map[])
  {
    var mine := OfAccount(xs, a);
    var r := DetectDivergent(mine, map[]);
    DetectDivergentSound(mine, map[]);
    if r.Fail? then r
    else
      BuildFoldsRedundant(mine);
      FirstFail(FirstSeen(BuildIds(mine)), BuildCheckFor(mine))
  }

  /** Two VPC environments of one account with one name share one
      configuration, and every VPC is named. */
  predicate VpcNamesOk(xs: seq<VpcEntry>) {
    && (forall x | x in xs :: x.vpcName.Some?)
    && (forall x, y | x in xs && y in xs && x.account == y.account && x.vpcName == y.vpcName :: x.config == y.config)
  }

  /** The accounts visited in the order `accts` gives: the check reports
      the fold of the first account whose names are inconsistent. */
  function CheckVpcNames(accts: seq<string>, xs: seq<VpcEntry>): (r: Outcome<Error>)
    ensures r.Pass? <==> forall i | 0 <= i < |accts| :: NamesConsistent(OfAccount(xs, accts[i]))
    ensures r.Fail? ==> exists i | 0 <= i < |accts| ::
      && r == DetectDivergent(OfAccount(xs, accts[i]), map[])
      && forall j | 0 <= j < i :: NamesConsistent(OfAccount(xs, accts[j]))
  {
    var r := FirstFail(accts, AccountCheckFor(xs));
    FirstFailingAccount(accts, xs);
    r
  }

  function AccountCheckFor(xs: seq<VpcEntry>): string -> Outcome<Error> {
    a => CheckAccount(xs, a)
  }

  /** What the account checks in order report, in terms of the names. */
  lemma FirstFailingAccount(accts: seq<string>, xs: seq<VpcEntry>)
    ensures var r := FirstFail(accts, AccountCheckFor(xs));
      && (r.Pass? <==> forall i | 0 <= i < |accts| :: NamesConsistent(OfAccount(xs, accts[i])))
      && (r.Fail? ==> exists i | 0 <= i < |accts| ::
            && r == DetectDivergent(OfAccount(xs, accts[i]), map[])
            && forall j | 0 <= j < i :: NamesConsistent(OfAccount(xs, accts[j])))
  {
    var f := AccountCheckFor(xs);
    var r := FirstFail(accts, f);
    forall i | 0 <= i < |accts| ensures f(accts[i]) == CheckAccount(xs, accts[i]) {
    }
    if r.Fail? {
      var i :| 0 <= i < |accts| && f(accts[i]) == r && forall j | 0 <= j < i :: f(accts[j]).Pass?;
      assert r == DetectDivergent(OfAccount(xs, accts[i]), map[]);
    }
  }

  /** When every entry's account is visited, the name check passes exactly
      when names are consistent per account. */
  lemma CheckVpcNamesSound(accts: seq<string>, xs: seq<VpcEntry>)
    requires forall x | x in xs :: x.account in accts
    ensures CheckVpcNames(accts, xs).Pass? <==> VpcNamesOk(xs)
  {
    if !VpcNamesOk(xs) && forall i | 0 <= i < |accts| :: NamesConsistent(OfAccount(xs, accts[i])) {
      forall x | x in xs ensures x.vpcName.Some? {
        var i :| 0 <= i < |accts| && accts[i] == x.account;
        assert x in OfAccount(xs, accts[i]);
      }
      forall x, y | x in xs && y in xs && x.account == y.account && x.vpcName == y.vpcName
        ensures x.config == y.config
      {
        var i :| 0 <= i < |accts| && accts[i] == x.account;
        assert x in OfAccount(xs, accts[i]) && y in OfAccount(xs, accts[i]);
      }
    }
  }

  /** The order matters. Environments of accounts A, B, B, A are
      registered; the first has no VPC, the next two share a VPC name with
      different configurations, and the last has an unnamed VPC. Visiting
      the accounts of all environments reports the unnamed VPC; visiting
      those of the VPC environments alone would report the divergent
      configuration. */
  lemma AccountOrderFromAllEnvironments()
    ensures var xs := [VpcEntry("b1", "B", Some("x"), 1), VpcEntry("b1", "B", Some("x"), 2), VpcEntry("b2", "A", None, 3)];
      && CheckVpcNames(FirstSeen(["A", "B", "B", "A"]), xs) == Fail(VpcNameUndefined)
      && CheckVpcNames(FirstSeen(["B", "B", "A"]), xs) == Fail(DivergentVpcConfig)
  {
    var xs := [VpcEntry("b1", "B", Some("x"), 1), VpcEntry("b1", "B", Some("x"), 2), VpcEntry("b2", "A", None, 3)];
    UnnamedAccountFails(xs, FirstSeen(["A", "B", "B", "A"]));
    DivergentAccountFails(xs, FirstSeen(["B", "B", "A"]));
  }

  lemma UnnamedAccountFails(xs: seq<VpcEntry>, accts: seq<string>)
    requires xs == [VpcEntry("b1", "B", Some("x"), 1), VpcEntry("b1", "B", Some("x"), 2), VpcEntry("b2", "A", None, 3)]
    requires accts == FirstSeen(["A", "B", "B", "A"])
    ensures CheckVpcNames(accts, xs) == Fail(VpcNameUndefined)
  {
    FirstSeenHead(["A", "B", "B", "A"]);
    assert xs[1..] == [xs[1], xs[2]] && xs[1..][1..] == [xs[2]] && xs[1..][1..][1..] == [];
    assert OfAccount(xs[1..][1..], "A") == [xs[2]];
    assert OfAccount(xs, "A") == [xs[2]];
    assert CheckAccount(xs, "A") == Fail(VpcNameUndefined);
  }

  lemma DivergentAccountFails(xs: seq<VpcEntry>, accts: seq<string>)
    requires xs == [VpcEntry("b1", "B", Some("x"), 1), VpcEntry("b1", "B", Some("x"), 2), VpcEntry("b2", "A", None, 3)]
    requires accts == FirstSeen(["B", "B", "A"])
    ensures CheckVpcNames(accts, xs) == Fail(DivergentVpcConfig)
  {
    FirstSeenHead(["B", "B", "A"]);
    assert xs[1..] == [xs[1], xs[2]] && xs[1..][1..] == [xs[2]] && xs[1..][1..][1..] == [];
    assert OfAccount(xs[1..][1..], "B") == [];
    assert OfAccount(xs[1..], "B") == [xs[1]];
    assert OfAccount(xs, "B") == [xs[0], xs[1]];
    assert [xs[0], xs[1]][1..] == [xs[1]];
    assert DetectDivergent([xs[1]], map["x" := 1]) == Fail(DivergentVpcConfig);
    assert CheckAccount(xs, "B") == Fail(DivergentVpcConfig);
  }

  // ---------------------------------------------------------------- the whole suite

  /** The environments of the first `n` registered builds, in order. */
  function RegistryEnvers(g: Contracts, n: nat): (r: seq<nat>)
    requires WellFormed(g) && n <= |g.registry|
    ensures forall i | 0 <= i < |r| :: r[i] < |g.envers|
  {
    if n == 0 then []
    else RegistryEnvers(g, n - 1) + g.builds[g.registry[n - 1]].envers
  }

  /** The accounts of the given environments, one per environment. */
  function EnverAccounts(g: Contracts, es: seq<nat>): seq<string>
    requires forall i | 0 <= i < |es| :: es[i] < |g.envers|
  {
    seq(|es|, i requires 0 <= i < |es| => g.envers[es[i]].account)
  }

  /** The accounts of every registered environment, with or without a VPC,
      in order of first registration: the keys of `accountToEnvers`. */
  function SuiteAccounts(g: Contracts): seq<string>
    requires WellFormed(g)
  {
    FirstSeen(EnverAccounts(g, RegistryEnvers(g, |g.registry|)))
  }

  /** The name check's view of a VPC environment. */
  function VpcEntryOf(g: Contracts, e: nat, extras: nat -> EnverExtras): VpcEntry
    requires WellFormed(g) && e < |g.envers| && extras(e).vpc.Some?
  {
    VpcEntry(EnverBuildId(g, e), g.envers[e].account, extras(e).vpc.value.vpcName, extras(e).vpc.value.config)
  }

  /** The VPC entries of the given environments, in order: exactly the
      environments that have a VPC. */
  function VpcEntries(g: Contracts, es: seq<nat>, extras: nat -> EnverExtras): (r: seq<VpcEntry>)
    requires WellFormed(g) && forall i | 0 <= i < |es| :: es[i] < |g.envers|
    ensures forall i | 0 <= i < |es| && extras(es[i]).vpc.Some? :: VpcEntryOf(g, es[i], extras) in r
    ensures forall x | x in r :: exists i | 0 <= i < |es| :: extras(es[i]).vpc.Some? && x == VpcEntryOf(g, es[i], extras)
  {
    if |es| == 0 then []
    else
      var e := es[0];
      var rest := VpcEntries(g, es[1..], extras);
      assert forall i | 0 < i < |es| :: es[i] == es[1..][i - 1];
      if extras(e).vpc.Some? then [VpcEntryOf(g, e, extras)] + rest
      else rest
  }

  /** Every VPC entry's account is among the suite's accounts. */
  lemma SuiteAccountsCover(g: Contracts, extras: nat -> EnverExtras)
    requires WellFormed(g)
    ensures var all := RegistryEnvers(g, |g.registry|);
      forall x | x in VpcEntries(g, all, extras) :: x.account in SuiteAccounts(g)
  {
    var all := RegistryEnvers(g, |g.registry|);
    var accts := EnverAccounts(g, all);
    forall x | x in VpcEntries(g, all, extras) ensures x.account in SuiteAccounts(g) {
      var i :| 0 <= i < |all| && extras(all[i]).vpc.Some? && x == VpcEntryOf(g, all[i], extras);
      assert accts[i] == x.account;
    }
  }

  /** Every registered build's rules hold. */
  predicate BuildsHold(g: Contracts, gitHub: nat -> bool, stacks: nat -> Option<seq<string>>)
    requires WellFormed(g)
  {
    forall i | 0 <= i < |g.registry| :: BuildRulesHold(g, g.registry[i], gitHub(g.registry[i]), stacks)
  }

  /** Every VPC environment among `all` has valid settings. */
  predicate VpcEnversHold(g: Contracts, all: seq<nat>, extras: nat -> EnverExtras)
    requires WellFormed(g) && forall i | 0 <= i < |all| :: all[i] < |g.envers|
  {
    forall i | 0 <= i < |all| :: extras(all[i]).vpc.Some? ==> VpcEnverOk(g, all[i], extras)
  }

  /** Everything the suite checks. */
  predicate SuiteHolds(g: Contracts, gitHub: nat -> bool, stacks: nat -> Option<seq<string>>, extras: nat -> EnverExtras)
    requires WellFormed(g)
  {
    var all := RegistryEnvers(g, |g.registry|);
    && BuildsHold(g, gitHub, stacks)
    && VpcEnversHold(g, all, extras)
    && VpcNamesOk(VpcEntries(g, all, extras))
  }

  /** The VPC phase of the suite passes exactly when every VPC environment
      among `all` has valid settings, and otherwise reports the check of
      the first one that does not. */
  lemma VpcPhaseSound(g: Contracts, all: seq<nat>, extras: nat -> EnverExtras)
    requires WellFormed(g) && forall i | 0 <= i < |all| :: all[i] < |g.envers|
    ensures FirstFail(all, VpcCheckFor(g, extras)).Pass? <==> VpcEnversHold(g, all, extras)
    ensures var r := FirstFail(all, VpcCheckFor(g, extras));
      r.Fail? ==> exists i | 0 <= i < |all| ::
        && extras(all[i]).vpc.Some? && r == CheckVpcEnver(g, all[i], extras)
        && forall j | 0 <= j < i :: extras(all[j]).vpc.Some? ==> VpcEnverOk(g, all[j], extras)
  {
    var f := VpcCheckFor(g, extras);
    forall i | 0 <= i < |all|
      ensures f(all[i]).Pass? <==> (extras(all[i]).vpc.Some? ==> VpcEnverOk(g, all[i], extras))
    {
    }
    var r := FirstFail(all, f);
    if r.Fail? {
      var i :| 0 <= i < |all| && f(all[i]) == r && forall j | 0 <= j < i :: f(all[j]).Pass?;
      assert extras(all[i]).vpc.Some? && r == CheckVpcEnver(g, all[i], extras);
    }
  }

  /** The suite: every registered build's rules in registry order, then
      every VPC environment's settings, then VPC names per account in the
      order the accounts were first registered. It reports the first
      failure in that order. `gitHub(b)` says build `b` has a GitHub
      repository. */
  method CheckSuite(g: Contracts, gitHub: nat -> bool, stacks: nat -> Option<seq<string>>, extras: nat -> EnverExtras)
    returns (r: Outcome<Error>)
    requires WellFormed(g)
    ensures r.Pass? <==> SuiteHolds(g, gitHub, stacks, extras)
    ensures r.Fail? && !BuildsHold(g, gitHub, stacks) ==> exists i | 0 <= i < |g.registry| ::
      && (forall j | 0 <= j < i :: BuildRulesHold(g, g.registry[j], gitHub(g.registry[j]), stacks))
      && !BuildRulesHold(g, g.registry[i], gitHub(g.registry[i]), stacks)
    ensures var all := RegistryEnvers(g, |g.registry|);
      r.Fail? && BuildsHold(g, gitHub, stacks) && !VpcEnversHold(g, all, extras) ==> exists i | 0 <= i < |all| ::
        && extras(all[i]).vpc.Some? && r == CheckVpcEnver(g, all[i], extras)
        && forall j | 0 <= j < i :: extras(all[j]).vpc.Some? ==> VpcEnverOk(g, all[j], extras)
    ensures var all := RegistryEnvers(g, |g.registry|);
      var accts := SuiteAccounts(g);
      var xs := VpcEntries(g, all, extras);
      r.Fail? && BuildsHold(g, gitHub, stacks) && VpcEnversHold(g, all, extras) ==> exists i | 0 <= i < |accts| ::
        && r == DetectDivergent(OfAccount(xs, accts[i]), map[])
        && forall j | 0 <= j < i :: NamesConsistent(OfAccount(xs, accts[j]))
  {
    var k := 0;
    while k < |g.registry|
      invariant 0 <= k <= |g.registry|
      invariant forall i | 0 <= i < k :: BuildRulesHold(g, g.registry[i], gitHub(g.registry[i]), stacks)
    {
      r := CheckBuild(g, g.registry[k], gitHub(g.registry[k]), stacks);
      if r.Fail? {
        assert !BuildRulesHold(g, g.registry[k], gitHub(g.registry[k]), stacks);
        return;
      }
      k := k + 1;
    }
    var all := RegistryEnvers(g, |g.registry|);
    VpcPhaseSound(g, all, extras);
    r := FirstFail(all, VpcCheckFor(g, extras));
    if r.Fail? {
      return;
    }
    var xs := VpcEntries(g, all, extras);
    SuiteAccountsCover(g, extras);
    r := CheckVpcNames(SuiteAccounts(g), xs);
    CheckVpcNamesSound(SuiteAccounts(g), xs);
  }
}
