/** The default Kubernetes-on-EKS build: one environment per user
    environment, deployed to the user's account and the toolkit's default
    region, on the user's branch. */
module KubeEks {
  import opened Wrappers
  import opened Errors
  import opened RevRefs
  import opened Graph

  const KubeEksBuildId: string := "DefaultKubeEks"

  /** An environment of the build: where it deploys, its revision, the
      user environment it serves (an index into the graph), the target EKS
      cluster environment and the namespace. */
  datatype KubeEksEnver = KubeEksEnver(account: string, region: string, rev: RevRef, user: nat, cluster: nat, namespace: string)

  /** The build: every account id, the toolkit's default region (read from
      the environment by the source), and the environments in order. */
  datatype KubeEksState = KubeEksState(allAccounts: seq<string>, defaultRegion: string, envers: seq<KubeEksEnver>)

  /** At most one environment per user environment. */
  predicate Valid(st: KubeEksState) {
    forall i, j | 0 <= i < j < |st.envers| :: st.envers[i].user != st.envers[j].user
  }

  /** `new OdmdBuildDefaultKubeEks(scope)`: no environments yet. */
  function NewKubeEksBuild(allAccounts: seq<string>, defaultRegion: string): (r: KubeEksState)
    ensures Valid(r) && r.envers == [] && r.allAccounts == allAccounts && r.defaultRegion == defaultRegion
  {
    KubeEksState(allAccounts, defaultRegion, [])
  }

  /** `new ContractsEnverCdkDefaultEcrEks(build, user, cluster, namespace)`:
      the user's account, the default region, and a branch named after the
      user's revision value. A user on a tag starting with `v` (or on a value
      with an account id in it) cannot be served. */
  function NewKubeEksEnver(st: KubeEksState, g: Contracts, user: nat, cluster: nat, namespace: string): (r: Result<KubeEksEnver, Error>)
    requires user < |g.envers|
    ensures r.Ok? <==> NewContractsRevRef(Branch, g.envers[user].rev.value, None, st.allAccounts).Ok?
    ensures r.Ok? ==> && r.value.user == user && r.value.account == g.envers[user].account
                      && r.value.region == st.defaultRegion && r.value.rev.kind == Branch
                      && r.value.rev.value == g.envers[user].rev.value && r.value.rev.origin.None?
                      && r.value.cluster == cluster && r.value.namespace == namespace
  {
    var rev :- NewContractsRevRef(Branch, g.envers[user].rev.value, None, st.allAccounts);
    Ok(KubeEksEnver(g.envers[user].account, st.defaultRegion, rev, user, cluster, namespace))
  }

  /** The first environment at or after `i` serving the user. */
  function FindUser(envers: seq<KubeEksEnver>, user: nat, i: nat := 0): (r: Option<nat>)
    requires i <= |envers|
    ensures r.None? <==> forall j | i <= j < |envers| :: envers[j].user != user
    ensures r.Some? ==> i <= r.value < |envers| && envers[r.value].user == user
    ensures r.Some? ==> forall j | i <= j < r.value :: envers[j].user != user
    decreases |envers| - i
  {
    if i == |envers| then None
    else if envers[i].user == user then Some(i)
    else FindUser(envers, user, i + 1)
  }

  /** `getOrCreateOne(usr, cluster, namespace)`: the environment already
      serving the user, unchanged (the cluster and namespace asked for are
      ignored); otherwise a new one, appended. */
  function GetOrCreateOne(st: KubeEksState, g: Contracts, user: nat, cluster: nat, namespace: string): (r: Result<(KubeEksState, nat), Error>)
    requires Valid(st) && user < |g.envers|
    ensures r.Ok? ==> Valid(r.value.0) && r.value.1 < |r.value.0.envers| && r.value.0.envers[r.value.1].user == user
    ensures r.Ok? ==> r.value.0.allAccounts == st.allAccounts && r.value.0.defaultRegion == st.defaultRegion
    ensures (exists j | 0 <= j < |st.envers| :: st.envers[j].user == user) ==> r.Ok? && r.value.0 == st
    ensures (forall j | 0 <= j < |st.envers| :: st.envers[j].user != user) ==>
              var en := NewKubeEksEnver(st, g, user, cluster, namespace);
              (r.Ok? <==> en.Ok?) && (r.Ok? ==> r.value.0.envers == st.envers + [en.value] && r.value.1 == |st.envers|)
  {
    var found := FindUser(st.envers, user);
    if found.Some? then Ok((st, found.value))
    else
      var en :- NewKubeEksEnver(st, g, user, cluster, namespace);
      Ok((st.(envers := st.envers + [en]), |st.envers|))
  }

  /** Asking again for the same user returns the same environment and
      changes nothing, whatever cluster and namespace are asked for. */
  lemma GetOrCreateOneIdempotent(st: KubeEksState, g: Contracts, user: nat, cluster: nat, namespace: string,
                                 cluster': nat, namespace': string)
    requires Valid(st) && user < |g.envers|
    requires GetOrCreateOne(st, g, user, cluster, namespace).Ok?
    ensures var (st', i) := GetOrCreateOne(st, g, user, cluster, namespace).value;
            GetOrCreateOne(st', g, user, cluster', namespace') == Ok((st', i))
  {
    var (st', i) := GetOrCreateOne(st, g, user, cluster, namespace).value;
    var f := FindUser(st'.envers, user);
    assert f == Some(i);
  }
}
