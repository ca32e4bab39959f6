/** The per-class singleton registry of builds: every concrete build class
    may be constructed once, and the class's static accessor returns its
    instance. A class is named by a string and an instance by its build
    index. */
module Singletons {
  import opened Wrappers
  import opened Errors

  /** `CENTRAL_TO_INST`: class to instance. */
  type Registry = map<string, nat>

  /** The build constructor's registration: a class seen before is a
      duplicate singleton, and the registry is left as it was. */
  function NewContractsBuild(reg: Registry, cls: string, inst: nat): (r: Result<Registry, Error>)
    ensures r.Ok? <==> cls !in reg
    ensures r.Err? ==> r.error == DuplicateSingleton
    ensures r.Ok? ==> r.value.Keys == reg.Keys + {cls} && forall c | c in reg :: r.value[c] == reg[c]
    ensures r.Ok? ==> GetInst(r.value, cls) == Some(inst)
  {
    if cls in reg then Err(DuplicateSingleton) else Ok(reg[cls := inst])
  }

  /** `getInst()`: the registered instance, if any (the source's non-null
      assertion does not check at run time). */
  function GetInst(reg: Registry, cls: string): (r: Option<nat>)
    ensures r.Some? <==> cls in reg
    ensures r.Some? ==> reg[cls] == r.value
  {
    if cls in reg then Some(reg[cls]) else None
  }

  /** Constructing builds in order, stopping at the first failure. */
  function ConstructAll(reg: Registry, builds: seq<(string, nat)>): (r: Result<Registry, Error>)
    decreases |builds|
  {
    if |builds| == 0 then Ok(reg)
    else
      var reg' :- NewContractsBuild(reg, builds[0].0, builds[0].1);
      ConstructAll(reg', builds[1..])
  }

  /** Constructing a sequence of builds succeeds exactly when no class is
      already registered and no class repeats; then every class maps to its
      instance. */
  lemma {:induction false} ConstructAllOk(reg: Registry, builds: seq<(string, nat)>)
    ensures ConstructAll(reg, builds).Ok? <==>
              && (forall i | 0 <= i < |builds| :: builds[i].0 !in reg)
              && (forall i, j | 0 <= i < j < |builds| :: builds[i].0 != builds[j].0)
    ensures ConstructAll(reg, builds).Ok? ==>
              forall i | 0 <= i < |builds| :: GetInst(ConstructAll(reg, builds).value, builds[i].0) == Some(builds[i].1)
    decreases |builds|
  {
    if |builds| > 0 {
      var r0 := NewContractsBuild(reg, builds[0].0, builds[0].1);
      if r0.Ok? {
        ConstructAllOk(r0.value, builds[1..]);
        assert forall i | 1 <= i < |builds| :: builds[1..][i - 1] == builds[i];
        if ConstructAll(reg, builds).Ok? {
          KeptAfter(r0.value, builds[1..], builds[0].0);
        }
      }
    }
  }

  /** A class registered before a successful run keeps its instance. */
  lemma {:induction false} KeptAfter(reg: Registry, builds: seq<(string, nat)>, cls: string)
    requires cls in reg && ConstructAll(reg, builds).Ok?
    ensures cls in ConstructAll(reg, builds).value && ConstructAll(reg, builds).value[cls] == reg[cls]
    decreases |builds|
  {
    if |builds| > 0 {
      KeptAfter(NewContractsBuild(reg, builds[0].0, builds[0].1).value, builds[1..], cls);
    }
  }
}
