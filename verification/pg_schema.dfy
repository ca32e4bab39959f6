/** Schema users of an RDS cluster: the props object that names a schema and
    its users, the getter that fills each user's missing secret name, and the
    checks the `PgSchemaUsers` construct makes on the filled users. */
module PgSchemas {
  import opened Wrappers
  import opened Errors
  import opened Strings
  import opened Sanitizers

  /** `^[a-zA-Z_][a-zA-Z0-9_]{0,62}$`, the identifier pattern for schemas
      (and, in the whole-graph checks, for user names). */
  predicate PgNameOk(s: string) {
    1 <= |s| <= 63 && (IsAlpha(s[0]) || s[0] == '_') && All(s, IsWord)
  }

  /** `[a-z0-9_]`. */
  predicate PgUserChar(c: char) { IsLowerAlnum(c) || c == '_' }

  /** `^[a-z][a-z0-9_]{3,63}$`, the pattern of a login name. */
  predicate PgUserNameOk(s: string) {
    4 <= |s| <= 64 && IsLower(s[0]) && All(s, PgUserChar)
  }

  datatype PgRole = AppRole | MigrateRole | ReadonlyRole

  /** `PgUsr`; an empty secret name counts as missing, as in JavaScript. */
  datatype PgUsr = PgUsr(roleType: PgRole, userName: string, secretName: Option<string>)

  /** The environment a schema belongs to, as the props see it: its build
      id, the construct ids from the root down to it, and, when it has an
      RDS configuration, the id of the build whose environment owns the RDS
      cluster's producers. */
  datatype SchemaOwner = SchemaOwner(buildId: string, scopeIds: seq<string>, rdsBuildId: Option<string>)

  datatype SchemaUsersProps = SchemaUsersProps(owner: SchemaOwner, schema: string, userSecrets: seq<PgUsr>)

  /** The user names reserved for the schema's own roles. */
  predicate Reserved(schema: string, userName: string) {
    userName == schema + "_app" || userName == schema + "_migrate" || userName == schema + "_readonly"
  }

  /** `new PgSchemaUsersProps(enver, schema, userSecrets)`. */
  function NewSchemaUsersProps(owner: SchemaOwner, schema: string, users: seq<PgUsr>): (r: Result<SchemaUsersProps, Error>)
    ensures r.Ok? <==> owner.rdsBuildId.Some? && PgNameOk(schema) && forall i | 0 <= i < |users| :: !Reserved(schema, users[i].userName)
    ensures r.Ok? ==> r.value.owner == owner && r.value.schema == schema && r.value.userSecrets == users
    ensures !owner.rdsBuildId.Some? ==> r == Err(NoRdsConfig)
    ensures owner.rdsBuildId.Some? && !PgNameOk(schema) ==> r == Err(InvalidSchemaName)
    ensures r.Err? && owner.rdsBuildId.Some? && PgNameOk(schema) ==> r.error == ReservedPgUser
  {
    if !owner.rdsBuildId.Some? then Err(NoRdsConfig)
    else if !PgNameOk(schema) then Err(InvalidSchemaName)
    else if exists i | 0 <= i < |users| :: Reserved(schema, users[i].userName) then Err(ReservedPgUser)
    else Ok(SchemaUsersProps(owner, schema, users))
  }

  /** The secret name a user ends up with: the given one when set, else
      the build id followed by `OdmdNames.create(enver, userName, 63 - |buildId|)`. */
  function FillSecret(owner: SchemaOwner, u: PgUsr, md5: string -> string): (r: Result<PgUsr, Error>)
    ensures r.Ok? ==> r.value.roleType == u.roleType && r.value.userName == u.userName && r.value.secretName.Some?
    ensures EnvSet(u.secretName) ==> r == Ok(u)
    ensures r.Ok? && !EnvSet(u.secretName) ==>
              StartsWith(r.value.secretName.value, owner.buildId)
              && |r.value.secretName.value| <= (if |owner.buildId| > DefaultNameCap then |owner.buildId| else DefaultNameCap)
    ensures r.Err? ==> r.error == HashAllDigits
  {
    if EnvSet(u.secretName) then Ok(u)
    else
      var n := CreateName(owner.scopeIds, u.userName, DefaultNameCap - |owner.buildId|, md5);
      if n.Err? then Err(HashAllDigits)
      else Ok(u.(secretName := Some(owner.buildId + n.value)))
  }

  /** Filling an already filled user changes nothing, even when the filled
      name is empty (it is recomputed to the same value). */
  lemma FillSecretIdempotent(owner: SchemaOwner, u: PgUsr, md5: string -> string)
    requires FillSecret(owner, u, md5).Ok?
    ensures FillSecret(owner, FillSecret(owner, u, md5).value, md5) == FillSecret(owner, u, md5)
  {
  }

  /** The getter's loop over the users, in order. */
  function FillAll(owner: SchemaOwner, us: seq<PgUsr>, md5: string -> string): (r: Result<seq<PgUsr>, Error>)
    ensures r.Ok? <==> forall i | 0 <= i < |us| :: FillSecret(owner, us[i], md5).Ok?
    ensures r.Ok? ==> |r.value| == |us| && forall i | 0 <= i < |us| :: Ok(r.value[i]) == FillSecret(owner, us[i], md5)
    ensures r.Err? ==> r.error == HashAllDigits
    decreases |us|
  {
    if |us| == 0 then Ok([])
    else
      var u := FillSecret(owner, us[0], md5);
      var rest := FillAll(owner, us[1..], md5);
      assert forall i | 1 <= i < |us| :: us[1..][i - 1] == us[i];
      if u.Err? then Err(u.error)
      else if rest.Err? then Err(rest.error)
      else Ok([u.value] + rest.value)
  }

  /** The `userSecrets` getter: fills the missing secret names in place and
      returns the props as they are afterwards. */
  function UserSecrets(p: SchemaUsersProps, md5: string -> string): (r: Result<SchemaUsersProps, Error>)
    ensures r.Ok? ==> r.value.owner == p.owner && r.value.schema == p.schema && |r.value.userSecrets| == |p.userSecrets|
    ensures r.Ok? ==> forall i | 0 <= i < |p.userSecrets| ::
                        && r.value.userSecrets[i].userName == p.userSecrets[i].userName
                        && r.value.userSecrets[i].secretName.Some?
                        && (EnvSet(p.userSecrets[i].secretName) ==> r.value.userSecrets[i] == p.userSecrets[i])
                        && (!EnvSet(p.userSecrets[i].secretName) ==> StartsWith(r.value.userSecrets[i].secretName.value, p.owner.buildId))
    ensures r.Err? ==> r.error == HashAllDigits
  {
    var us :- FillAll(p.owner, p.userSecrets, md5);
    Ok(p.(userSecrets := us))
  }

  /** Reading the getter twice gives what reading it once gave. */
  lemma UserSecretsStable(p: SchemaUsersProps, md5: string -> string)
    requires UserSecrets(p, md5).Ok?
    ensures UserSecrets(UserSecrets(p, md5).value, md5) == UserSecrets(p, md5)
  {
    var q := UserSecrets(p, md5).value;
    forall i | 0 <= i < |q.userSecrets|
      ensures FillSecret(p.owner, q.userSecrets[i], md5) == Ok(q.userSecrets[i])
    {
      FillSecretIdempotent(p.owner, p.userSecrets[i], md5);
    }
    var us := FillAll(q.owner, q.userSecrets, md5).value;
    assert us == q.userSecrets;
  }

  /** The checks a user passes in the `PgSchemaUsers` construct. */
  predicate UserOk(u: PgUsr, buildId: string) {
    PgUserNameOk(u.userName) && u.secretName.Some? && StartsWith(u.secretName.value, buildId)
  }

  /** `new PgSchemaUsers(stack, props)`: an unresolved stack account (a
      token, starting with `$`) is rejected. Then four cross-build consumers
      of the RDS cluster's producers are created on the environment, which
      throws when the cluster belongs to the environment's own build (and,
      without an RDS configuration, reading the cluster throws). Last, the
      props' users are read through the getter and each must have a valid
      login name and a secret name starting with the build id. Returns the
      filled props. */
  function NewPgSchemaUsers(stackAccount: string, p: SchemaUsersProps, md5: string -> string): (r: Result<SchemaUsersProps, Error>)
    ensures StartsWith(stackAccount, "$") ==> r == Err(AccountIsToken)
    ensures r == Err(SameBuildConsumption) <==> !StartsWith(stackAccount, "$") && p.owner.rdsBuildId == Some(p.owner.buildId)
    ensures r == Err(NoRdsConfig) <==> !StartsWith(stackAccount, "$") && p.owner.rdsBuildId.None?
    ensures r.Ok? <==> !StartsWith(stackAccount, "$") && RdsConsumable(p.owner) && UserSecrets(p, md5).Ok?
                       && forall i | 0 <= i < |p.userSecrets| :: UserOk(UserSecrets(p, md5).value.userSecrets[i], p.owner.buildId)
    ensures r.Ok? ==> r == UserSecrets(p, md5)
    ensures r.Err? && !StartsWith(stackAccount, "$") && RdsConsumable(p.owner) ==>
              r.error in {HashAllDigits, InvalidPgUserName, SecretNameNotBuildPrefixed}
  {
    if StartsWith(stackAccount, "$") then Err(AccountIsToken)
    else if p.owner.rdsBuildId.None? then Err(NoRdsConfig)
    else if p.owner.rdsBuildId.value == p.owner.buildId then Err(SameBuildConsumption)
    else
      var q :- UserSecrets(p, md5);
      var bad := CheckUsers(q.userSecrets, p.owner.buildId);
      if bad.Fail? then Err(bad.error) else Ok(q)
  }

  /** The environment may consume the RDS cluster's producers: it has an
      RDS configuration and the cluster belongs to another build. */
  predicate RdsConsumable(owner: SchemaOwner) {
    owner.rdsBuildId.Some? && owner.rdsBuildId.value != owner.buildId
  }

  /** Each user in order: the login-name pattern, then the secret-name
      prefix. (The separate length check of the source cannot fail once the
      pattern holds, which already bounds the length by 64.) */
  function CheckUsers(us: seq<PgUsr>, buildId: string): (r: Outcome<Error>)
    ensures r.Pass? <==> forall i | 0 <= i < |us| :: UserOk(us[i], buildId)
    ensures r.Fail? ==> r.error == InvalidPgUserName || r.error == SecretNameNotBuildPrefixed
    decreases |us|
  {
    if |us| == 0 then Pass
    else if !PgUserNameOk(us[0].userName) then Fail(InvalidPgUserName)
    else if !(us[0].secretName.Some? && StartsWith(us[0].secretName.value, buildId)) then Fail(SecretNameNotBuildPrefixed)
    else
      assert forall i | 1 <= i < |us| :: us[1..][i - 1] == us[i];
      CheckUsers(us[1..], buildId)
  }

  /** Users whose secret names were left to the default never fail the
      prefix check: the construct accepts them exactly when their login
      names are valid. */
  lemma DefaultSecretsPassPrefix(stackAccount: string, p: SchemaUsersProps, md5: string -> string)
    requires !StartsWith(stackAccount, "$") && RdsConsumable(p.owner) && UserSecrets(p, md5).Ok?
    requires forall i | 0 <= i < |p.userSecrets| :: !EnvSet(p.userSecrets[i].secretName)
    ensures NewPgSchemaUsers(stackAccount, p, md5).Ok? <==>
              forall i | 0 <= i < |p.userSecrets| :: PgUserNameOk(p.userSecrets[i].userName)
  {
    var q := UserSecrets(p, md5).value;
    assert forall i | 0 <= i < |p.userSecrets| :: StartsWith(q.userSecrets[i].secretName.value, p.owner.buildId);
  }
}
