/** Failure-compatible wrappers and the error vocabulary of the reference graph.

    Every `throw` of the modelled code becomes an `Err` carrying one of the
    `Error` values below; the name says which check fired. */
module Wrappers {

  datatype Option<+T> = None | Some(value: T) {
    predicate IsFailure() { None? }

    function PropagateFailure<U>(): Option<U>
      requires None?
    {
      None
    }

    function Extract(): T
      requires Some?
    {
      value
    }

    function GetOr(default: T): T {
      match this
      case Some(v) => v
      case None => default
    }
  }

  datatype Result<+T, +E> = Ok(value: T) | Err(error: E) {
    predicate IsFailure() { Err? }

    function PropagateFailure<U>(): Result<U, E>
      requires Err?
    {
      Err(error)
    }

    function Extract(): T
      requires Ok?
    {
      value
    }
  }

  datatype Outcome<+E> = Pass | Fail(error: E) {
    predicate IsFailure() { Fail? }

    function PropagateFailure(): Outcome<E>
      requires Fail?
    {
      this
    }
  }

  /** An environment variable in JavaScript's truthiness: unset and "" both read as false. */
  predicate EnvSet(v: Option<string>) {
    v.Some? && v.value != ""
  }
}

module Errors {

  datatype Error =
    // revision references
    | RevValueCharset | RevValueDotDot | RevValueUnderDash | RevValueDashUnder
    | BranchStartsWithV | RevValueHasAccount | OriginHasOrigin | SameAsOrigin
    | MalformedRevPath
    // environment derivation
    | NoEnverForSelector | DerivedOriginMismatch | DerivedCtorArity
    // producers and consumers
    | ProducerNameCharset | ProducerNameDotDot
    | SameBuildConsumption | ContractsLibConsumes
    // share batching
    | ShareInEmpty | ShareInMultiEnver | ShareInUnknownConsumer
    | ShareOutEmpty | ShareOutFromCentral | ShareOutRevRefUnset | ShareOutEnverMismatch
    | ShareOutMultiEnver | ShareOutServiceToken | ShareOutDuplicateName | ShareOutReservedPrefix | ShareOutNameInUse
    | MultipleShareOuts
    // whole-graph validation
    | ConsumerInProducerOnlyEnver | CrossRegionConsumer | DuplicateBuild | BuildWithoutEnvers
    | UserAuthDefaultNotHttp
    // lookups
    | TargetSelectorUnset | UnknownBuildId | UnknownEnverRef
    | NotARefToken | UnknownConsumerPath
    // names
    | HashAllDigits
    // platform wiring
    | NetworkingHalfDefined | NoNetworkingInRegion | SubdomainExists | CidrNotAllocatable
    | DuplicateSingleton | UnknownAccount
    // rds / schema users
    | RdsNotOfThisVpc | SchemaExists | PgUserExists | NoRdsConfig | InvalidSchemaName
    | ReservedPgUser | AccountIsToken | InvalidPgUserName | SecretNameNotBuildPrefixed
    // whole-graph rules of the test suite
    | BuildIdTooLong | BuildIdReservedPrefix | RevValueTooLong | RevValueNotWord
    | DuplicateRevPath | StackNameTooLong | StackNameShape | StackNameNotBuildPrefixed
    | OverlappingRootBranches | InvalidClusterIdentifier | InvalidDatabaseName
    | InvalidPgName | RepeatedSchema | DivergentVpcConfig | RdsVpcNotInBuild
    | EmptyRevValue | EnverRegionUnset | EnverAccountUnset | VpcNameUndefined
    | VpcAddressesMissing | VpcAddressesNotOdmd | VpcNetmaskMissing | VpcSubnetsMissing
    | VpcTgwMismatch | RdsVpcNotOdmd
}
