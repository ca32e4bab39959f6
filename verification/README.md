# odmd-contracts-base: the cross-build reference graph, in Dafny

This project models the contracts core of the ondemandenv platform. A
contracts library declares **builds**, each with its deployable
**environments** (envers). It also declares **producers**, the named values an
environment publishes, and **consumers**, the places where an environment of
another build reads one of those values. Around that graph the library
provides the following:

- **Revision references** (`SRC_Rev_REF`) and their canonical path
  `<type>..<value>`. A derived revision's path is its origin's path, `-_`,
  then its own path.
- **Dynamic environments**, derived from a root environment when the build is
  selected through the `ODMD_build_id` and `ODMD_rev_ref` variables.
- **The target lookup**, **the `OdmdRefConsumer: ${...}` tokens** and
  **share-in / share-out batching**. Share-in/share-out batching moves values
  through a central parameter store.
- **Whole-graph validation** (`odmdValidate`, the App aspect), plus the rules
  the test suite applies to every build.
- **Name sanitizers**: stack names, Kubernetes namespaces, ECR repository
  names, RDS cluster identifiers, CloudFormation export names and
  `OdmdNames`.
- **The platform builds**:
  - the networking build and its IPAM environment;
  - EKS clusters;
  - the default VPC/RDS build with its clusters and schema users;
  - the default kube-EKS build;
  - the per-class singleton registry of the contracts-library variant.

The graph lives in arenas (`Graph.Contracts`), and object identity is an
index into an arena. `Graph.WellFormed` is the arena invariant. Each operation
that can throw returns `Result`/`Outcome` with an `Errors.Error` naming the
throw site. Environment variables are `Option<string>` parameters. `Some("")`
counts as unset, as in JavaScript. The md5 digest and `CDK_DEFAULT_REGION`
are parameters too. Modules follow the source files:

- `RevRefs`: revision references.
- `Sanitizers`: the name functions.
- `Producers`: producer trees and share paths.
- `Graph`: the arena, consumers, tokens, target lookup and role names.
- `Derive`: dynamic environments and the build constructor.
- `Shares`: share-in and share-out.
- `Validate`: `odmdValidate`, the App checks and the version maps.
- `Rules`: the test-suite rules.
- `Networking`: build initialisation, IPAM, VPC and EKS cluster.
- `PgSchemas`: PostgreSQL schema users.
- `VpcRds`: the default VPC/RDS build.
- `KubeEks`: the default kube-EKS build.
- `Singletons`: the contracts-build registry.

## Notes on the code

- The stack-name sanitizer (`lib/model/odmd-enver-cdk.ts:69-81`) neither
  lower-cases nor caps the length. `Sanitizers.SanitizeStackName` follows the
  code. The 128-character cap is a rule of the test suite
  (`Rules.CheckStackName`).
- The comment on the namespace sanitizer (`lib/model/odmd-eks-manifest.ts:89`)
  says it caps at 63 characters. The code can return 64 characters, which is
  the first finding below.

## Model

| member | source | states |
|---|---|---|
| RevRefs.NewRevRef | lib/model/odmd-build.ts:131-167 | A revision is accepted exactly when it passes all of these rules: its value uses only `[a-zA-Z0-9_.-]`; it has no `..`, `_-` or `-_`; a branch value does not start with `v`/`V`; a given origin has no origin of its own and differs from the revision. An accepted revision is stored as given. |
| RevRefs.NewContractsRevRef | lib/odmd-model/contracts-build.ts:129-165 | The contracts-library revision accepts exactly what the base one accepts, minus any value that contains one of the platform's account ids. |
| RevRefs.PathOf | lib/model/odmd-build.ts:200-203 | `toPathPartStr`: the origin's path and `-_`, then `<type>..<value>`. Its meaning is carried by `RevRefs.PathInjective` and `RevRefs.ParsePathRoundTrip`: valid revisions get distinct paths, and a path reads back to its revision. |
| RevRefs.SinglePathHasNoSeparator | lib/model/odmd-build.ts:200-203 | A value without `-_` gives a `<type>..<value>` path without `-_`. |
| RevRefs.FirstSeparatorEndsOrigin | lib/model/odmd-build.ts:200-203 | In a valid derived revision, the first `-_` of the path sits exactly where the origin's path ends. |
| RevRefs.ParseSingleRoundTrip | lib/model/odmd-build.ts:200-203 | Reading a `<type>..<value>` segment back through the constructor gives what the constructor gives for that type and value. |
| RevRefs.ParsePathRoundTrip | lib/model/odmd-build.ts:200-203 | Decoding the canonical path of any valid revision gives that revision back. |
| RevRefs.PathInjective | lib/model/odmd-build.ts:200-203 | Two valid revisions have equal paths if and only if they are equal. |
| RevRefs.ParsePathSound | lib/model/odmd-build.ts:131-167 | Whatever the path decoder accepts is a valid revision whose canonical path is the input. |
| RevRefs.OriginPathHasSeparator | lib/model/odmd-build.ts:200-203 | Every derived revision's path contains `-_`, so a path without one names a root revision. |
| Sanitizers.SanitizeStackName | lib/model/odmd-enver-cdk.ts:69-81 | The result has the input's length and uses only `[A-Za-z0-9-]`. It never starts or ends with `-`. Alphanumerics are kept, other characters become `-`, a leading one becomes `A` and a trailing one `Z`. |
| Sanitizers.SanitizeStackNameIdempotent | lib/model/odmd-enver-cdk.ts:69-81 | Sanitizing a sanitized stack name changes nothing. |
| Sanitizers.SanitizeKeepsPrefix | lib/model/odmd-enver-cdk.ts:69-81 | A prefix that is already a stack-name fragment, not starting with `-`, survives sanitizing when something follows it. |
| Sanitizers.CdkRevStackNames | lib/model/odmd-enver-cdk.ts:63-67 | A CDK environment has one stack name. It is made of stack-name characters, and its length is the build id, two, plus the revision part. |
| Sanitizers.CdkStackNameOk | tests/tmp.test.ts:184-194 | A build id that starts with a letter and uses stack-name characters yields a name the suite's stack-name rule accepts, whenever the length fits in 128. |
| Sanitizers.ReplaceRuns | lib/model/odmd-eks-manifest.ts:92 | After mapping runs of foreign characters to `-`, only `[a-z0-9-]` remains. An input already in that set is unchanged. |
| Sanitizers.TrimDashes | lib/model/odmd-eks-manifest.ts:93 | The trimmed string neither starts nor ends with `-` and only uses input characters. A string with no dash at either end is unchanged. |
| Sanitizers.TrimStart | lib/model/odmd-eks-manifest.ts:93 | Leading dashes are gone, the last non-dash character stays last, and an input not starting with `-` is unchanged. |
| Sanitizers.TrimEnd | lib/model/odmd-eks-manifest.ts:93 | Trailing dashes are gone, the first non-dash character stays first, and an input not ending with `-` is unchanged. |
| Sanitizers.Squeeze | lib/model/odmd-eks-manifest.ts:94 | No `--` remains. Non-dash ends are kept, and an input without `--` is unchanged. |
| Sanitizers.CleanNamespace | lib/model/odmd-eks-manifest.ts:92-94 | After the clean-up passes, only `[a-z0-9-]` remains, with no `--`, and a non-empty result starts and ends alphanumeric. |
| Sanitizers.FixEnds | lib/model/odmd-eks-manifest.ts:98-103 | The result starts and ends alphanumeric. An empty input becomes `default`, and a string that ends in `-` gets an `a` appended. Charset and the absence of `--` are kept. |
| Sanitizers.Cut63 | lib/model/odmd-eks-manifest.ts:95-97 | The cut is a prefix of at most 63 characters. It is the whole input when that fits, and it keeps charset and the absence of `--`. |
| Sanitizers.SanitizeNamespaceAsWritten | lib/model/odmd-eks-manifest.ts:87-105 | The sanitizer as written always gives an RFC 1123 label body. The only length bound it keeps is 64. |
| Sanitizers.LongNamespaceInput | lib/model/odmd-eks-manifest.ts:95-103 | The witness input: a clean 65-character label with a dash at position 62. |
| Sanitizers.LongLabelGrows | lib/model/odmd-eks-manifest.ts:95-103 | A clean label longer than 63 characters with a dash at position 62 comes out 64 characters long. |
| Sanitizers.CutKeepsDash | lib/model/odmd-eks-manifest.ts:95-97 | The 63-character cut of such a label ends in its dash. |
| Sanitizers.NamespaceAsWrittenExceedsLabel | lib/model/odmd-eks-manifest.ts:95-103 | The sanitizer as written maps the witness to 64 characters, one more than a DNS label allows. |
| Sanitizers.CleanNamespaceFixesClean | lib/model/odmd-eks-manifest.ts:92-94 | A clean label passes the clean-up passes unchanged. |
| Sanitizers.CutLabel | lib/model/odmd-eks-manifest.ts:95-97 | The corrected cut gives at most 63 characters and never ends in `-`. It keeps charset, the absence of `--` and the first character. |
| Sanitizers.SanitizeNamespace | lib/model/odmd-eks-manifest.ts:87-105 | The corrected sanitizer always gives a label of at most 63 characters and leaves such labels unchanged. |
| Sanitizers.DefaultNamespace | lib/model/odmd-eks-manifest.ts:80-82 | The default namespace runs the sanitizer as written, so it is a label body of at most 64 characters. It has 64 characters exactly when the cleaned `<buildId>-<revision path>` is longer than 63 with a dash at position 62. |
| Sanitizers.NamespaceFixAgrees | lib/model/odmd-eks-manifest.ts:87-105 | The sanitizer as written and the corrected one give different results exactly when the cleaned name is longer than 63 characters with a dash at position 62. |
| Sanitizers.DefaultNamespaceLabel | lib/model/odmd-eks-manifest.ts:80-82 | The default namespace with the corrected sanitizer is always a label of at most 63 characters. It equals the as-written namespace exactly when that one fits in 63. |
| Sanitizers.DefaultNamespaceExceedsLabel | lib/model/odmd-eks-manifest.ts:80-105 | Build `app` on branch `LongBranch()` (56 `a`s, `-`, `bb`) gets a 64-character default namespace. The corrected one has 63. |
| Sanitizers.DottedCleansUp | lib/model/odmd-eks-manifest.ts:92-94 | A clean prefix and a clean suffix joined by `..` clean up to the two joined by one `-`, when that is a clean label. |
| Sanitizers.ReplaceRunsCleanPrefix | lib/model/odmd-eks-manifest.ts:92 | The run replacement keeps a clean prefix and restarts after it. |
| Sanitizers.GenRepoName | lib/model/odmd-enver-ctn-img.ts:46-48 | A repository name uses only `[a-z0-9-/]`. |
| Sanitizers.GenRepoNameParts | lib/model/odmd-enver-ctn-img.ts:46-48 | The repository name is the cleaned build id, revision path and part, joined by `/`. The `.` and `_` of the revision path are dropped. |
| Sanitizers.RepoNameJoin | lib/model/odmd-enver-ctn-img.ts:46-48 | Cleaning `<b>/<p>/<part>` cleans each part and keeps the two slashes. |
| Sanitizers.ClusterIdentifier | lib/odmd-model/contracts-rds-cluster.ts:21 | A cluster identifier uses only `[a-z0-9-]`. |
| Sanitizers.ClusterIdentifierParts | lib/odmd-model/contracts-rds-cluster.ts:21 | The identifier is the cleaned VPC name, `-rds-`, then the cleaned rds id. |
| Sanitizers.ExportName | lib/model/odmd-share-refs.ts:7-10 | An export name keeps the input length, uses only `[a-zA-Z0-9:-]` and keeps every character already in that set. |
| Sanitizers.ShareProviderName | lib/model/odmd-share-refs.ts:7-10 | The share provider's export name is a valid export name ending in `:share-thru-ssm-provider`. |
| Sanitizers.PgUserRoleProviderName | lib/odmd-model/contracts-pg-schema-usrs.ts:8-12 | The schema-user provider's export name is a valid export name. Its fixed suffix ends up as `:pg-usr-role-provider`. |
| Sanitizers.EksManifestProviderName | lib/model/odmd-eks-manifest.ts:8-11 | The manifest provider's export name is a valid export name. |
| Sanitizers.RotateLeadingDigits | lib/model/odmd-cross-refs.ts:177-179 | The rotation fails exactly when every character is a digit, the case where the source loop never ends. Otherwise it moves the leading digits `h[..k]`, in order, behind the rest `h[k..]`, where `k` is the first non-digit. It keeps the length and the characters and starts on a non-digit. |
| Sanitizers.RotationRunsTheLoop | lib/model/odmd-cross-refs.ts:176-179 | The closed form equals `k` passes of the loop body. The loop sees a digit in front before each of those passes and a non-digit after the last. |
| Sanitizers.RotateTimesSplits | lib/model/odmd-cross-refs.ts:177-178 | `n` passes of the loop body move the first `n` characters, in order, to the end. |
| Sanitizers.Prefix | lib/model/odmd-cross-refs.ts:180 | JavaScript `substring(0, n)` gives a prefix of at most `n` characters, and an empty one for negative `n`. |
| Sanitizers.Generate | lib/model/odmd-cross-refs.ts:168-184 | A generated name never exceeds the cap. The stripped path is returned exactly when it fits. A longer one is the first `maxLength` characters of the digit-rotated hash of the unstripped path, which does not start with a digit. It fails only when the hash is all digits. |
| Sanitizers.CreateName | lib/model/odmd-cross-refs.ts:186-191 | `OdmdNames.create` respects its cap and gives an alphanumeric name when the hash is alphanumeric. |
| Producers.AlnumSegmentOk | lib/model/odmd-cross-refs.ts:18-23 | Every alphanumeric producer segment passes both name checks. |
| Producers.NewProducer | lib/model/odmd-cross-refs.ts:15-38 | A producer is built exactly when every segment of its tree passes the charset and `..` checks. Its name is the parent name, `/`, then its segment. Each child gets the id `<id>-<child id or index>`. |
| Producers.NewChildren | lib/model/odmd-cross-refs.ts:31-37 | The children are built exactly when all of their trees pass the checks. Each child is the producer its props describe, under the parent's name. |
| Producers.ProducerNamesClean | lib/model/odmd-cross-refs.ts:15-38 | At any nesting depth, producer names are non-empty and free of `..`. Each child's name extends its parent's name by `/` and a segment. |
| Producers.ChildIsSub | lib/model/odmd-cross-refs.ts:31-37 | The `i`-th child of a producer is the producer that child's props build under the parent's name. |
| Producers.ChildrenAreSubs | lib/model/odmd-cross-refs.ts:31-37 | The same holds for every child built by the children loop. |
| Producers.LatestSha | lib/model/odmd-enver-ctn-img.ts:22-24 | `latestSha` exists exactly when the producer has a child. |
| Producers.CtnImgLayout | lib/model/odmd-enver-ctn-img.ts:10-24 | A container-image producer has exactly one child, named `<repo producer name>/<latest sha part>`. |
| Producers.EnverPath | lib/model/odmd-cross-refs.ts:49-51 | `toEnverPath`: the revision path, `/`, the producer name. `Producers.SharePathInjective` proves the path, under a build id without `/`, separates build, revision and producer name. |
| Producers.SharePath | lib/model/odmd-cross-refs.ts:53-55 | Every share path starts with `/odmd-share/`. |
| Producers.PathHasNoSlash | lib/model/odmd-build.ts:131-167 | A valid revision's path never contains `/`. |
| Producers.SharePathInjective | lib/model/odmd-cross-refs.ts:49-55 | Two share paths are equal if and only if build id, revision and producer name are equal, given build ids without `/`. |
| Graph.AddBuild | lib/model/odmd-build.ts:20-31 | A new build is appended and registered at the end of the registry. Nothing else changes. |
| Graph.AddEnver | lib/model/odmd-enver.ts:83-90 | A new environment is appended and listed last by its own build. Every other build and arena is unchanged. |
| Graph.AddProducer | lib/model/odmd-cross-refs.ts:15-38 | A producer tree is added exactly when the name checks pass. Its root is the first new entry and all new entries belong to the environment. Existing producers and everything else are unchanged. |
| Graph.Flatten | lib/model/odmd-cross-refs.ts:31-37 | Flattening a producer tree lists the root's id and name first. |
| Graph.NewConsumer | lib/model/odmd-cross-refs.ts:82-101 | A consumer is created exactly when the producer belongs to another build and the reader is not the contracts library. The error names which rule failed. Only the consumer arena grows, by this consumer. |
| Graph.NewConsumerRegisters | lib/model/odmd-cross-refs.ts:91-98 | The new consumer is registered on its producer and on no other producer. |
| Graph.NewConsumerKeepsInvariants | lib/model/odmd-cross-refs.ts:85-90 | Adding a consumer keeps every edge cross-build and keeps the contracts library consumer-free. |
| Graph.GrowthKeepsInvariants | lib/model/odmd-cross-refs.ts:82-101 | Growing builds, environments and producers keeps both edge invariants. |
| Graph.ToOdmdRef | lib/model/odmd-cross-refs.ts:118-120 | A token is `OdmdRefConsumer: ${`, the consumer path, then `}`. |
| Graph.TokenTarget | lib/OndemandContracts.ts:205-220 | The path read out of a token contains no `}`. |
| Graph.FindNodeByPath | lib/OndemandContracts.ts:213-214 | The search over one walk finds a node with the target path from the given index on, or there is none. |
| Graph.FindInBuilds | lib/OndemandContracts.ts:213-219 | The search over the registered builds from index `i` on finds a node of one of those builds with the target path, or no such node exists. |
| Graph.BuildWalk | lib/OndemandContracts.ts:214 | A build's walk starts with the build and holds exactly the nodes below it: its environments, their producers and their consumers. |
| Graph.EnverWalk | lib/OndemandContracts.ts:214 | An environment's walk starts with the environment and holds exactly it, its producers and its consumers. |
| Graph.NodePath | lib/model/odmd-cross-refs.ts:15-16 | A node's construct path is never empty. A producer's path is its environment's path, `/` and its id, like a consumer's. |
| Graph.ResolveRefToken | lib/OndemandContracts.ts:205-220 | A text that does not start with the token prefix fails with `NotARefToken`, and only such a text does. `UnknownConsumerPath` is returned exactly when no node of a registered build has the token's path: the build, an environment, a producer or a consumer. A resolved node lies in a registered build, and its token is a prefix of the text. |
| Graph.RefTokenRoundTrip | lib/OndemandContracts.ts:205-220 | Resolving a consumer's own token gives that consumer back. This needs node paths to be unique, the consumer's build to be registered and its path to contain no `}`. |
| Graph.NodeTokenResolves | lib/OndemandContracts.ts:205-220 | A token naming the path of any node of a registered build resolves to that node, whatever its kind, given unique node paths and no `}` in the path. |
| Graph.TokenFramesTarget | lib/OndemandContracts.ts:209-210 | A non-empty token target is followed by the `}` that ends it. |
| Graph.GetTargetEnver | lib/OndemandContracts.ts:169-197 | The lookup fails with `TargetSelectorUnset` exactly when a variable is unset. It fails with `UnknownBuildId` exactly when no registered build has the id. It fails with `UnknownEnverRef` exactly when the first registered build with the id has no environment with that revision path. Otherwise it returns that build's first environment with the path. No other error is possible. |
| Graph.FindBuild | lib/OndemandContracts.ts:176 | The search finds the first registered build with that id, or reports that no registered build has it. |
| Graph.FindEnverByPath | lib/OndemandContracts.ts:181 | The search finds the first environment of the list, from index `i`, whose revision path matches. It reports none exactly when no environment from `i` matches. |
| Graph.TargetEnverFindsOwn | lib/OndemandContracts.ts:169-197 | Looking up an environment by its own build id and revision path gives that environment. |
| Graph.FindEnverFirst | lib/OndemandContracts.ts:169-197 | When only one environment has the path, the search returns it. |
| Graph.CentralRoleName | lib/model/odmd-enver.ts:143-145 | `centralRoleName`: `<buildId>-<region><account>-centerRole`. `Graph.RoleArnAccounts` proves the central ARN built from it names the central account. |
| Graph.BuildRoleName | lib/model/odmd-enver.ts:155-157 | `buildRoleName`: `<buildId>-<region><account>-buildRole`. `Graph.BuildRoleNamesSeparateTargets` proves that, within one build, two environments share it exactly when they share region and account. |
| Graph.RolePath | lib/model/odmd-enver.ts:147-149 | `centralRolePath` and `buildRolePath`, both `/<buildId>/`. `Graph.ArnAccountOf` holds for every path, so the path never changes which account a role ARN names. |
| Graph.RoleArn | lib/model/odmd-enver.ts:151-165 | `arn:aws:iam::<account>:role<path><name>`. `Graph.ArnAccountOf` proves the account reads back out of the ARN. |
| Graph.CentralRoleArn | lib/model/odmd-enver.ts:151-153 | `centralRoleArn`: the role in the central account. `Graph.RoleArnAccounts` proves it names the central account. |
| Graph.BuildRoleArn | lib/model/odmd-enver.ts:163-165 | `buildRoleArn`: the role in the environment's own account. `Graph.RoleArnAccounts` proves it names that account. |
| Graph.ArtifactPrefixSsm | lib/model/odmd-enver.ts:167-169 | The artifact prefix starts with `/odmd-config/` and ends with the environment's account. |
| Graph.ArnAccount | lib/model/odmd-enver.ts:151-165 | The account read from an IAM role ARN contains no `:`. |
| Graph.ArnAccountOf | lib/model/odmd-enver.ts:151-165 | Reading the account back out of a role ARN gives the account it was built with. |
| Graph.RoleArnAccounts | lib/model/odmd-enver.ts:151-165 | The central role ARN names the central account, and the build role ARN names the environment's account. |
| Graph.BuildRoleNamesSeparateTargets | lib/model/odmd-enver.ts:155-157 | Within one build, two environments share a build role name exactly when they share region and account. Accounts have equal lengths. |
| Derive.FreshKind | lib/model/odmd-enver.ts:171-181 | A fresh instance keeps the class and starts with empty URL lists. |
| Derive.GenerateDynamicEnver | lib/model/odmd-enver.ts:171-181 | The instance is constructed before the origin is compared. For the networking build's environment class the construction fails, with `DerivedCtorArity`, and only there. Otherwise deriving succeeds exactly when the new revision's origin is the environment's revision. The derived environment copies owner, account, region and class. |
| Derive.GenDynamicEnvers | lib/model/odmd-build.ts:42-54 | `NoEnverForSelector` is returned exactly when no environment of the build has the selector's left part as its path. The networking build never derives. On success, exactly one environment is appended and listed by the build. |
| Derive.DeriveFrom | lib/model/odmd-build.ts:46-53 | Deriving from a found root succeeds exactly when the revision constructor accepts the selector's revision and the class can be constructed again. It then appends one environment whose revision has that root as origin. Only the build's own list changes. |
| Derive.SelectorOriginIsRoot | lib/model/odmd-build.ts:42-54 | The environment a selector finds has no origin, when all revisions are valid. |
| Derive.DerivationKeepsOriginChecks | lib/model/odmd-build.ts:42-54 | Over valid revisions, the derivation never fails for a mismatched or nested origin. |
| Derive.DerivationKeepsRevsValid | lib/model/odmd-build.ts:42-54 | Deriving keeps every revision in the graph valid. |
| Derive.DeriveFromOwnPath | lib/model/odmd-build.ts:42-54 | Selecting with a derived revision's own path succeeds exactly when the build is not the networking build, and then recreates exactly that revision. |
| Derive.OwnPathParts | lib/model/odmd-build.ts:42-54 | A derived path splits into the origin path, the type and the value. |
| Derive.DerivedPathMatchesSelector | lib/model/odmd-build.ts:42-54 | The derived environment's path is the selector whenever the selector's right part starts with its type and `..`. |
| Derive.SelectorSplits | lib/model/odmd-build.ts:43-46 | A selector is its left part, `-_`, then its right part. |
| Derive.RebuildIff | lib/model/odmd-build.ts:46-51 | Rebuilding the right part from its type and `substring(3)` restores it. |
| Derive.AddEnvers | lib/model/odmd-build.ts:32 | `initializeEnvers` appends one environment per spec, in order, all listed by the build. Nothing else changes. |
| Derive.AddEnversWellFormed | lib/model/odmd-build.ts:32 | The appended environments keep the arena well formed. |
| Derive.InitialBuild | lib/model/odmd-build.ts:20-32 | The build is registered with its id and class, and its environments are the specs, in order. |
| Derive.NewOdmdBuild | lib/model/odmd-build.ts:20-40 | The constructor cannot fail unless the build is selected for derivation, and always fails when the selected build is the networking build. It registers one build with the specs' environments, plus one more when derivation happens, and creates no consumer. |
| Derive.NewOdmdBuildKeeps | lib/model/odmd-build.ts:20-40 | The constructor keeps earlier environments, producers, the contracts library, the root id and every earlier build's id and class. |
| Derive.NewOdmdBuildInitialEnvers | lib/model/odmd-build.ts:20-40 | The build's first environments are the specs, in order. |
| Derive.InitialEnversKept | lib/model/odmd-build.ts:32-37 | Appending a derived environment keeps the initial ones first. |
| Derive.DeriveIfSelected | lib/model/odmd-build.ts:33-37 | Nothing changes unless the build id and the `-_` selector both match. A selected networking build fails. When derivation happens, exactly the derived environment is appended. |
| Shares.RtData | lib/model/odmd-share-refs.ts:58-72 | The runtime data maps each consumed producer's name, and the versions key, to the custom resource attribute of that name. It holds no other key. A producer named `__proto__` leaves no entry, because assigning a string to that accessor is ignored. |
| Shares.NewShareIn | lib/model/odmd-share-refs.ts:24-56 | A share-in is created exactly when its consumers are non-empty and all read one environment, which becomes its producer environment. |
| Shares.AddRefProducer | lib/model/odmd-share-refs.ts:74-84 | A known consumer changes nothing. A new one is accepted exactly when it reads the same environment, and is then appended. |
| Shares.GetShareValue | lib/model/odmd-share-refs.ts:86-88 | A name in the runtime data gives its attribute. A name missing from it gives the member a plain object inherits under it when it is an `Object.prototype` key, and nothing otherwise. |
| Shares.GetInVersions | lib/model/odmd-share-refs.ts:90-92 | The versions value exists exactly when the versions key is present. |
| Shares.ShareInServesItsConsumers | lib/model/odmd-share-refs.ts:58-92 | Every consumer of a share-in reads its own producer's attribute, except that a producer named `__proto__` reads the inherited prototype. The versions value is always there. |
| Shares.AddRefProducerIdempotent | lib/model/odmd-share-refs.ts:74-84 | Adding the same consumer twice is adding it once. |
| Shares.ServesConsumer | lib/model/odmd-cross-refs.ts:140-150 | A batched consumer gets its producer's attribute, or the inherited prototype for `__proto__`. |
| Shares.ShareInFor | lib/model/odmd-cross-refs.ts:144-148 | A missing key creates a share-in. A present one accepts the consumer exactly when it reads the same environment. |
| Shares.GetSharedValue | lib/model/odmd-cross-refs.ts:140-150 | This is the corrected half of the second finding: the share-in key is `ShareInKey`, not the `OdmdNames.create` key. Reading a shared value files the consumer under its environment's key and changes no other key. It returns the producer's attribute, or the inherited prototype for `__proto__`. It fails only for a key held by another environment. |
| Shares.Put | lib/model/odmd-cross-refs.ts:144-147 | Storing a share-in sets that key and keeps every other key. |
| Shares.ShareInKeyAsWritten | lib/model/odmd-cross-refs.ts:141 | The share-in key as written, `OdmdNames.create(producer enver, stackName)`. `Shares.ShareInKeyCollides` proves two different environments can get the same key. |
| Shares.CollidingGraph | lib/model/odmd-cross-refs.ts:141 | The witness graph holds two environments of build `app`, on branches `feature-1` and `feature1`. |
| Shares.ShareInKeyCollides | lib/model/odmd-cross-refs.ts:141 | As written, those two different environments get the same share-in key for every stack name of up to 30 characters. |
| Shares.SameStrippedSameName | lib/model/odmd-cross-refs.ts:168-184 | Scopes whose stripped names agree and fit the cap get the same `OdmdNames.create` name. |
| Shares.ScopeRunTogether | lib/model/odmd-cross-refs.ts:171 | A scope's ids run together with the stack name are the common stem, then the tail and the name. |
| Shares.ShareInKey | lib/model/odmd-cross-refs.ts:141 | The corrected share-in key: build id, revision path and stack name joined by `/`. `Shares.ShareInKeyInjective` proves it is equal exactly when build id, revision and stack are. |
| Shares.ShareInKeyInjective | lib/model/odmd-cross-refs.ts:141 | The corrected key is equal if and only if build id, revision and stack are equal. |
| Shares.GetSharedValueNeverMixes | lib/model/odmd-cross-refs.ts:140-150 | With the corrected key, in a map whose entries sit under their own keys, reading never fails. |
| Shares.GetSharedValueKeepsKeyed | lib/model/odmd-cross-refs.ts:140-150 | Reading keeps every entry under its own key. |
| Shares.NamedValues | lib/model/odmd-share-refs.ts:152-157 | The named values have exactly the producers' names as keys. |
| Shares.NamedValuesAt | lib/model/odmd-share-refs.ts:152-157 | With distinct names, each producer's name maps to its value. |
| Shares.ShareOutCheck | lib/model/odmd-share-refs.ts:98-156 | The share-out checks pass exactly when the acceptance rules hold. An empty map fails first, then the central account. The last check rejects a name that `{}` already answers through `Object.prototype` (`constructor`, `toString`, `__proto__`, ...), with `ShareOutNameInUse`. |
| Shares.ReservedKeysStartWithPrefix | lib/model/odmd-share-refs.ts:148-151 | Both reserved keys start with the reserved prefix that producer names may not use. |
| Shares.ShareOutProperties | lib/model/odmd-share-refs.ts:152-166 | The properties map each producer name to its value and the two reserved keys to the revision path and stack id, and hold no other key. |
| Shares.WithReserved | lib/model/odmd-share-refs.ts:165-166 | Adding the reserved keys keeps every value whose key lacks the reserved prefix. |
| Shares.NewShareOut | lib/model/odmd-share-refs.ts:98-175 | A share-out is created exactly when the checks pass, including the `Object.prototype` names. Its producing environment is the first producer's. It holds every value plus the two reserved keys: `|refToVal| + 2` properties. |
| Shares.NamedValuesCount | lib/model/odmd-share-refs.ts:134-140 | With distinct names, there is one named value per producer. |
| Shares.ShareOutPropertyCount | lib/model/odmd-share-refs.ts:134-166 | A share-out has its value count plus two properties. |
| Shares.ValidateShareOuts | lib/model/odmd-share-refs.ts:181-201 | The check passes exactly when no environment owns two share-outs. |
| Validate.HasConsumer | lib/OndemandContracts.ts:234-244 | The scan finds a consumer exactly when the environment is not produce-only. |
| Validate.CheckBuildEnvers | lib/OndemandContracts.ts:234-244 | The scan passes exactly when every environment of the build satisfies its rule. |
| Validate.CheckCtnImgEnvers | lib/OndemandContracts.ts:238-244 | The scan passes exactly when container-image environments only produce. |
| Validate.CheckRegions | lib/OndemandContracts.ts:247-252 | The scan passes exactly when no consumer reads another region. |
| Validate.CheckRegistry | lib/OndemandContracts.ts:255-263 | The scan passes exactly when no build is registered twice. |
| Validate.CheckEnverCounts | lib/OndemandContracts.ts:265-270 | The scan passes exactly when every build other than the two default builds has an environment. |
| Validate.OdmdValidate | lib/OndemandContracts.ts:226-273 | `odmdValidate` passes exactly when all five rules hold. Each failure names the first rule broken, in source order. |
| Validate.LibRuleFromInvariant | lib/OndemandContracts.ts:234-236 | The graph invariant already implies the contracts-library rule. |
| Validate.AddBuildKeepsRegistryDistinct | lib/OndemandContracts.ts:255-263 | Adding a build keeps the registry free of duplicates. |
| Validate.NewConsumerKeepsRegions | lib/OndemandContracts.ts:247-252 | A same-region consumer keeps the region rule. |
| Validate.BadUrls | lib/model/odmd-aspect.ts:110-123 | The bad URLs are exactly the URL consumers without an `http` default. |
| Validate.CheckUserAuthUrls | lib/model/odmd-aspect.ts:110-123 | The URL check passes exactly when every callback and logout URL has an `http` default. |
| Validate.HttpsIsHttp | lib/model/odmd-aspect.ts:110-123 | Every `https` default passes the `http` check. |
| Validate.AddUrlConsumer | lib/repos/__user-auth/odmd-build-user-auth.ts:47-60 | A URL consumer is created exactly when a plain consumer would be. It is filed as a callback or logout URL of its own environment, and no other environment changes. |
| Validate.AddUrlConsumerKeepsDefaults | lib/model/odmd-aspect.ts:110-123 | A URL consumer with an `http` default keeps the URL check passing. |
| Validate.ValidateApp | lib/model/odmd-aspect.ts:105-123 | The App validation passes exactly when share-outs have distinct owners and the URL defaults are `http`. The share-out rule is reported first. |
| Validate.MapSet | lib/model/odmd-aspect.ts:127-143 | JavaScript `Map.set` keeps keys distinct. It overwrites a present key in place and appends a new key at the end. |
| Validate.LookupMapSet | lib/model/odmd-aspect.ts:127-143 | After a set, the key reads the new value and other keys read their old values. |
| Validate.JsMap | lib/model/odmd-aspect.ts:127-143 | Building a map from entries keeps the keys, without duplicates. |
| Validate.JsMapLastWins | lib/model/odmd-aspect.ts:145-176 | In a map built from entries, each key reads the last value given for it. |
| Validate.JsMapOfDistinct | lib/model/odmd-aspect.ts:145-176 | Entries with distinct keys come back unchanged. |
| Validate.EnverKey | lib/model/odmd-aspect.ts:128-153 | `<buildId>/<revision path>`, the key of both version maps. `Validate.EnverKeyInjective` proves distinct environments get distinct keys. |
| Validate.EnverKeyInjective | lib/model/odmd-aspect.ts:133 | The `<buildId>/<revision path>` key separates environments with distinct ids and valid, distinct revisions. |
| Validate.VersionEntries | lib/model/odmd-aspect.ts:127-143 | There is one entry per pair, each keyed by its environment. |
| Validate.VersionMap | lib/model/odmd-aspect.ts:127-143 | The version map has distinct keys, exactly the pairs' environment keys. |
| Validate.VersionMapComplete | lib/model/odmd-aspect.ts:127-143 | For distinct environments, no entry of the version map is lost. |
| Validate.ShareInVersionMap | lib/model/odmd-aspect.ts:145-176 | The share-in version map has distinct keys, exactly its share-ins' producer environments. |
| Validate.ShareInVersionsAreInVersions | lib/model/odmd-aspect.ts:145-176 | When share-ins read distinct environments, each one keeps its own line, in order. |
| Validate.ShareOutVersionMap | lib/model/odmd-aspect.ts:127-143 | The share-out version map has distinct keys, exactly its share-outs' environments. |
| Validate.VersionLines | lib/model/odmd-aspect.ts:161-164 | Each line is its key, `:`, then the rendered value. |
| Validate.VersionLineKey | lib/model/odmd-aspect.ts:161-164 | When keys contain no `:`, the first `:` of each line ends its key. |
| Networking.AllStepsListed | lib/OndemandContracts.ts:121-145 | Every initialisation hook is listed at its rank. |
| Networking.AllStepsInOrder | lib/OndemandContracts.ts:121-145 | The hook list is in calling order and holds every hook. |
| Networking.Pick | lib/OndemandContracts.ts:121-145 | Picking keeps exactly the wanted hooks and keeps their order. |
| Networking.InitializeBuilds | lib/OndemandContracts.ts:121-145 | Initialisation fails exactly when only one of the networking repository and the networking account is defined. Otherwise the contracts library runs first, and exactly the wanted hooks run, in order. |
| Networking.AddPlainProducer | lib/repos/__networking/odmd-build-networking.ts:34-39 | A producer declared by id alone is named by its id. Only the producer arena grows. |
| Networking.AddPlainProducers | lib/repos/__networking/odmd-build-networking.ts:34-39 | The producers are appended in order and named by their ids. |
| Networking.IpamProducerIdsOk | lib/repos/__networking/odmd-build-networking.ts:34-39 | The four IPAM producer ids are valid segments. |
| Networking.AddIpamProducers | lib/repos/__networking/odmd-build-networking.ts:34-39 | The IPAM environment gets its four producers under their ids and no subdomains. |
| Networking.NetworkingShell | lib/repos/__networking/odmd-build-networking.ts:18-29 | The constructor succeeds exactly when the environment does not select the networking build for derivation. It then registers the networking build with its single `ipam_west1_le` environment in `us-west-1` on the networking account. |
| Networking.NewNetworkingBuild | lib/repos/__networking/odmd-build-networking.ts:18-39 | The networking build is created exactly when it is not selected for derivation. It then holds a valid IPAM record on its single environment and creates no consumer. |
| Networking.IpamRevValid | lib/repos/__networking/odmd-build-networking.ts:27 | The IPAM environment's revision passes the revision constructor. |
| Networking.AddSubdomainServer | lib/repos/__networking/odmd-build-networking.ts:57-63 | Adding a subdomain succeeds exactly when it is new, and fails with `SubdomainExists` otherwise. |
| Networking.SubdomainServedOnce | lib/repos/__networking/odmd-build-networking.ts:57-63 | Registering a subdomain a second time fails. |
| Networking.IpamRevStackNames | lib/repos/__networking/odmd-build-networking.ts:69-76 | An IPAM environment has two distinct stack names. The first is the CDK name, and the second adds `-share-nat`. |
| Networking.IpamStackNamesOk | lib/repos/__networking/odmd-build-networking.ts:69-76 | Both IPAM stack names pass the stack-name rule, whenever the length fits. |
| Networking.NewIpAddresses | lib/model/odmd-vpc.ts:48-56 | The addresses are created exactly when their pool consumer can be. Unset netmasks default to 26 and 28. |
| Networking.AllocateCidr | lib/model/odmd-vpc.ts:62-68 | Allocating a CIDR always fails. |
| Networking.VpcName | lib/model/odmd-vpc.ts:21 | A VPC name always starts with the build id and ends with the given name. It equals the name exactly when the name already starts with the build id. |
| Networking.VpcNameIdempotent | lib/model/odmd-vpc.ts:21 | A VPC name is its own VPC name. |
| Networking.NewVpc | lib/model/odmd-vpc.ts:18-28 | A VPC is created exactly when its transit-gateway consumer can be. It has two availability zones, no NAT gateway, and a gateway consumer that reads the pool's IPAM environment. |
| Networking.KubeTrustCentralRoleName | lib/model/odmd-enver-eks-cluster.ts:42 | The role name is `kube_`, the revision, then `_trustCentral_<region>`. |
| Networking.FindIpamInRegion | lib/model/odmd-enver-eks-cluster.ts:44 | The search finds the first IPAM environment in the region, or reports that there is none. |
| Networking.EksProducerIdsOk | lib/model/odmd-enver-eks-cluster.ts:11-30 | The five cluster producer ids are valid segments. |
| Networking.ProducersGrownKeepsRegions | lib/OndemandContracts.ts:247-252 | Adding producers keeps the region rule. |
| Networking.AddEksConsumers | lib/model/odmd-enver-eks-cluster.ts:49-51 | The three IPAM consumers are created exactly when a consumer of the IPAM environment can be. |
| Networking.EksConsumersKeepRegions | lib/model/odmd-enver-eks-cluster.ts:44-51 | Consumers of a same-region IPAM environment keep the region rule. |
| Networking.EksClusterOn | lib/model/odmd-enver-eks-cluster.ts:40-52 | A cluster on a given IPAM environment is created exactly when its consumers can be. |
| Networking.EksClusterOnShape | lib/model/odmd-enver-eks-cluster.ts:40-52 | The cluster's records match the graph. Its five producers and three consumers are the ones it names. |
| Networking.AddEksProducers | lib/model/odmd-enver-eks-cluster.ts:11-30 | The cluster gets its five producers and its trust role name. |
| Networking.NewEksCluster | lib/model/odmd-enver-eks-cluster.ts:40-52 | `NoNetworkingInRegion` is returned exactly when no IPAM environment is in the cluster's region. |
| Networking.EksClusterReadsFirstInRegion | lib/model/odmd-enver-eks-cluster.ts:44-47 | The cluster reads the first IPAM environment of its region. |
| Networking.EksClusterOnKeepsRegions | lib/model/odmd-enver-eks-cluster.ts:44-51 | A cluster on a networking environment of its own region keeps the region rule. |
| Networking.EksClusterKeepsRegions | lib/model/odmd-enver-eks-cluster.ts:44-51 | Creating a cluster keeps the region rule. |
| Rules.CheckBuildId | tests/tmp.test.ts:128-134 | The build-id check passes exactly when the id is at most 25 characters and only the contracts library starts with `odmd-`. It reports the prefix first. |
| Rules.CheckRevValue | tests/tmp.test.ts:143-157 | The value check passes exactly when the value is at most 40 characters and, for a GitHub build, matches `^[a-zA-Z0-9_]+$`. |
| Rules.CheckDistinctPaths | tests/tmp.test.ts:160-170 | The check passes exactly when the build's revision paths are distinct. |
| Rules.CheckStackName | tests/tmp.test.ts:184-194 | A stack name passes exactly when it has at most 128 characters, matches `^[A-Za-z][A-Za-z0-9-]*$` and starts with the build id. |
| Rules.CheckEnverStacks | tests/tmp.test.ts:181-195 | The check passes exactly when every stack name of a CDK environment passes. |
| Rules.CheckOverlap | tests/tmp.test.ts:211-229 | The check passes exactly when no two environments in one region and account have values where one is a prefix of the other. |
| Rules.CheckBuild | tests/tmp.test.ts:109-231 | The check passes exactly when every per-build rule holds. The build-id rule is reported first. |
| Rules.CheckSchemas | tests/tmp.test.ts:70-89 | The check passes exactly when schema and user names are valid and no schema repeats or was seen before. |
| Rules.CheckRds | tests/tmp.test.ts:42-92 | `checkRdsEnver` passes exactly when the identifier, database name, VPC membership, address class and schemas are valid. |
| Rules.CheckVpcEnver | tests/tmp.test.ts:17-40 | `checkVpcEnver` passes exactly when addresses and netmasks are set, the gateway and pool share an IPAM environment, and any RDS configuration passes. |
| Rules.DetectDivergent | tests/tmp.test.ts:239-255 | The fold fails only for an unnamed VPC, or for one name with two configurations. |
| Rules.DetectDivergentSound | tests/tmp.test.ts:239-255 | The fold passes exactly when the entries are consistent among themselves and with the map. |
| Rules.ConsistentStepDown | tests/tmp.test.ts:239-255 | Consistency carries over to the tail once the head is recorded. |
| Rules.ConsistentStepUp | tests/tmp.test.ts:239-255 | A consistent tail, plus a head that agrees with the map, gives a consistent list. |
| Rules.OfAccount | tests/tmp.test.ts:257-264 | The account's share is exactly the entries of that account. |
| Rules.OfBuild | tests/tmp.test.ts:276-284 | The build's share is exactly the entries of that build. |
| Rules.FirstSeen | tests/tmp.test.ts:257-264 | The result lists each string of the input exactly once and nothing else. With `Rules.FirstSeenOrder` this fixes the order: first appearance, the order in which a JavaScript `Map` iterates its keys. |
| Rules.FirstSeenOrder | tests/tmp.test.ts:257-264 | Of two listed strings, the earlier one occurs in the input before the later one first occurs. |
| Rules.FirstSeenHead | tests/tmp.test.ts:257-264 | The input's first string is listed first. |
| Rules.BuildFoldsRedundant | tests/tmp.test.ts:276-291 | Once the per-account fold passes, every per-build fold passes. |
| Rules.BuildShareConsistent | tests/tmp.test.ts:286-291 | A build's share of a passing list passes. |
| Rules.CheckAccount | tests/tmp.test.ts:266-291 | One account fails exactly when its VPC environments are inconsistently named. It then fails with what the fold over them reports: `VpcNameUndefined` or `DivergentVpcConfig` for the first offending entry. The per-build folds never change the outcome. |
| Rules.CheckVpcNames | tests/tmp.test.ts:266-292 | The accounts are visited in the given order. The check passes exactly when every account's VPC names are consistent. Otherwise it reports the fold of the first inconsistent account. |
| Rules.CheckVpcNamesSound | tests/tmp.test.ts:266-292 | When every entry's account is visited, the check passes exactly when every VPC is named and, per account, one name means one configuration. |
| Rules.AccountOrderFromAllEnvironments | tests/tmp.test.ts:257-273 | The environments' accounts are A, B, B, A, and the first environment has no VPC. Visiting the accounts of all environments reports `VpcNameUndefined`. Visiting the accounts of the VPC environments alone would report `DivergentVpcConfig`. |
| Rules.RegistryEnvers | tests/tmp.test.ts:109-111 | The suite visits only existing environments. |
| Rules.VpcEntries | tests/tmp.test.ts:270-273 | Exactly the environments with a VPC get an entry, holding the environment's build id, account, VPC name and configuration. |
| Rules.SuiteAccountsCover | tests/tmp.test.ts:257-264 | Every VPC entry's account is among the accounts of the registered environments. |
| Rules.VpcPhaseSound | tests/tmp.test.ts:233-237 | The VPC phase passes exactly when every VPC environment's settings are valid. Otherwise it reports the check of the first invalid one, in registration order. |
| Rules.CheckSuite | tests/tmp.test.ts:95-292 | The suite passes exactly when every registered build's rules hold, every VPC environment's settings are valid and VPC names are consistent per account. A failure comes from the first phase that fails. Builds are checked in registry order and environments in registration order. Accounts are visited in order of first registration among all environments, with or without a VPC (`Rules.SuiteAccounts`). The failing account's fold is what is reported. |
| PgSchemas.NewSchemaUsersProps | lib/odmd-model/contracts-pg-schema-usrs.ts:25-42 | The props are accepted exactly when the environment has RDS, the schema name is valid and no user takes a reserved role name. The error is the first check failed. |
| PgSchemas.FillSecret | lib/odmd-model/contracts-pg-schema-usrs.ts:47-51 | A set secret name is kept. A missing one becomes a name that starts with the build id and fits the cap. |
| PgSchemas.FillSecretIdempotent | lib/odmd-model/contracts-pg-schema-usrs.ts:47-51 | Filling a filled user changes nothing. |
| PgSchemas.FillAll | lib/odmd-model/contracts-pg-schema-usrs.ts:46-53 | The loop succeeds exactly when each user fills, and gives each user's fill in order. |
| PgSchemas.UserSecrets | lib/odmd-model/contracts-pg-schema-usrs.ts:46-53 | The getter keeps owner, schema and user names. Every secret name is set, and a filled one starts with the build id. |
| PgSchemas.UserSecretsStable | lib/odmd-model/contracts-pg-schema-usrs.ts:46-53 | Reading the getter twice gives what reading it once gave. |
| PgSchemas.NewPgSchemaUsers | lib/odmd-model/contracts-pg-schema-usrs.ts:66-108 | The construct fails with `AccountIsToken` when the stack account is unresolved. Otherwise it fails with `SameBuildConsumption` exactly when the RDS cluster belongs to the environment's own build, as the four cluster consumers at lines 77-80 do (lib/odmd-model/contracts-cross-refs.ts:81-83). It fails with `NoRdsConfig` exactly when there is no RDS configuration. It is accepted exactly when the account is resolved, the cluster is another build's, and every filled user has a valid login name and a build-prefixed secret. |
| PgSchemas.CheckUsers | lib/odmd-model/contracts-pg-schema-usrs.ts:99-108 | The check passes exactly when every user passes the login pattern and the secret prefix. |
| PgSchemas.DefaultSecretsPassPrefix | lib/odmd-model/contracts-pg-schema-usrs.ts:99-108 | Once the account is resolved and the RDS cluster belongs to another build, users with default secrets are accepted exactly when their login names are valid. |
| VpcRds.AccountName | lib/OndemandContracts.ts:66-68 | The account lookup gives the first key whose id matches, and fails exactly when no key matches. |
| VpcRds.DefaultRevValue | lib/repos/_default-vpc-rds/odmd-enver-default-vpc-rds.ts:24-25 | The default value is `<region>_<key>_<vpcName>` with every non-word character replaced by `_`. |
| VpcRds.WordValueValid | lib/odmd-model/contracts-build.ts:129-165 | A value of word characters passes the separator rules. |
| VpcRds.DefaultRevAccepted | lib/repos/_default-vpc-rds/odmd-enver-default-vpc-rds.ts:23-26 | The default revision is accepted exactly when it does not start with `v` or `V` and contains no account id. |
| VpcRds.NewVpcRdsBuild | lib/repos/_default-vpc-rds/odmd-build-default-vpc-rds.ts:19-24 | The build starts with no environments and no clusters. |
| VpcRds.FindSite | lib/repos/_default-vpc-rds/odmd-build-default-vpc-rds.ts:27-29 | The search finds the first environment serving the account, region and VPC name, or reports that there is none. |
| VpcRds.CheckProducerId | lib/odmd-model/contracts-cross-refs.ts:15-23 | A childless producer id is accepted exactly when it is a valid segment. |
| VpcRds.NewVpcRdsEnver | lib/repos/_default-vpc-rds/odmd-enver-default-vpc-rds.ts:23-46 | An environment is created exactly when the account is known, the revision and producer ids are valid and the subdomain is free on its IPAM environment. |
| VpcRds.AddClient | lib/repos/_default-vpc-rds/odmd-enver-default-vpc-rds.ts:48-54 | The client is added, and a known client changes nothing. |
| VpcRds.WithClient | lib/repos/_default-vpc-rds/odmd-build-default-vpc-rds.ts:30-32 | Adding a client keeps the build invariant. |
| VpcRds.WithEnver | lib/repos/_default-vpc-rds/odmd-build-default-vpc-rds.ts:35-37 | Pushing a new-site environment keeps the build invariant. |
| VpcRds.GetOrCreateOne | lib/repos/_default-vpc-rds/odmd-build-default-vpc-rds.ts:26-39 | An existing site gains the client. Otherwise one environment is created that serves the client. |
| VpcRds.GetOrCreateOneIdempotent | lib/repos/_default-vpc-rds/odmd-build-default-vpc-rds.ts:26-39 | Asking twice gives the same environment and nothing new. |
| VpcRds.SecondRegionRejected | lib/repos/_default-vpc-rds/odmd-enver-default-vpc-rds.ts:44 | A second region for one VPC name in one account, on the same IPAM environment, fails on the subdomain. |
| VpcRds.NewRdsCluster | lib/odmd-model/contracts-rds-cluster.ts:17-26 | A new cluster has the rds id (default `db`), its identifier, generated secret and security-group names, and no schemas. |
| VpcRds.FindCluster | lib/repos/_default-vpc-rds/odmd-enver-default-vpc-rds.ts:60 | The search finds a cluster with that rds id, or reports that there is none. |
| VpcRds.WithCluster | lib/repos/_default-vpc-rds/odmd-enver-default-vpc-rds.ts:65-78 | Appending a new cluster keeps the build invariant. |
| VpcRds.ClusterLinksKept | lib/repos/_default-vpc-rds/odmd-enver-default-vpc-rds.ts:77 | Appending a cluster keeps every environment's cluster links. |
| VpcRds.GetOrCreateRdsCluster | lib/repos/_default-vpc-rds/odmd-enver-default-vpc-rds.ts:59-79 | An existing rds id returns its cluster unchanged. Otherwise one cluster is created in the environment. |
| VpcRds.GetOrCreateRdsClusterIdempotent | lib/repos/_default-vpc-rds/odmd-enver-default-vpc-rds.ts:59-79 | Asking twice gives the same cluster and nothing new. |
| VpcRds.UserNames | lib/repos/_default-vpc-rds/odmd-enver-default-vpc-rds.ts:91-96 | The names are the users' login names, in order. |
| VpcRds.MapUsernames | lib/repos/_default-vpc-rds/odmd-enver-default-vpc-rds.ts:91-96 | Mapping passes exactly when the names fit. It then appends all of them, keeps what was mapped before and keeps names distinct. |
| VpcRds.NamesFitStep | lib/repos/_default-vpc-rds/odmd-enver-default-vpc-rds.ts:91-96 | Fitting a list means its head is new and valid and its tail fits after it. |
| VpcRds.WithClusterData | lib/repos/_default-vpc-rds/odmd-enver-default-vpc-rds.ts:89-96 | Replacing a cluster's data keeps the build invariant. |
| VpcRds.AddSchemaUsers | lib/repos/_default-vpc-rds/odmd-enver-default-vpc-rds.ts:81-97 | The call fails for another environment's cluster or a repeated schema, with nothing changed. It passes exactly when the users fill and their names fit. A failure after the checks still stores the schema. |
| VpcRds.StoreSchema | lib/repos/_default-vpc-rds/odmd-enver-default-vpc-rds.ts:89-96 | Storing the schema adds exactly one schema entry and keeps other clusters. |
| VpcRds.FailedSchemaBlocksRetry | lib/repos/_default-vpc-rds/odmd-enver-default-vpc-rds.ts:86-89 | A call that changed the state leaves the schema present, so a retry fails with `SchemaExists`. |
| VpcRds.ClusterStackNames | lib/repos/_default-vpc-rds/odmd-enver-default-vpc-rds.ts:104-109 | Every cluster and schema stack name starts with `<buildId>--`. |
| VpcRds.SanitizedKeepsBuildId | lib/repos/_default-vpc-rds/odmd-enver-default-vpc-rds.ts:110 | Sanitizing keeps the build id at the front. |
| VpcRds.SanitizeEach | lib/repos/_default-vpc-rds/odmd-enver-default-vpc-rds.ts:110 | Each sanitized name is made of stack characters and starts with the build id. |
| VpcRds.VpcRdsStackNames | lib/repos/_default-vpc-rds/odmd-enver-default-vpc-rds.ts:99-111 | The first stack is the environment's. All names are made of stack characters and start with the build id. |
| VpcRds.VpcRdsStackNamesOk | lib/repos/_default-vpc-rds/odmd-enver-default-vpc-rds.ts:99-111 | The suite's stack-name rule accepts exactly the names of at most 128 characters. |
| VpcRds.AddAllowProducer | lib/odmd-model/contracts-rds-cluster.ts:28-33 | An allow-list consumer with default `0.0.0.0/32` is added exactly when it can be, and registered on its producer. |
| KubeEks.NewKubeEksBuild | lib/repos/_default-kube-eks/odmd-build-default-kube-eks.ts:12-18 | The build starts with no environments. |
| KubeEks.NewKubeEksEnver | lib/repos/_default-kube-eks/odmd-enver-default-ecr-eks.ts:11-17 | The environment is created exactly when the user's branch value passes the contracts revision. It uses the user's account and the default region. |
| KubeEks.FindUser | lib/repos/_default-kube-eks/odmd-build-default-kube-eks.ts:21 | The search finds the first environment serving the user, or reports that there is none. |
| KubeEks.GetOrCreateOne | lib/repos/_default-kube-eks/odmd-build-default-kube-eks.ts:20-29 | An existing user returns its environment unchanged. Otherwise one environment is appended for the user. |
| KubeEks.GetOrCreateOneIdempotent | lib/repos/_default-kube-eks/odmd-build-default-kube-eks.ts:20-29 | Asking twice gives the same environment and nothing new. |
| Singletons.NewContractsBuild | lib/odmd-model/contracts-build.ts:35-42 | Registering fails exactly for a class already present. Otherwise the class maps to its instance and other classes are kept. |
| Singletons.GetInst | lib/odmd-model/contracts-build.ts:31-33 | The accessor returns the registered instance exactly when one exists. |
| Singletons.ConstructAllOk | lib/odmd-model/contracts-build.ts:35-42 | Constructing in sequence succeeds exactly when no class is already present and none repeats. Then every class maps to its instance. |
| Singletons.KeptAfter | lib/odmd-model/contracts-build.ts:35-42 | A class registered before a successful run keeps its instance. |

## Left out

- CDK constructs, stacks, custom resources, parameters and tokens are left out. They are deployment machinery, not graph logic. Share-in and share-out values are opaque attribute tokens.
- The md5 digest, `CDK_DEFAULT_REGION`, `ODMD_build_id` and `ODMD_rev_ref` are parameters. Hashing and the process environment are outside the model.
- Console warnings are left out because they change nothing:
  - the git checks of `getTargetEnver`;
  - the branch-length warning;
  - the non-GitHub charset warning;
  - the "Adding client again?" warning;
  - the sanitizer's log line.
- `getEnverCommonAncestor` is left out. It walks class prototypes by reflection.
- Three test-suite checks cannot fire, so they are left out:
  - the region-name prefix check, whose find callback returns nothing;
  - the `size < 0` account check;
  - the `size == 0` per-build check.
- The `ghAppInstallID` rule is left out. It repeats the alphanumeric branch rule, which is modelled.
- The length check after the login-name pattern in `PgSchemaUsers` is left out. The pattern already bounds the length.
- Construct-id uniqueness is left out. For example, a second RDS cluster on one environment reusing producer ids is rejected by the construct tree, not by this code.
- The default VPC/RDS state is kept apart from the arena graph. The central-CIDR, pool and gateway consumers of its environments, and its cluster producers, are not entered into `Graph.Contracts`. Its rules are modelled on its own state.
- The aspect's gate on `ODMD_build_id` and the stack-name prefix is left out. The version maps are modelled as the functions the gate calls.
- VpcRds.AddSchemaUsers: when filling a secret name fails midway, the source keeps the users filled before the failure. The model stores the props as given.
- Networking.AddEksProducers: the consumer fields of the record are placeholders until `EksClusterOn` fills them.
- Sanitizers.RotateLeadingDigits: an all-digit digest gives an error, where the source loops forever.
- Derive.GenerateDynamicEnver: the derived environment is a fresh record of the same class. The model does not replay the class's constructor body or field initialisers. Producers and consumers a class creates there are not recreated for the derived environment, and such code that throws is not modelled. Only the networking class's argument mismatch is modelled.
- Derive.DeriveFrom: appends the derived environment only. It does not replay the producers and consumers its class's initialisers would create.
- Derive.NewOdmdBuild: a derived environment gets no producers or consumers from its class's initialisers. Derivation is modelled for the networking build only through its constructor's argument mismatch. The other platform builds construct their environments outside this constructor model.
- Graph.ResolveRefToken: the walk lists an environment's producers before its consumers. The source lists them in their interleaved creation order. With unique construct paths the first hit is the only hit, so the result is the same. Constructs other than builds, environments, producers and consumers (stacks, custom resources, per-class helper constructs) are not walked.
- Graph.BuildWalk: walks the four kinds of graph construct only, as above.
- Shares.GetShareValue: an inherited `Object.prototype` member is returned as `Inherited(name)`, not as the function or object it is.
- Shares.GetSharedValue: files share-ins under the corrected `ShareInKey`. The source uses `OdmdNames.create(producer enver, stackName)`, whose collisions are shown by `Shares.ShareInKeyCollides`.
- Sanitizers.SanitizeStackName: characters are Unicode code points. The source regex works on UTF-16 code units, so a character outside the basic plane becomes two `-` there and one here.
- Sanitizers.CleanNamespace: lower-casing is ASCII-only (`Strings.Lower`), and characters are code points. JavaScript's `toLowerCase` also lowers non-ASCII letters, some into `[a-z]` (the Kelvin sign becomes `k`) or into two characters (`İ`).
- Sanitizers.GenRepoName: same ASCII-only lower-casing. A non-ASCII letter that `toLowerCase` maps into `[a-z]` is dropped here but kept by the source.
- Sanitizers.ClusterIdentifier: same ASCII-only lower-casing as `Sanitizers.GenRepoName`, with the same effect: a non-ASCII letter that `toLowerCase` maps into `[a-z]` is dropped here but kept by the source.
- Strings.Lower: lowers `A`-`Z` only, as the lines above say.
- Rules.CheckSuite: when a build fails, the contract names the first failing build in registry order, not the error reported. `Rules.CheckBuild` states which of a build's rules is reported first.
- The parallel `lib/odmd-model` copies of the model classes are modelled only where a default build uses them: the contracts revision, the RDS cluster, the schema users and the singleton registry. The rest mirrors `lib/model`.
- The AWS SDK helpers under `lib/utils` are left out. They are network I/O.

## Findings

| source | as written | input that shows it | evidently intended | confidence | as-written member | corrected member |
|---|---|---|---|---|---|---|
| lib/model/odmd-eks-manifest.ts:95-103 | The namespace is cut to 63 characters before the ends are fixed. A cut that ends in `-` then gets an `a` appended. | 62 `a`s, `-`, `bb` (65 characters) gives 64 characters. `createDefaultNamespace` for build `app` on a branch of 56 `a`s, `-`, `bb` gives 64 too (`Sanitizers.DefaultNamespaceExceedsLabel`). | A DNS label of at most 63 characters (RFC 1123 section 2.1). | high; not executed | Sanitizers.NamespaceAsWrittenExceedsLabel | Sanitizers.SanitizeNamespace |
| lib/model/odmd-cross-refs.ts:141 | The share-in key `OdmdNames.create(producer enver, stackName)` strips every non-alphanumeric character. Distinct environments of one build can therefore share a key. The second consumer then makes `addRefProducer` throw, because the share-in under that key reads another environment. | Build `app` under root `ondemandenv`, branches `feature-1` and `feature1`, any stack name of at most 30 characters. | One share-in per producer environment and stack. | medium; not executed | Shares.ShareInKeyCollides | Shares.GetSharedValueNeverMixes |
