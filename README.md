# Deployment record of ipfs-ens-types, in Dafny

This project models the deployment record that the `ipfs-ens-types` package
defines for one IPFS/ENS site deployment (`spec/deployment/deployment.ts`).
It covers three parts of that file:

- **Structural validators** over untyped JavaScript values. These are
  `isPipeline`, `isIpfs`, `isEns`, `isAny`, `isName`, `isSourceProvider`,
  `isDeployArgs` and `isDeployItem`.
- **The lifecycle state machine**: the `DeployStates` enum and the
  `nextDeployState` lookup table.
- **The constructors** `newDeployArgs` and `newDeployItem`.

Files:

- `json.dfy` (module `Json`): the value a validator receives, as a
  datatype. It has `Undefined` for a missing property and integer numbers.
  The module also has JavaScript truthiness and the value tests the file
  imports (`isObject`, `isString`, `isNumber`, `keysAreStrings`,
  `isStringMapping`).
- `transition_names.dfy` (module `TransitionNames`): `Transitions.Names.All`
  and the grouping of the six stage keys into the three shapes.
- `transitions.dfy` (module `Transitions`): the three transition shapes as
  datatypes, their wire form, and the transition validators.
- `deployment.dfy` (module `Deployment`): `DeployArgs`, `DeployItem`, the
  constructors, the wire form of a record, and the record validators.
- `deploy_states.dfy` (module `DeployStates`): the eight states and `Next`.

Each validator is a predicate that follows the code's branches. Each has a
partner proved against it:

- `isPipeline` and `isIpfs` accept exactly the objects that hold the wire
  form of some typed transition.
- `isEns` accepts exactly the values that carry a pending or a confirmed
  registry transition.
- `isAny` accepts exactly the values that carry some typed transition of the
  union.
- A truthy `envVars` passes `isDeployArgs` exactly when it is the wire form
  of a string mapping.
- `isDeployItem` accepts exactly the records whose truthy slots each have
  their key's shape.
- Serialising any typed record gives a value `isDeployItem` accepts. The one
  exception is a record holding a half-confirmed registry transition.

Presence is tested by JavaScript truthiness, as in the code. So a falsy
`envVars` (`null`, `0`, `''`) is ignored. In `isEns`, truthiness only decides
whether the pair check on `blockNumber` and `confirmationTimestamp` runs
(deployment.ts line 174). The check itself tests only the types (line 175).
So a `blockNumber: 0` or `confirmationTimestamp: ''` on its own does not
trigger it. Next to a truthy partner, such a field satisfies it: a value with
`blockNumber: 5, confirmationTimestamp: ''` passes with exactly one truthy
confirmation field.

The code's declarations promise more than its validators check. The model
follows the validators:

- **`envVars` in a record.** `DeployItem extends DeployArgs`
  (deployment.ts line 46), so `val is DeployItem` promises
  `envVars?: StringMapping`. `isDeployItem` only requires the eleven string
  keys, so it never looks at `envVars`. `Deployment.ItemAcceptsUncheckedEnvVars`
  proves that a record with `envVars: true` passes `isDeployItem` and fails
  `isDeployArgs`.
- **Falsy `envVars`.** `envVars?: StringMapping` admits a missing key or a
  mapping. `isDeployArgs` also accepts `null`, `0` and `''` there
  (`Deployment.FalsyEnvVarsUntyped`).
- **Steps to `AVAILABLE`.** The `nextDeployState` table covers eight states.
  So seven applications lead from `FETCHING_SOURCE` to `AVAILABLE`
  (`DeployStates.RunFromFetchingSource`).
- **Empty strings.** The `DeployArgs` fields are typed `string`.
  `newDeployArgs` fills them with `''`, and no validator checks for
  emptiness.
- **`state` is not checked.** `isDeployItem` never reads `state`. The
  correspondence between `state` and the filled `transitions` slots is
  stated separately as `Deployment.StateMatchesTransitions`. The validator
  does not enforce it (`Deployment.StateNotExamined`,
  `Deployment.ShapeOnlyNotProgress`).

## Model

| member | source | states |
|---|---|---|
| `DeployStates.Index` | spec/deployment/deployment.ts:213-222 | every state has a position below eight in the declared order, the declared sequence holds it there, and the last position is `AVAILABLE`'s alone |
| `DeployStates.Next` | spec/deployment/deployment.ts:224-233 | `AVAILABLE` maps to itself; every other state maps to the state declared right after it |
| `DeployStates.DeclaredOnce` | spec/deployment/deployment.ts:213-222 | the eight states occur once each in declaration order |
| `DeployStates.NamesDistinct` | spec/deployment/deployment.ts:213-222 | no two states share a string value |
| `DeployStates.OnlyFixedPointIsAvailable` | spec/deployment/deployment.ts:224-233 | `next(s) == s` exactly when `s` is `AVAILABLE` |
| `DeployStates.AdvanceIndex` | spec/deployment/deployment.ts:224-233 | `k` steps of `next` move `k` places forward in declaration order, stopping at `AVAILABLE` |
| `DeployStates.RunFromFetchingSource` | spec/deployment/deployment.ts:224-233 | from `FETCHING_SOURCE` the i-th step reaches the i-th declared state, seven steps reach `AVAILABLE`, and every later step stays there |
| `TransitionNames.ValuesAreKeys` | spec/deployment/deployment.ts:105-113 | `Object.values(Names.All)` holds exactly the six members' keys |
| `TransitionNames.KeysDistinct` | spec/deployment/deployment.ts:105-113 | no two members of `Names.All` share a key |
| `Transitions.IsNameExactly` | spec/deployment/deployment.ts:122-124 | `isName` accepts a value exactly when it is the string key of one of the six stages |
| `Transitions.PipelineAcceptsExactly` | spec/deployment/deployment.ts:136-142 | `isPipeline` accepts exactly the objects that hold a string `timestamp` and a number `size`, i.e. extend the wire form of some pipeline transition |
| `Transitions.IpfsAcceptsExactly` | spec/deployment/deployment.ts:148-154 | `isIpfs` accepts exactly the objects that extend the wire form of some publish transition (string `timestamp`, string `hash`) |
| `Transitions.EnsAcceptedCarries` | spec/deployment/deployment.ts:163-178 | every value `isEns` accepts carries a pending or confirmed registry transition read off its own fields |
| `Transitions.CarriedEnsAccepted` | spec/deployment/deployment.ts:163-178 | every value carrying a pending or confirmed registry transition, with its omitted confirmation fields falsy, passes `isEns` |
| `Transitions.EnsAcceptsExactly` | spec/deployment/deployment.ts:163-178 | `isEns` accepts exactly the values that carry a registry transition that is pending (neither confirmation field truthy) or confirmed (a number `blockNumber` and a string `confirmationTimestamp`, either of which may be `0` or `''`); a truthy field whose partner is absent or of the wrong type is rejected |
| `Transitions.EncodedEnsAccepted` | spec/deployment/deployment.ts:156-178 | the wire form of a typed registry transition passes `isEns` exactly when it is pending or confirmed |
| `Transitions.EnsExamples` | spec/deployment/deployment.ts:163-178 | a bare `{timestamp, txHash, nonce}` is accepted; a lone non-zero `blockNumber` or lone non-empty `confirmationTimestamp` is rejected; a lone `blockNumber: 0` is accepted; both set is accepted, including `blockNumber: 5, confirmationTimestamp: ''` and `blockNumber: 0, confirmationTimestamp: 'x'`, which have one truthy field |
| `Transitions.AnyAcceptsExactly` | spec/deployment/deployment.ts:180-184 | `isAny` accepts exactly the values that carry some member of the typed union of `Pipeline`, `Ipfs` and `Ens` (a registry one pending or confirmed) |
| `Transitions.EncodedShapeIsOwnShapeOnly` | spec/deployment/deployment.ts:136-184 | a wire-form transition is rejected by the other two shapes' validators, and it passes its own shape's validator and `isAny` (a registry one when pending or confirmed) |
| `Deployment.SourceProviderExactly` | spec/deployment/deployment.ts:204-211 | `isSourceProvider` accepts exactly the string value of a `SourceProviders` member |
| `Deployment.EncodedArgsAccepted` | spec/deployment/deployment.ts:10-24 | the wire form of every typed `DeployArgs`, with or without `envVars`, passes `isDeployArgs` |
| `Deployment.NewDeployArgsAccepted` | spec/deployment/deployment.ts:26-36 | `newDeployArgs()` has exactly the seven required keys, `sourceProvider` is `"GitHub"`, and it passes `isDeployArgs` |
| `Deployment.MissingArgRejected` | spec/deployment/deployment.ts:21-24 | removing any one of the seven required keys from any object makes `isDeployArgs` reject it |
| `Deployment.TruthyEnvVarsTyped` | spec/deployment/deployment.ts:18-24 | with a truthy `envVars`, `isDeployArgs` accepts exactly when the seven keys hold strings and `envVars` is the wire form of some string mapping |
| `Deployment.FalsyEnvVarsUntyped` | spec/deployment/deployment.ts:18-24 | with the seven string keys, an `envVars` of `null`, `0` or `''` is accepted, although no typed `DeployArgs` serialises to such a value |
| `Deployment.ItemKeysAreEleven` | spec/deployment/deployment.ts:68-71 | the keys `isDeployItem` requires are the seven argument keys of `newDeployArgs()` plus `createdAt`, `updatedAt`, `username`, `codepipelineName` |
| `Deployment.ItemDispatchesOnKey` | spec/deployment/deployment.ts:67-88 | `isDeployItem` accepts exactly the values with the eleven string keys, an object `transitions` whose every truthy slot has its key's shape, and an absent or well-formed `transitionError` |
| `Deployment.CrossWiredSlotRejected` | spec/deployment/deployment.ts:72-79 | a wire-form transition of one shape stored under a key of another shape (an ipfs value under `ensRegister`, say) makes the record fail |
| `Deployment.UnknownFailedStageRejected` | spec/deployment/deployment.ts:80-86 | a truthy `transitionError` whose `transition` is not one of the six stage names makes the record fail |
| `Deployment.UnreadKeyIgnored` | spec/deployment/deployment.ts:67-88 | overwriting any key other than the eleven string keys, `transitions` and `transitionError` never changes the verdict of `isDeployItem` |
| `Deployment.StateNotExamined` | spec/deployment/deployment.ts:67-88 | replacing a record's `state` by any value never changes the verdict of `isDeployItem` |
| `Deployment.EncodedSlotsAccepted` | spec/deployment/deployment.ts:52-59 | the wire form of typed `transitions` passes the per-key slot checks exactly when each registry transition in it is pending or confirmed |
| `Deployment.EncodedItemAccepted` | spec/deployment/deployment.ts:46-88 | serialising a typed record gives a value `isDeployItem` accepts exactly when each registry transition it holds is pending or confirmed |
| `Deployment.NewDeployItemAccepted` | spec/deployment/deployment.ts:90-101 | `newDeployItem(now)` is in `FETCHING_SOURCE` with no transitions, no failure, and `createdAt == updatedAt == now`; its wire form passes `isDeployItem` |
| `Deployment.NewDeployItemConsistent` | spec/deployment/deployment.ts:90-101 | a new record's state `FETCHING_SOURCE` agrees with its empty `transitions`: no slot is filled, and no slot's stage has been passed |
| `Deployment.ShapeOnlyNotProgress` | spec/deployment/deployment.ts:67-88 | a record in `AVAILABLE` with empty `transitions` passes `isDeployItem` although its state and transitions disagree |
| `Deployment.ItemAcceptsUncheckedEnvVars` | spec/deployment/deployment.ts:67-88 | a record that passes `isDeployItem` passes `isDeployArgs` exactly when its `envVars` is falsy or a string mapping; with `envVars: true` it passes the first and fails the second |

## Left out

- **The `api-types` helpers.** The real implementations of `isObject`,
  `isString`, `keysAreStrings` and `isStringMapping` from
  `@eximchain/api-types` are not part of this model. They are given plain
  definitions in `Json`:
  - `isObject` holds of objects only, not of arrays or `null`.
  - `keysAreStrings` means "an object in which every listed key holds a
    string".
  - `isStringMapping` means "an object whose values are all strings".
- **`util.isNumber`** is taken as "is a number".
- **JavaScript runtime behaviour**:
  - reading a property of `null` or `undefined` throws in JavaScript, for
    example in `isDeployArgs` on such a value; here it reads as `undefined`;
  - properties inherited through prototypes;
  - `NaN`;
  - floating-point numbers, which are modelled as integers. Only a number's
    type and whether it is zero matter to the validators.
- **`Date.now()` in `newDeployItem`.** The model takes the timestamp string
  as a parameter.
- **The `GitTypes` namespace and the `DeployArgsKey`/`Val`/`Pair` aliases.**
  These are types only, over Octokit responses that are not part of this
  model.
- **Key order.** `Object.keys` returns keys in order, but the model keeps
  the required keys as a set. The order does not affect `keysAreStrings`.
- **The other source files.** `spec/methods/private/private.ts`,
  `spec/methods/auth/auth.ts`, `spec/methods/index.ts` and `spec/index.ts`
  hold HTTP paths, verbs, request/response envelopes and re-exports. They add
  no invariant.
- **Typed `sourceProvider`.** In the typed records, `sourceProvider` is the
  `SourceProviders` enum, so its wire form is always `"GitHub"`.
  `isDeployArgs` itself accepts any string there, as the code does.
