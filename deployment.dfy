/**
 * The deployment record: the arguments a client submits (`DeployArgs`),
 * the persisted record (`DeployItem`), their constructors, their wire form
 * and the validators `isSourceProvider`, `isDeployArgs` and `isDeployItem`.
 */
module Deployment {
  import opened Json
  import opened Transitions
  import Names = TransitionNames
  import DeployStates

  /** `SourceProviders` */
  datatype SourceProvider = GitHub
  {
    /** The enum member's string value. */
    function Value(): string
    {
      match this
      case GitHub => "GitHub"
    }
  }

  /** `Object.values(SourceProviders)` */
  const ProviderValues: seq<string> := ["GitHub"]

  /** `isSourceProvider` */
  predicate IsSourceProvider(s: string)
  {
    s in ProviderValues
  }

  datatype DeployArgs = DeployArgs(
    packageDir: string,
    buildDir: string,
    owner: string,
    repo: string,
    branch: string,
    ensName: string,
    sourceProvider: SourceProvider,
    envVars: Option<map<string, string>>)

  /** The seven keys `isDeployArgs` requires to hold strings. */
  const ArgsKeys: set<string> :=
    {"packageDir", "buildDir", "owner", "repo", "branch", "ensName", "sourceProvider"}

  /** The wire form of a string mapping. */
  function EncodeEnvVars(m: map<string, string>): Value
  {
    Object(map k | k in m :: Str(m[k]))
  }

  /** The wire form of the arguments; `envVars` appears only when set. */
  function ArgsFields(a: DeployArgs): map<string, Value>
  {
    var required := map[
      "packageDir" := Str(a.packageDir), "buildDir" := Str(a.buildDir),
      "owner" := Str(a.owner), "repo" := Str(a.repo), "branch" := Str(a.branch),
      "ensName" := Str(a.ensName), "sourceProvider" := Str(a.sourceProvider.Value())];
    if a.envVars.Some?
    then required["envVars" := EncodeEnvVars(a.envVars.value)]
    else required
  }

  function EncodeDeployArgs(a: DeployArgs): Value
  {
    Object(ArgsFields(a))
  }

  /** `isDeployArgs`: a truthy `envVars` must be a string mapping, and the seven keys must hold strings. */
  predicate IsDeployArgs(v: Value)
  {
    if Truthy(Get(v, "envVars")) && !IsStringMapping(Get(v, "envVars")) then false
    else KeysAreStrings(v, ArgsKeys)
  }

  /** `newDeployArgs` */
  function NewDeployArgs(): DeployArgs
  {
    DeployArgs("", "", "", "", "", "", GitHub, None)
  }

  /** The `transitionError` of a record: the stage that failed, why, and when. */
  datatype TransitionError = TransitionError(transition: Names.All, message: string, timestamp: string)

  /** The `transitions` of a record: one optional slot per stage key. */
  datatype TransitionSlots = TransitionSlots(
    source: Option<Pipeline>,
    build: Option<Pipeline>,
    ipfs: Option<Ipfs>,
    ensRegister: Option<Ens>,
    ensSetResolver: Option<Ens>,
    ensSetContent: Option<Ens>)
  {
    /** The slot a stage key names. */
    function Slot(n: Names.All): Option<Any>
    {
      match n
      case Source => if source.Some? then Some(AnyPipeline(source.value)) else None
      case Build => if build.Some? then Some(AnyPipeline(build.value)) else None
      case Ipfs => if ipfs.Some? then Some(AnyIpfs(ipfs.value)) else None
      case EnsRegister => if ensRegister.Some? then Some(AnyEns(ensRegister.value)) else None
      case EnsSetResolver => if ensSetResolver.Some? then Some(AnyEns(ensSetResolver.value)) else None
      case EnsSetContent => if ensSetContent.Some? then Some(AnyEns(ensSetContent.value)) else None
    }

    /** Every registry transition held is pending or confirmed. */
    predicate EnsWellFormed()
    {
      && (ensRegister.Some? ==> ensRegister.value.Pending() || ensRegister.value.Confirmed())
      && (ensSetResolver.Some? ==> ensSetResolver.value.Pending() || ensSetResolver.value.Confirmed())
      && (ensSetContent.Some? ==> ensSetContent.value.Pending() || ensSetContent.value.Confirmed())
    }
  }

  const NoTransitions: TransitionSlots := TransitionSlots(None, None, None, None, None, None)

  datatype DeployItem = DeployItem(
    args: DeployArgs,
    createdAt: string,
    updatedAt: string,
    username: string,
    state: DeployStates.DeployState,
    codepipelineName: string,
    transitions: TransitionSlots,
    transitionError: Option<TransitionError>)

  /** The keys `isDeployItem` requires to hold strings: those of `newDeployArgs()` and four more. */
  function ItemKeys(): set<string>
  {
    ArgsFields(NewDeployArgs()).Keys + {"createdAt", "updatedAt", "username", "codepipelineName"}
  }

  /**
   * `isDeployItem`: the string keys, an object `transitions` whose truthy
   * slots validate against their key's shape, and a truthy
   * `transitionError` that names a stage and carries a message and a
   * timestamp. The record's `state` and `envVars` are not examined.
   */
  predicate IsDeployItem(v: Value)
  {
    if !KeysAreStrings(v, ItemKeys()) then false
    else if !IsObject(Get(v, "transitions")) then false
    else
      var trans := Get(v, "transitions");
      if Truthy(Get(trans, "source")) && !IsPipeline(Get(trans, "source")) then false
      else if Truthy(Get(trans, "build")) && !IsPipeline(Get(trans, "build")) then false
      else if Truthy(Get(trans, "ipfs")) && !IsIpfs(Get(trans, "ipfs")) then false
      else if Truthy(Get(trans, "ensRegister")) && !IsEns(Get(trans, "ensRegister")) then false
      else if Truthy(Get(trans, "ensSetResolver")) && !IsEns(Get(trans, "ensSetResolver")) then false
      else if Truthy(Get(trans, "ensSetContent")) && !IsEns(Get(trans, "ensSetContent")) then false
      else
        var err := Get(v, "transitionError");
        if Truthy(err) then
          if !IsObject(err) then false
          else if !IsString(Get(err, "message")) then false
          else if !IsString(Get(err, "timestamp")) then false
          else if !IsName(Get(err, "transition")) then false
          else true
        else true
  }

  /** The wire form of `transitions`: only the filled slots appear. */
  function EncodeTransitions(t: TransitionSlots): Value
  {
    var m0: map<string, Value> := map[];
    var m1 := if t.source.Some? then m0["source" := EncodePipeline(t.source.value)] else m0;
    var m2 := if t.build.Some? then m1["build" := EncodePipeline(t.build.value)] else m1;
    var m3 := if t.ipfs.Some? then m2["ipfs" := EncodeIpfs(t.ipfs.value)] else m2;
    var m4 := if t.ensRegister.Some? then m3["ensRegister" := EncodeEns(t.ensRegister.value)] else m3;
    var m5 := if t.ensSetResolver.Some? then m4["ensSetResolver" := EncodeEns(t.ensSetResolver.value)] else m4;
    Object(if t.ensSetContent.Some? then m5["ensSetContent" := EncodeEns(t.ensSetContent.value)] else m5)
  }

  function EncodeTransitionError(e: TransitionError): Value
  {
    Object(map["transition" := Str(e.transition.Key()), "message" := Str(e.message),
               "timestamp" := Str(e.timestamp)])
  }

  /** The wire form of a record: the arguments' fields flattened in, `transitionError` only when set. */
  function EncodeDeployItem(d: DeployItem): Value
  {
    var fields := ArgsFields(d.args) + map[
      "createdAt" := Str(d.createdAt), "updatedAt" := Str(d.updatedAt),
      "username" := Str(d.username), "state" := Str(d.state.Name()),
      "codepipelineName" := Str(d.codepipelineName),
      "transitions" := EncodeTransitions(d.transitions)];
    Object(if d.transitionError.Some?
           then fields["transitionError" := EncodeTransitionError(d.transitionError.value)]
           else fields)
  }

  /** `newDeployItem`, with the creation time passed in. */
  function NewDeployItem(now: string): DeployItem
  {
    DeployItem(NewDeployArgs(), now, now, "", DeployStates.FetchingSource, "", NoTransitions, None)
  }

  /**
   * The stage each key completes: its slot is filled once the record has
   * moved past that stage's state. This correspondence is kept by whoever
   * advances a record; `isDeployItem` does not check it.
   */
  function StageState(n: Names.All): DeployStates.DeployState
  {
    match n
    case Source => DeployStates.FetchingSource
    case Build => DeployStates.BuildingSource
    case Ipfs => DeployStates.DeployingIpfs
    case EnsRegister => DeployStates.RegisteringEns
    case EnsSetResolver => DeployStates.SettingResolverEns
    case EnsSetContent => DeployStates.SettingContentEns
  }

  /** A record without a failure has exactly the slots of the stages it has moved past (not enforced). */
  ghost predicate StateMatchesTransitions(d: DeployItem)
  {
    d.transitionError.None? ==>
      forall n: Names.All ::
        (d.transitions.Slot(n).Some? <==> DeployStates.Index(StageState(n)) < DeployStates.Index(d.state))
  }

  // ---------------------------------------------------------------------
  // Properties of the validators and constructors
  // ---------------------------------------------------------------------

  /** `isSourceProvider` accepts exactly the string value of a `SourceProviders` member. */
  lemma SourceProviderExactly(s: string)
    ensures IsSourceProvider(s) <==> exists p: SourceProvider :: p.Value() == s
  {
    if IsSourceProvider(s) {
      assert GitHub.Value() == s;
    }
  }

  /** Every wire-form argument record passes `isDeployArgs`. */
  lemma EncodedArgsAccepted(a: DeployArgs)
    ensures IsDeployArgs(EncodeDeployArgs(a))
  {
  }

  /**
   * `newDeployArgs()` has exactly the seven required keys, names the GitHub
   * provider and passes `isDeployArgs`.
   */
  lemma NewDeployArgsAccepted()
    ensures ArgsFields(NewDeployArgs()).Keys == ArgsKeys
    ensures Get(EncodeDeployArgs(NewDeployArgs()), "sourceProvider") == Str("GitHub")
    ensures IsDeployArgs(EncodeDeployArgs(NewDeployArgs()))
  {
  }

  /** Removing any one of the seven required keys makes a value fail `isDeployArgs`. */
  lemma MissingArgRejected(v: Value, k: string)
    requires v.Object? && k in ArgsKeys
    ensures !IsDeployArgs(Object(v.fields - {k}))
  {
  }

  /**
   * A truthy `envVars` passes exactly when it is the wire form of some
   * string mapping, the type `DeployArgs` declares for it.
   */
  lemma TruthyEnvVarsTyped(v: Value)
    requires Truthy(Get(v, "envVars"))
    ensures IsDeployArgs(v) <==>
      KeysAreStrings(v, ArgsKeys) && exists m: map<string, string> :: Get(v, "envVars") == EncodeEnvVars(m)
  {
    var env := Get(v, "envVars");
    if IsStringMapping(env) {
      var m := map k | k in env.fields :: env.fields[k].s;
      assert env == EncodeEnvVars(m);
    }
    if exists m: map<string, string> :: env == EncodeEnvVars(m) {
      var m: map<string, string> :| env == EncodeEnvVars(m);
      assert IsStringMapping(env);
    }
  }

  /**
   * A falsy `envVars` that is present (`null`, `0`, `''`) is ignored, so
   * `isDeployArgs` accepts values that no typed `DeployArgs` serialises to.
   */
  lemma FalsyEnvVarsUntyped(v: Value)
    requires KeysAreStrings(v, ArgsKeys)
    requires Get(v, "envVars") == Null || Get(v, "envVars") == Number(0) || Get(v, "envVars") == Str("")
    ensures IsDeployArgs(v)
    ensures forall a: DeployArgs :: EncodeDeployArgs(a) != v
  {
    forall a: DeployArgs
      ensures EncodeDeployArgs(a) != v
    {
      assert Get(EncodeDeployArgs(a), "envVars") == if a.envVars.Some? then EncodeEnvVars(a.envVars.value) else Undefined;
    }
  }

  /** The keys of `newDeployArgs()` are the seven argument keys, so a record needs eleven strings. */
  lemma ItemKeysAreEleven()
    ensures ItemKeys() == ArgsKeys + {"createdAt", "updatedAt", "username", "codepipelineName"}
  {
  }

  /** What `isDeployItem` asks of `transitionError`. */
  predicate ErrorAccepted(err: Value)
  {
    Truthy(err) ==>
      && IsObject(err) && IsString(Get(err, "message")) && IsString(Get(err, "timestamp"))
      && IsName(Get(err, "transition"))
  }

  /** Every truthy slot of `trans` has the shape its stage key calls for. */
  predicate SlotsAccepted(trans: Value)
  {
    forall n: Names.All :: Truthy(Get(trans, n.Key())) ==> HasShape(Names.KindOf(n), Get(trans, n.Key()))
  }

  /**
   * `isDeployItem` dispatches on the stage key: it accepts exactly the
   * records whose every truthy `transitions` slot has the shape of its key,
   * and whose `transitionError` is absent or well formed.
   */
  lemma ItemDispatchesOnKey(v: Value)
    ensures IsDeployItem(v) <==>
      && KeysAreStrings(v, ItemKeys())
      && IsObject(Get(v, "transitions"))
      && SlotsAccepted(Get(v, "transitions"))
      && ErrorAccepted(Get(v, "transitionError"))
  {
    if SlotsAccepted(Get(v, "transitions")) {
      assert Names.All.Source.Key() == "source" && Names.All.Build.Key() == "build";
      assert Names.All.Ipfs.Key() == "ipfs" && Names.All.EnsRegister.Key() == "ensRegister";
      assert Names.All.EnsSetResolver.Key() == "ensSetResolver" && Names.All.EnsSetContent.Key() == "ensSetContent";
    }
  }

  /**
   * A cross-wired slot is rejected: a wire-form transition of one shape
   * under a key of another shape makes the record fail.
   */
  lemma CrossWiredSlotRejected(v: Value, n: Names.All, t: Any)
    requires Get(Get(v, "transitions"), n.Key()) == EncodeAny(t)
    requires t.Kind() != Names.KindOf(n)
    ensures !IsDeployItem(v)
  {
    EncodedShapeIsOwnShapeOnly(t, Names.KindOf(n));
    ItemDispatchesOnKey(v);
  }

  /** A truthy `transitionError` whose `transition` is not one of the six stage keys is rejected. */
  lemma UnknownFailedStageRejected(v: Value)
    requires Truthy(Get(v, "transitionError"))
    requires !IsName(Get(Get(v, "transitionError"), "transition"))
    ensures !IsDeployItem(v)
  {
  }

  /** Overwriting a key that `isDeployItem` does not read leaves its verdict unchanged. */
  lemma UnreadKeyIgnored(v: Value, key: string, x: Value)
    requires v.Object?
    requires key !in ItemKeys() && key != "transitions" && key != "transitionError"
    ensures IsDeployItem(Object(v.fields[key := x])) == IsDeployItem(v)
  {
    var w := Object(v.fields[key := x]);
    forall k | k in ItemKeys() ensures Get(w, k) == Get(v, k) { }
    assert Get(w, "transitions") == Get(v, "transitions");
    assert Get(w, "transitionError") == Get(v, "transitionError");
    ItemDispatchesOnKey(v);
    ItemDispatchesOnKey(w);
  }

  /** `isDeployItem` never reads `state`: replacing it does not change the verdict. */
  lemma StateNotExamined(v: Value, x: Value)
    requires v.Object?
    ensures IsDeployItem(Object(v.fields["state" := x])) == IsDeployItem(v)
  {
    ItemKeysAreEleven();
    UnreadKeyIgnored(v, "state", x);
  }

  /** The slots of the wire form are the wire forms of the filled slots. */
  lemma EncodedSlot(t: TransitionSlots, n: Names.All)
    ensures Get(EncodeTransitions(t), n.Key()) ==
            if t.Slot(n).Some? then EncodeAny(t.Slot(n).value) else Undefined
  {
    match n
    case Source =>
    case Build =>
    case Ipfs =>
    case EnsRegister =>
    case EnsSetResolver =>
    case EnsSetContent =>
  }

  /** The slot of `n` holds nothing, or a transition that its wire form lets `isDeployItem` accept. */
  predicate SlotWellFormed(t: TransitionSlots, n: Names.All)
  {
    t.Slot(n).Some? && t.Slot(n).value.AnyEns? ==> t.Slot(n).value.e.Pending() || t.Slot(n).value.e.Confirmed()
  }

  /** The registry transitions are well formed exactly when every slot is. */
  lemma WellFormedPerSlot(t: TransitionSlots)
    ensures t.EnsWellFormed() <==> forall n: Names.All :: SlotWellFormed(t, n)
  {
    assert t.EnsWellFormed() <==>
      SlotWellFormed(t, Names.All.EnsRegister) && SlotWellFormed(t, Names.All.EnsSetResolver)
      && SlotWellFormed(t, Names.All.EnsSetContent);
    assert SlotWellFormed(t, Names.All.Source) && SlotWellFormed(t, Names.All.Build)
      && SlotWellFormed(t, Names.All.Ipfs);
  }

  /** `trans` holds, under each stage key, the wire form of that slot of `t`. */
  ghost predicate HoldsSlots(trans: Value, t: TransitionSlots)
  {
    forall n: Names.All ::
      Get(trans, n.Key()) == if t.Slot(n).Some? then EncodeAny(t.Slot(n).value) else Undefined
  }

  /** The wire form of the slots holds each slot's wire form. */
  lemma EncodedSlotsHeld(t: TransitionSlots)
    ensures HoldsSlots(EncodeTransitions(t), t)
  {
    forall n: Names.All
      ensures Get(EncodeTransitions(t), n.Key()) ==
              if t.Slot(n).Some? then EncodeAny(t.Slot(n).value) else Undefined
    {
      EncodedSlot(t, n);
    }
  }

  /** A slot holding a wire-form transition passes its key's check exactly when the typed slot is well formed. */
  lemma HeldSlotAccepted(trans: Value, t: TransitionSlots, n: Names.All)
    requires Get(trans, n.Key()) == if t.Slot(n).Some? then EncodeAny(t.Slot(n).value) else Undefined
    ensures (Truthy(Get(trans, n.Key())) ==> HasShape(Names.KindOf(n), Get(trans, n.Key())))
            <==> SlotWellFormed(t, n)
  {
    var s := t.Slot(n);
    if s.Some? {
      if s.value.AnyEns? {
        EncodedEnsAccepted(s.value.e);
      } else {
        EncodedShapeIsOwnShapeOnly(s.value, Names.KindOf(n));
      }
    }
  }

  /** Slots holding wire-form transitions pass the per-key checks exactly when every registry transition is well formed. */
  lemma HeldSlotsAccepted(trans: Value, t: TransitionSlots)
    requires HoldsSlots(trans, t)
    ensures SlotsAccepted(trans) <==> t.EnsWellFormed()
  {
    forall n: Names.All
      ensures (Truthy(Get(trans, n.Key())) ==> HasShape(Names.KindOf(n), Get(trans, n.Key())))
              <==> SlotWellFormed(t, n)
    {
      HeldSlotAccepted(trans, t, n);
    }
    WellFormedPerSlot(t);
  }

  /** The wire form of the slots passes the per-key checks exactly when every registry transition is well formed. */
  lemma EncodedSlotsAccepted(t: TransitionSlots)
    ensures SlotsAccepted(EncodeTransitions(t)) <==> t.EnsWellFormed()
  {
    EncodedSlotsHeld(t);
    HeldSlotsAccepted(EncodeTransitions(t), t);
  }

  /** The argument fields of any wire form hold strings under the seven keys. */
  lemma ArgsFieldsAreStrings(a: DeployArgs, k: string)
    requires k in ArgsKeys
    ensures k in ArgsFields(a) && ArgsFields(a)[k].Str?
  {
  }

  /** Each of the eleven required keys holds a string in the wire form of a record. */
  lemma EncodedItemKey(d: DeployItem, k: string)
    requires k in ArgsKeys + {"createdAt", "updatedAt", "username", "codepipelineName"}
    ensures IsString(Get(EncodeDeployItem(d), k))
  {
    if k in ArgsKeys {
      ArgsFieldsAreStrings(d.args, k);
    }
  }

  /** The argument fields never use the record's own `transitions` and `transitionError` keys. */
  lemma ArgsFieldsOmitRecordKeys(a: DeployArgs)
    ensures "transitions" !in ArgsFields(a) && "transitionError" !in ArgsFields(a)
  {
  }

  /** The wire form of a record carries its slots under `transitions` and an acceptable `transitionError`. */
  lemma EncodedItemParts(d: DeployItem)
    ensures Get(EncodeDeployItem(d), "transitions") == EncodeTransitions(d.transitions)
    ensures Get(EncodeDeployItem(d), "transitionError") ==
            if d.transitionError.Some? then EncodeTransitionError(d.transitionError.value) else Undefined
  {
    ArgsFieldsOmitRecordKeys(d.args);
  }

  /** The wire form of a record holds strings under the eleven required keys. */
  lemma EncodedItemStrings(d: DeployItem)
    ensures KeysAreStrings(EncodeDeployItem(d), ItemKeys())
  {
    ItemKeysAreEleven();
    forall k | k in ItemKeys()
      ensures IsString(Get(EncodeDeployItem(d), k))
    {
      EncodedItemKey(d, k);
    }
  }

  /** The wire form of a record has an absent or well-formed `transitionError`. */
  lemma EncodedErrorAccepted(d: DeployItem)
    ensures ErrorAccepted(Get(EncodeDeployItem(d), "transitionError"))
  {
    EncodedItemParts(d);
    if d.transitionError.Some? {
      IsNameExactly(Str(d.transitionError.value.transition.Key()));
    }
  }

  /**
   * Serialising a record gives a value `isDeployItem` accepts exactly when
   * every registry transition it holds is pending or confirmed.
   */
  lemma EncodedItemAccepted(d: DeployItem)
    ensures IsDeployItem(EncodeDeployItem(d)) <==> d.transitions.EnsWellFormed()
  {
    EncodedItemStrings(d);
    EncodedItemParts(d);
    EncodedErrorAccepted(d);
    EncodedSlotsAccepted(d.transitions);
    ItemDispatchesOnKey(EncodeDeployItem(d));
  }

  /**
   * `newDeployItem(now)`: state `FETCHING_SOURCE`, no transitions, no
   * failure, created and updated at `now`; its wire form passes
   * `isDeployItem`.
   */
  lemma NewDeployItemAccepted(now: string)
    ensures NewDeployItem(now).state == DeployStates.FetchingSource
    ensures NewDeployItem(now).transitions == NoTransitions
    ensures NewDeployItem(now).transitionError.None?
    ensures NewDeployItem(now).createdAt == now && NewDeployItem(now).updatedAt == now
    ensures IsDeployItem(EncodeDeployItem(NewDeployItem(now)))
  {
    var d := NewDeployItem(now);
    assert d.transitions.EnsWellFormed();
    EncodedItemAccepted(d);
  }

  /** A new record's state agrees with its (empty) transitions. */
  lemma NewDeployItemConsistent(now: string)
    ensures StateMatchesTransitions(NewDeployItem(now))
  {
    var d := NewDeployItem(now);
    forall n: Names.All
      ensures d.transitions.Slot(n).None? && DeployStates.Index(d.state) <= DeployStates.Index(StageState(n))
    {
    }
  }

  /**
   * The validator checks shape only: a record with state `AVAILABLE` and
   * empty `transitions` passes it although its state and transitions disagree.
   */
  lemma ShapeOnlyNotProgress(now: string)
    ensures var d := NewDeployItem(now).(state := DeployStates.Available);
            IsDeployItem(EncodeDeployItem(d)) && !StateMatchesTransitions(d)
  {
    var d := NewDeployItem(now).(state := DeployStates.Available);
    EncodedItemAccepted(d);
    assert d.transitions.Slot(Names.All.Source).None?;
  }

  /**
   * `isDeployItem` does not examine `envVars`: a record that passes it
   * passes `isDeployArgs` exactly when its `envVars` is falsy or a string
   * mapping, so one with `envVars: true` passes the first and fails the second.
   */
  lemma ItemAcceptsUncheckedEnvVars(v: Value)
    requires IsDeployItem(v)
    ensures IsDeployArgs(v) <==> (!Truthy(Get(v, "envVars")) || IsStringMapping(Get(v, "envVars")))
    ensures v.Object? && IsDeployItem(Object(v.fields["envVars" := Bool(true)]))
                      && !IsDeployArgs(Object(v.fields["envVars" := Bool(true)]))
  {
    ItemKeysAreEleven();
    assert KeysAreStrings(v, ArgsKeys);
    UnreadKeyIgnored(v, "envVars", Bool(true));
  }
}
