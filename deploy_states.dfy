/**
 * The lifecycle of a deployment: the `DeployStates` enum and the
 * `nextDeployState` lookup table.
 */
module DeployStates {

  /** The eight lifecycle states, in declaration order. */
  datatype DeployState =
    | FetchingSource
    | BuildingSource
    | DeployingIpfs
    | RegisteringEns
    | SettingResolverEns
    | SettingContentEns
    | Propagating
    | Available
  {
    /** The enum member's string value, as stored in a record's `state` field. */
    function Name(): string
    {
      match this
      case FetchingSource => "FETCHING_SOURCE"
      case BuildingSource => "BUILDING_SOURCE"
      case DeployingIpfs => "DEPLOYING_IPFS"
      case RegisteringEns => "REGISTERING_ENS"
      case SettingResolverEns => "SETTING_RESOLVER_ENS"
      case SettingContentEns => "SETTING_CONTENT_ENS"
      case Propagating => "PROPAGATING"
      case Available => "AVAILABLE"
    }
  }

  /** Every state, in the order the enum declares them. */
  const Declared: seq<DeployState> :=
    [FetchingSource, BuildingSource, DeployingIpfs, RegisteringEns,
     SettingResolverEns, SettingContentEns, Propagating, Available]

  /** Position of the terminal state. */
  const Last: nat := 7

  /** The position of `s` in declaration order. */
  function Index(s: DeployState): (i: nat)
    ensures i < |Declared| && Declared[i] == s
    ensures i == Last <==> s == Available
  {
    match s
    case FetchingSource => 0
    case BuildingSource => 1
    case DeployingIpfs => 2
    case RegisteringEns => 3
    case SettingResolverEns => 4
    case SettingContentEns => 5
    case Propagating => 6
    case Available => 7
  }

  /** `nextDeployState[s]`: the following state; `AVAILABLE` maps to itself. */
  function Next(s: DeployState): (r: DeployState)
    ensures s == Available ==> r == Available
    ensures s != Available ==> Index(r) == Index(s) + 1
  {
    match s
    case FetchingSource => BuildingSource
    case BuildingSource => DeployingIpfs
    case DeployingIpfs => RegisteringEns
    case RegisteringEns => SettingResolverEns
    case SettingResolverEns => SettingContentEns
    case SettingContentEns => Propagating
    case Propagating => Available
    case Available => Available
  }

  /** `k` successive applications of `Next`. */
  function Advance(s: DeployState, k: nat): DeployState
    decreases k
  {
    if k == 0 then s else Advance(Next(s), k - 1)
  }

  function Min(a: int, b: int): int
  {
    if a <= b then a else b
  }

  /** Each state occurs once in the declared order. */
  lemma DeclaredOnce()
    ensures |Declared| == Last + 1
    ensures forall i, j :: 0 <= i < j < |Declared| ==> Declared[i] != Declared[j]
  {
  }

  /** No two states share a string value. */
  lemma NamesDistinct(s: DeployState, t: DeployState)
    ensures s.Name() == t.Name() ==> s == t
  {
  }

  /** `AVAILABLE` is the one and only fixed point of the table. */
  lemma OnlyFixedPointIsAvailable(s: DeployState)
    ensures Next(s) == s <==> s == Available
  {
  }

  /** `k` steps move `k` places forward in declaration order, stopping at `AVAILABLE`. */
  lemma {:induction false} AdvanceIndex(s: DeployState, k: nat)
    ensures Index(Advance(s, k)) == Min(Index(s) + k, Last)
    decreases k
  {
    if k > 0 {
      AdvanceIndex(Next(s), k - 1);
    }
  }

  /**
   * From `FETCHING_SOURCE`, the i-th step reaches the i-th declared state,
   * so seven steps visit every state once and end at `AVAILABLE`, and every
   * further step stays there.
   */
  lemma RunFromFetchingSource(k: nat)
    ensures forall i :: 0 <= i < |Declared| ==> Advance(FetchingSource, i) == Declared[i]
    ensures Advance(FetchingSource, Last) == Available
    ensures k >= Last ==> Advance(FetchingSource, k) == Available
  {
    forall i | 0 <= i < |Declared|
      ensures Advance(FetchingSource, i) == Declared[i]
    {
      AdvanceIndex(FetchingSource, i);
      var t := Advance(FetchingSource, i);
      assert Declared[Index(t)] == t;
    }
    AdvanceIndex(FetchingSource, k);
  }
}
