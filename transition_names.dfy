/**
 * `Transitions.Names`: the six stage keys of a deployment's `transitions`
 * record, and the shape family each key belongs to.
 */
module TransitionNames {

  /** `Names.All` */
  datatype All = Source | Build | Ipfs | EnsRegister | EnsSetResolver | EnsSetContent
  {
    /** The enum member's string value, used as the key in `transitions`. */
    function Key(): string
    {
      match this
      case Source => "source"
      case Build => "build"
      case Ipfs => "ipfs"
      case EnsRegister => "ensRegister"
      case EnsSetResolver => "ensSetResolver"
      case EnsSetContent => "ensSetContent"
    }
  }

  /** The three transition shapes. */
  datatype Kind = PipelineKind | IpfsKind | EnsKind

  /** The `Names.Pipeline`, `Names.Ipfs` and `Names.Ens` groupings. */
  function KindOf(n: All): Kind
  {
    match n
    case Source => PipelineKind
    case Build => PipelineKind
    case Ipfs => IpfsKind
    case EnsRegister => EnsKind
    case EnsSetResolver => EnsKind
    case EnsSetContent => EnsKind
  }

  /** `Object.values(Names.All)`, in declaration order. */
  const Values: seq<string> :=
    ["source", "build", "ipfs", "ensRegister", "ensSetResolver", "ensSetContent"]

  /** The six values are exactly the six members' keys. */
  lemma {:induction false} ValuesAreKeys(s: string)
    ensures s in Values <==> exists a: All :: a.Key() == s
  {
    if s in Values {
      var a :| a in [Source, Build, Ipfs, EnsRegister, EnsSetResolver, EnsSetContent] && a.Key() == s;
    }
  }

  /** No two members share a key. */
  lemma KeysDistinct(m: All, n: All)
    ensures m.Key() == n.Key() ==> m == n
  {
  }
}
