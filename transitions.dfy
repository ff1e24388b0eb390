/**
 * `Transitions`: the three transition shapes recorded when a pipeline stage
 * completes, their wire form, and the validators `isName`, `isPipeline`,
 * `isIpfs`, `isEns` and `isAny`.
 */
module Transitions {
  import opened Json
  import Names = TransitionNames

  /** `isName`: the value is one of the six stage-key strings. */
  predicate IsName(v: Value)
  {
    v.Str? && v.s in Names.Values
  }

  /** Pipeline transition (`source`, `build`): the artifact size in bytes. */
  datatype Pipeline = Pipeline(timestamp: string, size: int)

  /** Publish transition (`ipfs`): the content hash. */
  datatype Ipfs = Ipfs(timestamp: string, hash: string)

  /**
   * Registry transition (the three `ens*` keys): a submitted transaction,
   * with the optional `blockNumber` and `confirmationTimestamp` once confirmed.
   */
  datatype Ens = Ens(timestamp: string, txHash: string, nonce: int,
                     blockNumber: Option<int>, confirmationTimestamp: Option<string>)
  {
    /** Neither confirmation field is set to a truthy value. */
    predicate Pending()
    {
      && (blockNumber.None? || blockNumber == Some(0))
      && (confirmationTimestamp.None? || confirmationTimestamp == Some(""))
    }

    /** Both confirmation fields are set. */
    predicate Confirmed()
    {
      blockNumber.Some? && confirmationTimestamp.Some?
    }
  }

  /** `Transitions.Any` */
  datatype Any = AnyPipeline(p: Pipeline) | AnyIpfs(i: Ipfs) | AnyEns(e: Ens)
  {
    function Kind(): Names.Kind
    {
      match this
      case AnyPipeline(_) => Names.PipelineKind
      case AnyIpfs(_) => Names.IpfsKind
      case AnyEns(_) => Names.EnsKind
    }
  }

  function EncodePipeline(p: Pipeline): Value
  {
    Object(map["timestamp" := Str(p.timestamp), "size" := Number(p.size)])
  }

  function EncodeIpfs(i: Ipfs): Value
  {
    Object(map["timestamp" := Str(i.timestamp), "hash" := Str(i.hash)])
  }

  /** The optional fields appear only when they are set. */
  function EncodeEns(e: Ens): Value
  {
    var base := map["timestamp" := Str(e.timestamp), "txHash" := Str(e.txHash), "nonce" := Number(e.nonce)];
    var withBlock := if e.blockNumber.Some? then base["blockNumber" := Number(e.blockNumber.value)] else base;
    Object(if e.confirmationTimestamp.Some?
           then withBlock["confirmationTimestamp" := Str(e.confirmationTimestamp.value)]
           else withBlock)
  }

  function EncodeAny(t: Any): Value
  {
    match t
    case AnyPipeline(p) => EncodePipeline(p)
    case AnyIpfs(i) => EncodeIpfs(i)
    case AnyEns(e) => EncodeEns(e)
  }

  /** `isPipeline` */
  predicate IsPipeline(v: Value)
  {
    IsObject(v) && IsString(Get(v, "timestamp")) && IsNumber(Get(v, "size"))
  }

  /** `isIpfs` */
  predicate IsIpfs(v: Value)
  {
    IsObject(v) && IsString(Get(v, "timestamp")) && IsString(Get(v, "hash"))
  }

  /**
   * `isEns`: the base fields, and then if either confirmation field is
   * truthy both must be well typed.
   */
  predicate IsEns(v: Value)
  {
    var base := IsObject(v) && IsString(Get(v, "timestamp")) && IsString(Get(v, "txHash"))
                && IsNumber(Get(v, "nonce"));
    if !base then false
    else if (Truthy(Get(v, "blockNumber")) || Truthy(Get(v, "confirmationTimestamp")))
            && (!IsNumber(Get(v, "blockNumber")) || !IsString(Get(v, "confirmationTimestamp")))
    then false
    else true
  }

  /** `isAny` */
  predicate IsAny(v: Value)
  {
    IsPipeline(v) || IsIpfs(v) || IsEns(v)
  }

  /** The validator belonging to a shape family: how a `transitions` slot is checked. */
  predicate HasShape(k: Names.Kind, v: Value)
  {
    match k
    case PipelineKind => IsPipeline(v)
    case IpfsKind => IsIpfs(v)
    case EnsKind => IsEns(v)
  }

  /** `v` carries the wire form of `e`, and a confirmation field `e` omits is falsy in `v`. */
  ghost predicate CarriesEns(v: Value, e: Ens)
  {
    && Extends(v, EncodeEns(e))
    && (e.blockNumber.None? ==> !Truthy(Get(v, "blockNumber")))
    && (e.confirmationTimestamp.None? ==> !Truthy(Get(v, "confirmationTimestamp")))
  }

  /** `isName` accepts exactly the string values of the six stage keys. */
  lemma IsNameExactly(v: Value)
    ensures IsName(v) <==> exists n: Names.All :: v == Str(n.Key())
  {
    if v.Str? {
      Names.ValuesAreKeys(v.s);
    }
    if exists n: Names.All :: v == Str(n.Key()) {
      var n: Names.All :| v == Str(n.Key());
      Names.ValuesAreKeys(v.s);
    }
  }

  /** `isPipeline` accepts exactly the objects that hold the wire form of some pipeline transition. */
  lemma PipelineAcceptsExactly(v: Value)
    ensures IsPipeline(v) <==> exists p: Pipeline :: Extends(v, EncodePipeline(p))
  {
    if IsPipeline(v) {
      var p := Pipeline(Get(v, "timestamp").s, Get(v, "size").n);
      assert Extends(v, EncodePipeline(p));
    }
    if exists p: Pipeline :: Extends(v, EncodePipeline(p)) {
      var p: Pipeline :| Extends(v, EncodePipeline(p));
      assert "timestamp" in EncodePipeline(p).fields && "size" in EncodePipeline(p).fields;
    }
  }

  /** `isIpfs` accepts exactly the objects that hold the wire form of some publish transition. */
  lemma IpfsAcceptsExactly(v: Value)
    ensures IsIpfs(v) <==> exists i: Ipfs :: Extends(v, EncodeIpfs(i))
  {
    if IsIpfs(v) {
      var i := Ipfs(Get(v, "timestamp").s, Get(v, "hash").s);
      assert Extends(v, EncodeIpfs(i));
    }
    if exists i: Ipfs :: Extends(v, EncodeIpfs(i)) {
      var i: Ipfs :| Extends(v, EncodeIpfs(i));
      assert "timestamp" in EncodeIpfs(i).fields && "hash" in EncodeIpfs(i).fields;
    }
  }

  /** An accepted registry value carries a pending or confirmed transition read off its own fields. */
  lemma EnsAcceptedCarries(v: Value)
    requires IsEns(v)
    ensures exists e: Ens :: (e.Pending() || e.Confirmed()) && CarriesEns(v, e)
  {
    var bn, ct := Get(v, "blockNumber"), Get(v, "confirmationTimestamp");
    var e := Ens(Get(v, "timestamp").s, Get(v, "txHash").s, Get(v, "nonce").n,
                 if IsNumber(bn) then Some(bn.n) else None,
                 if IsString(ct) then Some(ct.s) else None);
    assert e.Pending() || e.Confirmed();
    assert Extends(v, EncodeEns(e));
  }

  /** A value carrying a pending or confirmed registry transition is accepted. */
  lemma CarriedEnsAccepted(v: Value, e: Ens)
    requires e.Pending() || e.Confirmed()
    requires CarriesEns(v, e)
    ensures IsEns(v)
  {
    var w := EncodeEns(e);
    assert "timestamp" in w.fields && "txHash" in w.fields && "nonce" in w.fields;
    assert e.blockNumber.Some? ==> "blockNumber" in w.fields;
    assert e.confirmationTimestamp.Some? ==> "confirmationTimestamp" in w.fields;
  }

  /**
   * The paired-optional rule: `isEns` accepts exactly the values that carry
   * a registry transition which is either pending (both confirmation fields
   * falsy) or confirmed (a number `blockNumber` and a string
   * `confirmationTimestamp`, either of which may itself be `0` or `''`).
   */
  lemma EnsAcceptsExactly(v: Value)
    ensures IsEns(v) <==> exists e: Ens :: (e.Pending() || e.Confirmed()) && CarriesEns(v, e)
  {
    if IsEns(v) {
      EnsAcceptedCarries(v);
    }
    if exists e: Ens :: (e.Pending() || e.Confirmed()) && CarriesEns(v, e) {
      var e: Ens :| (e.Pending() || e.Confirmed()) && CarriesEns(v, e);
      CarriedEnsAccepted(v, e);
    }
  }

  /** The wire form of a registry transition passes `isEns` exactly when it is pending or confirmed. */
  lemma EncodedEnsAccepted(e: Ens)
    ensures IsEns(EncodeEns(e)) <==> e.Pending() || e.Confirmed()
  {
  }

  /**
   * Concrete registry values: a bare `{timestamp, txHash, nonce}` is accepted
   * (pending), a lone non-zero `blockNumber` or a lone non-empty
   * `confirmationTimestamp` is rejected, a lone `blockNumber: 0` does not
   * trigger the pair check, and both fields well typed is accepted
   * (confirmed) even when one of them is the falsy `0` or `''`, so exactly
   * one truthy confirmation field can pass.
   */
  lemma EnsExamples(ts: string, tx: string, nonce: int, block: int, confirmed: string)
    ensures IsEns(Object(map["timestamp" := Str(ts), "txHash" := Str(tx), "nonce" := Number(nonce)]))
    ensures block != 0 ==>
      !IsEns(Object(map["timestamp" := Str(ts), "txHash" := Str(tx), "nonce" := Number(nonce),
                        "blockNumber" := Number(block)]))
    ensures confirmed != "" ==>
      !IsEns(Object(map["timestamp" := Str(ts), "txHash" := Str(tx), "nonce" := Number(nonce),
                        "confirmationTimestamp" := Str(confirmed)]))
    ensures IsEns(Object(map["timestamp" := Str(ts), "txHash" := Str(tx), "nonce" := Number(nonce),
                             "blockNumber" := Number(0)]))
    ensures IsEns(Object(map["timestamp" := Str(ts), "txHash" := Str(tx), "nonce" := Number(nonce),
                             "blockNumber" := Number(block), "confirmationTimestamp" := Str(confirmed)]))
    ensures IsEns(Object(map["timestamp" := Str(ts), "txHash" := Str(tx), "nonce" := Number(nonce),
                             "blockNumber" := Number(block), "confirmationTimestamp" := Str("")]))
    ensures IsEns(Object(map["timestamp" := Str(ts), "txHash" := Str(tx), "nonce" := Number(nonce),
                             "blockNumber" := Number(0), "confirmationTimestamp" := Str(confirmed)]))
  {
  }

  /** `v` carries the wire form of the typed transition `t` (a registry one pending or confirmed). */
  ghost predicate CarriesAny(v: Value, t: Any)
  {
    match t
    case AnyPipeline(p) => Extends(v, EncodePipeline(p))
    case AnyIpfs(i) => Extends(v, EncodeIpfs(i))
    case AnyEns(e) => (e.Pending() || e.Confirmed()) && CarriesEns(v, e)
  }

  /** `isAny` accepts exactly the values that carry some typed transition of the union. */
  lemma AnyAcceptsExactly(v: Value)
    ensures IsAny(v) <==> exists t: Any :: CarriesAny(v, t)
  {
    PipelineAcceptsExactly(v);
    IpfsAcceptsExactly(v);
    EnsAcceptsExactly(v);
    if IsPipeline(v) {
      var p: Pipeline :| Extends(v, EncodePipeline(p));
      assert CarriesAny(v, AnyPipeline(p));
    } else if IsIpfs(v) {
      var i: Ipfs :| Extends(v, EncodeIpfs(i));
      assert CarriesAny(v, AnyIpfs(i));
    } else if IsEns(v) {
      var e: Ens :| (e.Pending() || e.Confirmed()) && CarriesEns(v, e);
      assert CarriesAny(v, AnyEns(e));
    }
    if exists t: Any :: CarriesAny(v, t) {
      var t: Any :| CarriesAny(v, t);
      match t
      case AnyPipeline(p) =>
        assert Extends(v, EncodePipeline(p));
      case AnyIpfs(i) =>
        assert Extends(v, EncodeIpfs(i));
      case AnyEns(e) =>
        assert (e.Pending() || e.Confirmed()) && CarriesEns(v, e);
    }
  }

  /**
   * Every wire-form transition is rejected by the validators of the other
   * two shapes; it passes its own shape's validator and `isAny` (a
   * registry one when pending or confirmed).
   */
  lemma EncodedShapeIsOwnShapeOnly(t: Any, k: Names.Kind)
    ensures k != t.Kind() ==> !HasShape(k, EncodeAny(t))
    ensures (t.AnyEns? ==> t.e.Pending() || t.e.Confirmed()) ==>
              HasShape(t.Kind(), EncodeAny(t)) && IsAny(EncodeAny(t))
  {
  }
}
