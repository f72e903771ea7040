/**
 `HashIDModelConfig::forModel`: the older, read-only resolution of one
 parameter for a model instance, override first, then the global value,
 declared to return `string | int`.
 */
module HashIdModelConfig {
  import opened Optional
  import opened ConfigParameters
  import opened ConfigStore
  import Config

  /** `forModel(model, config)` for a model instance of class `cls`. */
  function ForModel(s: Store, cls: ClassName, config: string): (r: Result<Value>)
    ensures config !in RecognisedNames ==> r == Err(UnknownParameter(config))
    ensures r.Ok? ==> config in RecognisedNames
  {
    match Parse(config)
    case None => Err(UnknownParameter(config))
    case Some(p) =>
      match OverrideLookup(s, cls, p)
      case Err(e) => Err(e)
      case Ok(Some(v)) => Ok(v)
      case Ok(None) =>
        match Global(s, p)
        case Err(e) => Err(e)
        case Ok(Scalar(v)) => Ok(v)
        case Ok(Table(_)) => Err(NotScalar(p))
  }

  /** The `string | int` return type applied to what `Config::get` resolves:
      a scalar passes, an array is rejected. */
  function AsReturned(p: Parameter, r: Result<Entry>): Result<Value> {
    match r
    case Err(e) => Err(e)
    case Ok(Scalar(v)) => Ok(v)
    case Ok(Table(_)) => Err(NotScalar(p))
  }

  /** An existing override of `p` for the model's class is returned as is. */
  lemma ForModelPrefersOverride(s: Store, cls: ClassName, p: Parameter)
    requires HasOverride(s, cls, p)
    ensures ForModel(s, cls, Name(p)) == Ok(OverrideOf(s, cls, p))
  {
    ParseName(p);
  }

  /** Without an override, the global `hashids.<p>` is returned when it is a
      scalar; an unset or array-valued global is an error. */
  lemma ForModelFallsBackToGlobal(s: Store, cls: ClassName, p: Parameter)
    requires NoOverride(s, cls, p)
    ensures p in s.hashids && s.hashids[p].Scalar? ==> ForModel(s, cls, Name(p)) == Ok(s.hashids[p].value)
    ensures p in s.hashids && s.hashids[p].Table? ==> ForModel(s, cls, Name(p)) == Err(NotScalar(p))
    ensures p !in s.hashids ==> ForModel(s, cls, Name(p)) == Err(Unset(p))
  {
    ParseName(p);
  }

  /** `forModel` answers as `Config::get` does for the same instance on the
      same store, narrowed to its `string | int` return type. */
  lemma ForModelAgreesWithGet(s: Store, classes: set<ClassName>, cls: ClassName, p: Parameter)
    ensures ForModel(s, cls, Name(p)) == AsReturned(p, Config.Get(s, classes, Name(p), Some(Instance(cls))))
  {
    ParseName(p);
  }
}
