/**
 `Config::get` and `Config::set`: resolve a parameter for a model class from
 its override, falling back to the global value, and write either the global
 value or one class's override. Both validate the parameter name first, then
 the model class, then touch the store.
 */
module Config {
  import opened Optional
  import opened ConfigParameters
  import opened ConfigStore

  /** The parameter a recognised name denotes; any other name is rejected. */
  function IsParameterDefined(name: string): (r: Result<Parameter>)
    ensures r.Ok? <==> name in RecognisedNames
    ensures r.Ok? ==> Name(r.value) == name
    ensures r.Err? ==> r.error == UnknownParameter(name)
  {
    match Parse(name)
    case None => Err(UnknownParameter(name))
    case Some(p) => Ok(p)
  }

  /** A class-name string must name an existing class (`classes` stands for
      `class_exists`); a model instance always passes. */
  function IsModelClassExist(classes: set<ClassName>, model: ModelRef): (r: Check)
    ensures r.Fail? <==> model.ClassString? && model.name !in classes
    ensures r.Fail? ==> r.error == ModelNotFound(model.name)
  {
    match model
    case Instance(_) => Pass
    case ClassString(name) => if name in classes then Pass else Fail(ModelNotFound(name))
  }

  /** The class whose overrides apply: `get_class` of an instance, or the string itself. */
  function ClassNameOf(model: ModelRef): ClassName {
    match model
    case Instance(c) => c
    case ClassString(name) => name
  }

  /** `Config::get(parameter, model)`; `model == None` is PHP's `null`. */
  function Get(s: Store, classes: set<ClassName>, parameter: string, model: Option<ModelRef>): (r: Result<Entry>)
    ensures parameter !in RecognisedNames ==> r == Err(UnknownParameter(parameter))
    ensures (parameter in RecognisedNames && model.Some? && model.value.ClassString? && model.value.name !in classes)
              ==> r == Err(ModelNotFound(model.value.name))
    ensures r.Ok? ==> parameter in RecognisedNames
  {
    match IsParameterDefined(parameter)
    case Err(e) => Err(e)
    case Ok(p) =>
      match model
      case None => Global(s, p)
      case Some(m) =>
        match IsModelClassExist(classes, m)
        case Fail(e) => Err(e)
        case Pass =>
          match OverrideLookup(s, ClassNameOf(m), p)
          case Err(e) => Err(e)
          case Ok(Some(v)) => Ok(Scalar(v))
          case Ok(None) => Global(s, p)
  }

  /** `Config::set(parameter, value, model)`: the new store, or the error raised. */
  function Set(s: Store, classes: set<ClassName>, parameter: string, value: Value, model: Option<ModelRef>): (r: Result<Store>)
    ensures parameter !in RecognisedNames ==> r == Err(UnknownParameter(parameter))
    ensures (parameter in RecognisedNames && model.Some? && model.value.ClassString? && model.value.name !in classes)
              ==> r == Err(ModelNotFound(model.value.name))
    ensures parameter in RecognisedNames && model.None? ==> r.Ok?
    ensures (r.Err? && parameter in RecognisedNames && model.Some? && IsModelClassExist(classes, model.value).Pass?)
              ==> r.error == OverridesNotTable && Generators in s.hashids && s.hashids[Generators].Scalar?
  {
    match IsParameterDefined(parameter)
    case Err(e) => Err(e)
    case Ok(p) =>
      match model
      case None => Ok(Store(s.hashids[p := Scalar(value)]))
      case Some(m) =>
        match IsModelClassExist(classes, m)
        case Fail(e) => Err(e)
        case Pass =>
          match OverrideTable(s)
          case Err(e) => Err(e)
          case Ok(t) =>
            var c := ClassNameOf(m);
            var row := if c in t then t[c] else map[];
            Ok(Store(s.hashids[Generators := Table(t[c := row[p := value]])]))
  }

  // ---------------------------------------------------------------------------
  // Resolution order of `get`

  /** Without a model, `get` returns the global entry and fails only when it is unset. */
  lemma GetWithoutModel(s: Store, classes: set<ClassName>, p: Parameter)
    ensures p in s.hashids ==> Get(s, classes, Name(p), None) == Ok(s.hashids[p])
    ensures p !in s.hashids ==> Get(s, classes, Name(p), None) == Err(Unset(p))
  {
    ParseName(p);
  }

  /** Without a model, `get` ignores the override table: replacing it changes nothing. */
  lemma GetWithoutModelIgnoresOverrides(s: Store, classes: set<ClassName>, p: Parameter, table: Entry)
    requires p != Generators
    ensures Get(Store(s.hashids[Generators := table]), classes, Name(p), None) == Get(s, classes, Name(p), None)
  {
    ParseName(p);
  }

  /** With a model whose class has an override for `p`, `get` returns that override. */
  lemma GetPrefersOverride(s: Store, classes: set<ClassName>, p: Parameter, model: ModelRef)
    requires IsModelClassExist(classes, model).Pass?
    requires HasOverride(s, ClassNameOf(model), p)
    ensures Get(s, classes, Name(p), Some(model)) == Ok(Scalar(OverrideOf(s, ClassNameOf(model), p)))
  {
    ParseName(p);
  }

  /** With a model whose class has no override for `p`, `get` answers as it does without a model. */
  lemma GetFallsBackToGlobal(s: Store, classes: set<ClassName>, p: Parameter, model: ModelRef)
    requires IsModelClassExist(classes, model).Pass?
    requires NoOverride(s, ClassNameOf(model), p)
    ensures Get(s, classes, Name(p), Some(model)) == Get(s, classes, Name(p), None)
  {
    ParseName(p);
  }

  /** An override table replaced by a scalar: a truthy scalar makes every
      per-class `get` fail, a falsy one (which `Arr::has` rejects at once)
      makes it answer as `get` without a model. */
  lemma GetWithScalarTable(s: Store, classes: set<ClassName>, p: Parameter, model: ModelRef)
    requires IsModelClassExist(classes, model).Pass?
    requires Generators in s.hashids && s.hashids[Generators].Scalar?
    ensures !Falsy(s.hashids[Generators].value) ==> Get(s, classes, Name(p), Some(model)) == Err(OverridesNotTable)
    ensures Falsy(s.hashids[Generators].value) ==> Get(s, classes, Name(p), Some(model)) == Get(s, classes, Name(p), None)
  {
    ParseName(p);
  }

  /** A model instance and its class name, when that class exists, resolve and
      write identically. */
  lemma InstanceAndClassNameAgree(s: Store, classes: set<ClassName>, parameter: string, value: Value, c: ClassName)
    requires c in classes
    ensures Get(s, classes, parameter, Some(Instance(c))) == Get(s, classes, parameter, Some(ClassString(c)))
    ensures Set(s, classes, parameter, value, Some(Instance(c))) == Set(s, classes, parameter, value, Some(ClassString(c)))
  {
  }

  // ---------------------------------------------------------------------------
  // What `set` changes

  /** A global `set` stores `value` under `p` and leaves every other global
      entry, the override table included when `p` is not `generators`, as it was. */
  lemma SetGlobalFrame(s: Store, classes: set<ClassName>, p: Parameter, value: Value)
    ensures Set(s, classes, Name(p), value, None).Ok?
    ensures var s' := Set(s, classes, Name(p), value, None).value;
      && s'.hashids.Keys == s.hashids.Keys + {p}
      && s'.hashids[p] == Scalar(value)
      && (forall q :: q in s.hashids && q != p ==> s'.hashids[q] == s.hashids[q])
  {
    ParseName(p);
  }

  /** A per-class `set` stores `value` as class `c`'s override of `p`; every
      other override (other classes, other parameters of `c`) and every global
      entry other than the table itself are unchanged, and the table gains a
      row for `c` and no other. */
  lemma SetScopedFrame(s: Store, classes: set<ClassName>, p: Parameter, value: Value, model: ModelRef)
    requires IsModelClassExist(classes, model).Pass?
    requires OverridesIndexable(s)
    ensures Set(s, classes, Name(p), value, Some(model)).Ok?
    ensures var s' := Set(s, classes, Name(p), value, Some(model)).value;
      var c := ClassNameOf(model);
      && HasOverride(s', c, p)
      && OverrideOf(s', c, p) == value
      && (forall c', q :: (c' != c || q != p) ==>
            (HasOverride(s', c', q) <==> HasOverride(s, c', q)))
      && (forall c', q :: (c' != c || q != p) && HasOverride(s, c', q) ==>
            OverrideOf(s', c', q) == OverrideOf(s, c', q))
      && s'.hashids.Keys == s.hashids.Keys + {Generators}
      && (forall q :: q in s.hashids && q != Generators ==> s'.hashids[q] == s.hashids[q])
      && s'.hashids[Generators].Table?
      && s'.hashids[Generators].overrides.Keys == OverrideTable(s).value.Keys + {c}
      && (forall c' :: c' in OverrideTable(s).value && c' != c ==>
            s'.hashids[Generators].overrides[c'] == OverrideTable(s).value[c'])
  {
    ParseName(p);
  }

  // ---------------------------------------------------------------------------
  // Get after set

  /** After a per-class `set`, `get` for that model returns the value written. */
  lemma GetAfterScopedSet(s: Store, classes: set<ClassName>, parameter: string, value: Value, model: ModelRef)
    requires Set(s, classes, parameter, value, Some(model)).Ok?
    ensures Get(Set(s, classes, parameter, value, Some(model)).value, classes, parameter, Some(model)) == Ok(Scalar(value))
  {
  }

  /** After a global `set` of `p` (not the table itself), `get` for a model
      returns the value written exactly when a read of the table works and
      finds no override of `p` for the model's class (or one equal to it); an
      existing override still wins, and an unreadable table still fails. */
  lemma GetAfterGlobalSet(s: Store, classes: set<ClassName>, p: Parameter, value: Value, model: ModelRef)
    requires p != Generators
    requires IsModelClassExist(classes, model).Pass?
    ensures var s' := Set(s, classes, Name(p), value, None).value;
      && (!OverridesReadable(s) ==> Get(s', classes, Name(p), Some(model)) == Err(OverridesNotTable))
      && (HasOverride(s, ClassNameOf(model), p) ==>
            Get(s', classes, Name(p), Some(model)) == Ok(Scalar(OverrideOf(s, ClassNameOf(model), p))))
      && (OverridesReadable(s) && !HasOverride(s, ClassNameOf(model), p) ==>
            Get(s', classes, Name(p), Some(model)) == Ok(Scalar(value)))
      && (Get(s', classes, Name(p), Some(model)) == Ok(Scalar(value)) <==>
            OverridesReadable(s) && (!HasOverride(s, ClassNameOf(model), p) || OverrideOf(s, ClassNameOf(model), p) == value))
  {
    ParseName(p);
  }

  /** A global `set` of `generators` replaces the override table by a scalar:
      afterwards every per-class `set` fails, and every per-class `get` fails
      for a truthy scalar and answers as `get` without a model for a falsy one. */
  lemma GlobalSetOfGeneratorsDisablesOverrides(s: Store, classes: set<ClassName>, value: Value,
                                               p: Parameter, v: Value, model: ModelRef)
    requires IsModelClassExist(classes, model).Pass?
    ensures var s' := Set(s, classes, Name(Generators), value, None).value;
      && Set(s', classes, Name(p), v, Some(model)) == Err(OverridesNotTable)
      && (!Falsy(value) ==> Get(s', classes, Name(p), Some(model)) == Err(OverridesNotTable))
      && (Falsy(value) ==> Get(s', classes, Name(p), Some(model)) == Get(s', classes, Name(p), None))
  {
    ParseName(Generators);
    ParseName(p);
  }

  /** A global `set` of `p` leaves what `get` resolves for any other
      parameter `q`, with or without a model, unchanged, unless `p` is
      `generators`, the table itself. */
  lemma GlobalSetIsolation(s: Store, classes: set<ClassName>, parameter: string, value: Value,
                           other: Option<ModelRef>, q: Parameter)
    requires Set(s, classes, parameter, value, None).Ok?
    requires parameter != Name(q) && parameter != Name(Generators)
    ensures Get(Set(s, classes, parameter, value, None).value, classes, Name(q), other)
         == Get(s, classes, Name(q), other)
  {
    var p := IsParameterDefined(parameter).value;
    SetGlobalFrame(s, classes, p, value);
    var s' := Set(s, classes, parameter, value, None).value;
    GetWithoutModel(s, classes, q);
    GetWithoutModel(s', classes, q);
    if other.Some? && IsModelClassExist(classes, other.value).Pass? {
      var c' := ClassNameOf(other.value);
      if Generators in s.hashids && s.hashids[Generators].Scalar? {
        GetWithScalarTable(s, classes, q, other.value);
        GetWithScalarTable(s', classes, q, other.value);
      } else if HasOverride(s, c', q) {
        GetPrefersOverride(s, classes, q, other.value);
        GetPrefersOverride(s', classes, q, other.value);
      } else {
        GetFallsBackToGlobal(s, classes, q, other.value);
        GetFallsBackToGlobal(s', classes, q, other.value);
      }
    }
  }

  /** Per-class isolation: a per-class `set` does not change what `get`
      resolves for any other class, or for any other parameter of the same
      class, nor any global value (`generators` excepted, whose global value is
      the table being written). */
  lemma ScopedSetIsolation(s: Store, classes: set<ClassName>, parameter: string, value: Value,
                           model: ModelRef, other: Option<ModelRef>, q: Parameter)
    requires Set(s, classes, parameter, value, Some(model)).Ok?
    requires q != Generators
    requires other.None? || ClassNameOf(other.value) != ClassNameOf(model) || Name(q) != parameter
    ensures Get(Set(s, classes, parameter, value, Some(model)).value, classes, Name(q), other)
         == Get(s, classes, Name(q), other)
  {
    var p := IsParameterDefined(parameter).value;
    SetScopedFrame(s, classes, p, value, model);
    var s' := Set(s, classes, parameter, value, Some(model)).value;
    GetWithoutModel(s, classes, q);
    GetWithoutModel(s', classes, q);
    if other.Some? && IsModelClassExist(classes, other.value).Pass? {
      var c' := ClassNameOf(other.value);
      if HasOverride(s, c', q) {
        GetPrefersOverride(s, classes, q, other.value);
        GetPrefersOverride(s', classes, q, other.value);
      } else {
        GetFallsBackToGlobal(s, classes, q, other.value);
        GetFallsBackToGlobal(s', classes, q, other.value);
      }
    }
  }
}
