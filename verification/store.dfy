/**
 The state the configuration layer reads and writes: the `hashids` subtree of
 the application configuration, with the `generators` entry holding the
 per-class override table. Also the error kinds and the result type shared by
 `Config` and `HashIDModelConfig`.
 */
module ConfigStore {
  import opened Optional
  import opened ConfigParameters

  /** A fully qualified model class name. */
  type ClassName = string

  /** A configuration value as `set` accepts it: PHP `string | int`. */
  datatype Value = Str(s: string) | Int(i: int)

  /** One class's overrides, and the table of all of them. */
  type ClassOverrides = map<Parameter, Value>
  type Overrides = map<ClassName, ClassOverrides>

  /** What is stored under `hashids.<parameter>`: a scalar, or (normally only
      for `generators`) the override table. */
  datatype Entry = Scalar(value: Value) | Table(overrides: Overrides)

  /** The `hashids` configuration subtree; a parameter missing from the map is unset. */
  datatype Store = Store(hashids: map<Parameter, Entry>)

  /** The `$model` argument when it is not `null`: a model instance (whose
      class is `cls`) or a class-name string. */
  datatype ModelRef = Instance(cls: ClassName) | ClassString(name: string)

  datatype ConfigError =
    | UnknownParameter(name: string)     // the name is not a recognised parameter
    | ModelNotFound(name: string)        // a class-name string naming no existing class
    | Unset(parameter: Parameter)        // the global value is null, which the declared return type rejects
    | NotScalar(parameter: Parameter)    // an array where the declared return type is `string | int`
    | OverridesNotTable                  // `hashids.generators` holds a scalar, so it cannot be indexed

  datatype Result<+T> = Ok(value: T) | Err(error: ConfigError)

  /** A check that either passes or raises an error. */
  datatype Check = Pass | Fail(error: ConfigError)

  /** The global value of `p`. */
  function Global(s: Store, p: Parameter): Result<Entry>
  {
    if p in s.hashids then Ok(s.hashids[p]) else Err(Unset(p))
  }

  /** The override table as a write sees it: an unset `generators` entry
      reads as `null`, which assignment into turns into an empty array; no
      scalar can be assigned into. */
  function OverrideTable(s: Store): Result<Overrides>
  {
    if Generators !in s.hashids then Ok(map[])
    else match s.hashids[Generators]
      case Table(t) => Ok(t)
      case Scalar(_) => Err(OverridesNotTable)
  }

  /** PHP's falsy `string | int` values: `""`, `"0"` and `0`. */
  predicate Falsy(v: Value) {
    v == Str("") || v == Str("0") || v == Int(0)
  }

  /** The override of `p` for class `c`, if the table has one, as a read
      sees it through `Arr::has`: an unset table, a falsy scalar and a table
      without the entry all hold nothing; any other scalar cannot be indexed. */
  function OverrideLookup(s: Store, c: ClassName, p: Parameter): Result<Option<Value>>
  {
    if Generators !in s.hashids then Ok(None)
    else match s.hashids[Generators]
      case Table(t) => if c in t && p in t[c] then Ok(Some(t[c][p])) else Ok(None)
      case Scalar(v) => if Falsy(v) then Ok(None) else Err(OverridesNotTable)
  }

  /** Class `c` has an override for `p`: the table exists, has a row for `c`,
      and that row has an entry for `p`. */
  ghost predicate HasOverride(s: Store, c: ClassName, p: Parameter) {
    && Generators in s.hashids
    && s.hashids[Generators].Table?
    && c in s.hashids[Generators].overrides
    && p in s.hashids[Generators].overrides[c]
  }

  /** A read finds nothing for `c` and `p`: `generators` is unset, holds a
      falsy scalar, or is a table without that entry. */
  ghost predicate NoOverride(s: Store, c: ClassName, p: Parameter) {
    || Generators !in s.hashids
    || (s.hashids[Generators].Scalar? && Falsy(s.hashids[Generators].value))
    || (s.hashids[Generators].Table? && !HasOverride(s, c, p))
  }

  /** The override `HasOverride` finds. */
  ghost function OverrideOf(s: Store, c: ClassName, p: Parameter): Value
    requires HasOverride(s, c, p)
  {
    s.hashids[Generators].overrides[c][p]
  }

  /** The override table can be read: `generators` is unset, a table, or a
      falsy scalar. */
  predicate OverridesReadable(s: Store) {
    !(Generators in s.hashids && s.hashids[Generators].Scalar? && !Falsy(s.hashids[Generators].value))
  }

  /** The override table can be written into: `generators` is unset or holds a table. */
  predicate OverridesIndexable(s: Store) {
    !(Generators in s.hashids && s.hashids[Generators].Scalar?)
  }
}
