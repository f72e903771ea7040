# Configuration resolution of laravel-model-hashid

laravel-model-hashid gives Eloquent models hash IDs such as `MOD_x7Ka2`: a
prefix built from the class name, a separator, and the key encoded with
Hashids. Each of these depends on configuration parameters: salt, length,
alphabet, prefix length, prefix case and separator. A parameter can be set
globally under `hashids.<parameter>`. It can also be overridden for one model
class in the table `hashids.generators[<class>][<parameter>]`.

This project models the layer that reads and writes those parameters:

- `Config::get` resolves a parameter for an optional model. It uses the
  class's override when there is one and the global value otherwise.
- `Config::set` writes the global value, or one class's override.
- `Config::isParameterDefined` rejects names outside the recognised set.
- `Config::isModelClassExist` rejects class-name strings that name no class.
- `HashIDModelConfig::forModel` is the older, read-only version of the same
  resolution. It hard-codes the list of recognised names.

The model is functional:

- The `hashids` subtree is an immutable map from `Parameter` to `Entry`. An
  entry is a scalar (`string | int`) or, for `generators`, the override table
  `map<ClassName, map<Parameter, Value>>`.
- `get` and `set` are pure functions. `get` returns a `Result<Entry>`. `set`
  returns a `Result<Store>`, the new state.
- Exceptions are `Err` variants of one `ConfigError` datatype.
- `classes` is the set of strings `class_exists` accepts, passed in as a
  parameter.
- A model argument is `Instance(cls)`, for a model object whose class is
  `cls`, or `ClassString(name)`, for a class-name string. A `null` model is
  `None`.

Files:

- `optional.dfy`: the `Option` type.
- `parameters.dfy`: the recognised parameters, their names, and the strict
  name check.
- `store.dfy`: values, the store, error kinds and override lookup.
- `config.dfy`: `Config::get`, `Config::set` and the two checks, with the
  lemmas about resolution order and about what `set` changes.
- `model_config.dfy`: `HashIDModelConfig::forModel`, and how it relates to
  `Config::get`.
- `set_sequences.dfy`: runs of `set` calls. These are what a test's arrange
  step performs. The file ends with the eight per-class writes of the test
  "it can generate model hash ids with different configurations".

`generators` is one of the recognised names, and the model handles it
explicitly:

- `get('generators')` with no model returns the whole override table.
- `set('generators', v)` with no model replaces the table with the scalar
  `v`. After that, every per-class `set` fails, because PHP cannot assign
  into a scalar (`OverridesNotTable`).
- A per-class read of a scalar table depends on the scalar. `Arr::has`
  answers false at once for a falsy value (`""`, `"0"`, `0`), so `get` and
  `forModel` fall back to the global value. Any other scalar cannot be
  indexed, and the read fails with `OverridesNotTable`.
- An unset table reads as "no override". A per-class write creates it, as
  PHP's assignment into `null` does.

Three facts about the code that the model keeps:

- `set` checks the class as `get` does (src/Support/Config.php:56), so it
  rejects a class-name string that names no class.
- No parameter value is validated when it is written
  (src/Support/Config.php:51, 62). An unknown prefix case, or a separator
  that overlaps the alphabet, is stored as given.
- `get` on an unset global value is an error (`Unset`): the declared return
  type `string | int | array` (src/Support/Config.php:20) rejects `null`.

## Model

| member | source | states |
|---|---|---|
| ConfigParameters.Parse | src/Support/HashIDModelConfig.php:16-24 | a name is recognised exactly when it equals one of the seven listed names (strict comparison, no folding); the parameter it yields has that name |
| ConfigParameters.ParseName | src/Support/HashIDModelConfig.php:16-24 | every parameter's own name is recognised and denotes that parameter |
| ConfigParameters.NameInjective | src/Support/HashIDModelConfig.php:16-24 | no two parameters share a name |
| Config.IsParameterDefined | src/Support/Config.php:72-77 | passes exactly for the recognised names and yields the parameter so named; any other name fails with UnknownParameter carrying that name |
| Config.IsModelClassExist | src/Support/Config.php:84-89 | fails exactly when the model is a class-name string outside the known classes, with ModelNotFound for that name; a model instance always passes |
| Config.Get | src/Support/Config.php:20-39 | an unrecognised name fails with UnknownParameter whatever the model, so the name check comes before the class check; a recognised name with an unknown class string fails with ModelNotFound; success implies a recognised name |
| Config.Set | src/Support/Config.php:46-65 | the same two errors in the same order as `get`; a global write of a recognised name always succeeds; a per-class write for an existing class fails only when `generators` holds a scalar |
| Config.GetWithoutModel | src/Support/Config.php:24-26 | with no model, `get(p)` returns the global entry of `p`, or Unset when there is none |
| Config.GetWithoutModelIgnoresOverrides | src/Support/Config.php:24-26 | with no model, replacing the override table changes nothing that `get(p)` returns, for any `p` other than `generators` |
| Config.GetPrefersOverride | src/Support/Config.php:33-35 | when the model's class has an override of `p`, `get(p, m)` returns that override |
| Config.GetFallsBackToGlobal | src/Support/Config.php:37-38 | when the read finds no override of `p` for the model's class (the table is unset, holds a falsy scalar, or lacks the entry), `get(p, m)` answers as `get(p)` does |
| Config.GetWithScalarTable | src/Support/Config.php:33-34 | when `generators` holds a scalar, a per-class `get` for an existing class fails with OverridesNotTable if the scalar is truthy, and answers as `get(p)` does if it is falsy |
| Config.InstanceAndClassNameAgree | src/Support/Config.php:28-58 | for an existing class, a model instance and its class-name string give the same `get` result and the same `set` result |
| Config.SetGlobalFrame | src/Support/Config.php:50-54 | a global `set(p, v)` succeeds, stores `v` under `p`, adds no key but `p`, and leaves every other global entry, the override table included, unchanged |
| Config.SetScopedFrame | src/Support/Config.php:56-64 | a per-class `set(p, v, m)` on an unset table or a table succeeds and stores `v` as the class's override of `p`; every other (class, parameter) override keeps both its presence and its value; the table's rows are the old rows plus one for the class, every other row unchanged; no global entry but the table changes |
| Config.GetAfterScopedSet | src/Support/Config.php:33-64 | after a successful `set(p, v, m)`, `get(p, m)` returns `v` |
| Config.GetAfterGlobalSet | src/Support/Config.php:33-51 | for `p` other than `generators`, after `set(p, v)`, `get(p, m)` returns the class's override when there is one, fails with OverridesNotTable when the table is a truthy scalar, and returns `v` otherwise; it returns `v` exactly when the table is readable and has no override or one equal to `v` |
| Config.GlobalSetOfGeneratorsDisablesOverrides | src/Support/Config.php:33-62 | after a global `set('generators', v)`, every per-class `set` fails with OverridesNotTable; every per-class `get` fails the same way when `v` is truthy, and answers as `get` without a model when `v` is falsy |
| Config.GlobalSetIsolation | src/Support/Config.php:50-54 | a successful global `set(p, v)` of a parameter other than `generators` leaves what `get(q, o)` returns unchanged for every other parameter `q` and every model `o`, or none |
| Config.ScopedSetIsolation | src/Support/Config.php:60-64 | a per-class `set(p, v, m)` leaves what `get(q, o)` returns unchanged for every global read, for every other class, and for every other parameter of the same class (`generators` excepted) |
| HashIdModelConfig.ForModel | src/Support/HashIDModelConfig.php:14-33 | a name outside the seven listed fails with UnknownParameter before any lookup; a returned value implies a recognised name |
| HashIdModelConfig.ForModelPrefersOverride | src/Support/HashIDModelConfig.php:28-30 | an existing override of the parameter for the model's class is returned |
| HashIdModelConfig.ForModelFallsBackToGlobal | src/Support/HashIDModelConfig.php:32 | when the read finds no override (unset table, falsy scalar table, or no entry), a scalar global `hashids.<config>` is returned; an array global fails the `string | int` return type (NotScalar); an unset global fails (Unset) |
| HashIdModelConfig.ForModelAgreesWithGet | src/Support/HashIDModelConfig.php:28-32 | for every recognised parameter and every state, `forModel` on an instance returns what `Config::get` returns for that instance, narrowed to `string | int` |
| SetSequences.ApplySets | tests/Support/ModelHashIdGeneratorTest.php:254-262 | a run of `set` calls succeeds only if every name in it is recognised; a run of global writes of recognised names always succeeds |
| SetSequences.UnrelatedSetsPreserveGet | src/Support/Config.php:50-64 | for `q` other than `generators`: a successful run in which no per-class write is to `q` for the class of `o`, and no global write is to `q` or to `generators`, leaves `get(q, o)` as it was |
| SetSequences.OverrideSurvives | src/Support/Config.php:50-64 | a class's override of `p` keeps its value through a successful run with no per-class write of that entry and no global write of `generators` |
| SetSequences.LatestScopedWriteWins | src/Support/Config.php:33-64 | after a successful run, `get(p, m)` returns the value of a per-class write of `p` for the class of `m`, for any `p`, provided no later call writes that same entry or writes `generators` globally; later global writes of other parameters, `p` included, do not change the result |
| SetSequences.ScopedSetsSucceed | src/Support/Config.php:56-64 | a run of per-class writes of recognised names for existing classes on an indexable table succeeds and leaves the table indexable |
| SetSequences.BlockSucceeds | tests/Support/ModelHashIdGeneratorTest.php:254-257 | one class's block of writes succeeds for an existing class and leaves the table indexable |
| SetSequences.BlockResolves | tests/Support/ModelHashIdGeneratorTest.php:254-257 | after a successful block, the class resolves each parameter the block writes, `generators` included, to the last value the block wrote for it |
| SetSequences.BlockPreservesOtherClasses | tests/Support/ModelHashIdGeneratorTest.php:259-262 | a block for one class leaves what `get(q, o)` returns unchanged for every other class `o` and every parameter `q` other than `generators` |
| SetSequences.ClassWritesResolve | tests/Support/ModelHashIdGeneratorTest.php:254-257 | after a block writing separator, length, prefix case and prefix length, the class resolves each of the four to the value written |
| SetSequences.DifferentConfigurationsResolvePerClass | tests/Support/ModelHashIdGeneratorTest.php:254-283 | from any state with an indexable table, the test's eight writes succeed; afterwards instances of ModelA and ModelB each resolve to their own class's four values (`_`, 5, `upper`, 3 and `#`, 10, `lower`, 4), whatever the global values are |

## Left out

- The Laravel `Config` facade and `Arr::has` dotted-path storage: the
  `hashids` subtree is a plain map keyed by parameter.
- Values the configuration file could hold but `set` cannot write: `null`,
  `bool`, `float`, or arrays inside a class row (in PHP, an explicit `null`
  override makes `get` fail its return type). Row keys that are not
  recognised parameter names, and table keys that contain a `.` (which
  `Arr::has` would read as a path), are not representable either. Nor is a
  class row that is itself a scalar or `null`: on read `Arr::has` falls back
  to the global value for such a row; on write a `null` row becomes an
  array and a scalar row raises an error.
- `ModelNotFound(name)` carries the class name for the reader;
  `new ModelNotFoundException()` (src/Support/Config.php:87) carries none.
- Class names are abstract strings. `classes` holds the strings
  `class_exists` accepts; PHP class names are case-insensitive, so it may
  hold several spellings of one class, and `get` and `set` use the string
  as given as the table key. `get_class` of an instance is the class
  recorded in `Instance`.
- Exception messages: `UnknownHashIdConfigParameterException` only formats
  text. `forModel`'s `RuntimeException` and that exception are the same
  `UnknownParameter` variant.
- The `ConfigParameters` class is not part of this model. The recognised
  list is the one `forModel` hard-codes, and both `Config` and `forModel`
  use it.
- HashIdModelConfig.ForModel: that `forModel` is read-only holds by
  construction, because it is a pure function of the store. No contract
  states it.
- Config.ScopedSetIsolation: the `generators` parameter is excluded.
  Reading it returns the table that the write just changed.
- SetSequences.UnrelatedSetsPreserveGet: the `generators` parameter is excluded, for the
  same reason.
- SetSequences.BlockPreservesOtherClasses: the `generators` parameter is excluded, for
  the same reason.
- The test whose arrange step `set_sequences.dfy` replays calls
  `HashIdModelConfig::set` with `HashIdModelConfig` constants; that class
  is not part of this model. Its `set` is taken to be `Config::set`, and its
  constants the seven recognised names.
- Hashids encoding and decoding: an external library.
- `ModelHashIdGenerator`: prefix building, case transforms and hash-ID
  parsing. Its source is not part of this model.
- Eloquent lookups by hash ID: database I/O.
- Concurrency: `set` mutates process-wide state. The model has one
  sequential store.
