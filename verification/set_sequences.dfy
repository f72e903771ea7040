/**
 Sequences of `Config::set` calls, as a test's arrange step performs them, and
 what a sequence of per-class writes leaves untouched.
 */
module SetSequences {
  import opened Optional
  import opened ConfigParameters
  import opened ConfigStore
  import opened Config

  /** The arguments of one `Config::set` call. */
  datatype SetCall = SetCall(parameter: string, value: Value, model: Option<ModelRef>)

  /** The calls in order, stopping at the first one that raises. */
  function ApplySets(s: Store, classes: set<ClassName>, calls: seq<SetCall>): (r: Result<Store>)
    ensures r.Ok? ==> forall i :: 0 <= i < |calls| ==> IsParameterDefined(calls[i].parameter).Ok?
    ensures (forall i :: 0 <= i < |calls| ==> IsParameterDefined(calls[i].parameter).Ok? && calls[i].model.None?)
              ==> r.Ok?
    decreases |calls|
  {
    if |calls| == 0 then Ok(s)
    else
      match Set(s, classes, calls[0].parameter, calls[0].value, calls[0].model)
      case Err(e) => Err(e)
      case Ok(s1) => ApplySets(s1, classes, calls[1..])
  }

  /** A successful run is its first call followed by the run of the rest. */
  lemma ApplySetsStep(s: Store, classes: set<ClassName>, calls: seq<SetCall>)
    requires |calls| > 0 && ApplySets(s, classes, calls).Ok?
    ensures Set(s, classes, calls[0].parameter, calls[0].value, calls[0].model).Ok?
    ensures ApplySets(s, classes, calls)
         == ApplySets(Set(s, classes, calls[0].parameter, calls[0].value, calls[0].model).value, classes, calls[1..])
  {
  }

  /** Whether a call cannot change what `get` resolves for parameter `q`
      and model `other`: a global write of neither `q` nor the table, or a
      per-class write of another class or another parameter. */
  predicate Unrelated(call: SetCall, other: Option<ModelRef>, q: Parameter) {
    match call.model
    case None => Parse(call.parameter) != Some(q) && Parse(call.parameter) != Some(Generators)
    case Some(m) => other.None? || ClassNameOf(m) != ClassNameOf(other.value) || Parse(call.parameter) != Some(q)
  }

  /** A run of writes, each unrelated to `q` and `other`, leaves what `get`
      resolves for them as it was (`generators` excepted, whose global value
      is the table the per-class writes change). */
  lemma {:induction false} UnrelatedSetsPreserveGet(s: Store, classes: set<ClassName>, calls: seq<SetCall>,
                                                    other: Option<ModelRef>, q: Parameter)
    requires ApplySets(s, classes, calls).Ok?
    requires q != Generators
    requires forall i :: 0 <= i < |calls| ==> Unrelated(calls[i], other, q)
    ensures Get(ApplySets(s, classes, calls).value, classes, Name(q), other) == Get(s, classes, Name(q), other)
    decreases |calls|
  {
    if |calls| > 0 {
      ApplySetsStep(s, classes, calls);
      var c := calls[0];
      var s1 := Set(s, classes, c.parameter, c.value, c.model).value;
      ParseName(q);
      ParseName(Generators);
      if c.model.Some? {
        ScopedSetIsolation(s, classes, c.parameter, c.value, c.model.value, other, q);
      } else {
        GlobalSetIsolation(s, classes, c.parameter, c.value, other, q);
      }
      assert forall i :: 0 <= i < |calls[1..]| ==> Unrelated(calls[1..][i], other, q) by {
        forall i | 0 <= i < |calls[1..]| ensures Unrelated(calls[1..][i], other, q) {
          assert calls[1..][i] == calls[i + 1];
        }
      }
      UnrelatedSetsPreserveGet(s1, classes, calls[1..], other, q);
    }
  }

  /** Whether a call leaves class `c`'s override of `p` in place: a global
      write of anything but the table, or a per-class write of another class
      or another parameter. */
  predicate KeepsOverride(call: SetCall, c: ClassName, p: Parameter) {
    match call.model
    case None => Parse(call.parameter) != Some(Generators)
    case Some(m) => ClassNameOf(m) != c || Parse(call.parameter) != Some(p)
  }

  /** An override survives a run of writes that each keep it. */
  lemma {:induction false} OverrideSurvives(s: Store, classes: set<ClassName>, calls: seq<SetCall>,
                                            c: ClassName, p: Parameter)
    requires ApplySets(s, classes, calls).Ok?
    requires HasOverride(s, c, p)
    requires forall i :: 0 <= i < |calls| ==> KeepsOverride(calls[i], c, p)
    ensures HasOverride(ApplySets(s, classes, calls).value, c, p)
    ensures OverrideOf(ApplySets(s, classes, calls).value, c, p) == OverrideOf(s, c, p)
    decreases |calls|
  {
    if |calls| > 0 {
      ApplySetsStep(s, classes, calls);
      var call := calls[0];
      var q := IsParameterDefined(call.parameter).value;
      var s1 := Set(s, classes, call.parameter, call.value, call.model).value;
      if call.model.Some? {
        SetScopedFrame(s, classes, q, call.value, call.model.value);
      } else {
        SetGlobalFrame(s, classes, q, call.value);
      }
      assert forall i :: 0 <= i < |calls[1..]| ==> KeepsOverride(calls[1..][i], c, p) by {
        forall i | 0 <= i < |calls[1..]| ensures KeepsOverride(calls[1..][i], c, p) {
          assert calls[1..][i] == calls[i + 1];
        }
      }
      OverrideSurvives(s1, classes, calls[1..], c, p);
    }
  }

  /** The latest per-class write of `p` for `model`'s class is what `get`
      returns for that model, whatever follows it except a per-class write
      of the same entry or a global write of the table. */
  lemma {:induction false} LatestScopedWriteWins(s: Store, classes: set<ClassName>, calls: seq<SetCall>,
                                                 k: nat, p: Parameter)
    requires ApplySets(s, classes, calls).Ok?
    requires k < |calls| && calls[k].parameter == Name(p) && calls[k].model.Some?
    requires forall j :: k < j < |calls| ==> KeepsOverride(calls[j], ClassNameOf(calls[k].model.value), p)
    ensures Get(ApplySets(s, classes, calls).value, classes, Name(p), calls[k].model) == Ok(Scalar(calls[k].value))
    decreases k
  {
    ApplySetsStep(s, classes, calls);
    var call := calls[0];
    var s1 := Set(s, classes, call.parameter, call.value, call.model).value;
    var rest := calls[1..];
    if k == 0 {
      var m := call.model.value;
      ParseName(p);
      SetScopedFrame(s, classes, p, call.value, m);
      OverrideSurvives(s1, classes, rest, ClassNameOf(m), p);
      GetPrefersOverride(ApplySets(s, classes, calls).value, classes, p, m);
    } else {
      assert rest[k - 1] == calls[k];
      assert forall j :: k - 1 < j < |rest| ==> KeepsOverride(rest[j], ClassNameOf(rest[k - 1].model.value), p) by {
        forall j | k - 1 < j < |rest| ensures KeepsOverride(rest[j], ClassNameOf(rest[k - 1].model.value), p) {
          assert rest[j] == calls[j + 1];
        }
      }
      LatestScopedWriteWins(s1, classes, rest, k - 1, p);
    }
  }

  /** Per-class writes of recognised parameters for existing classes all
      succeed while the override table is indexable, and keep it indexable. */
  lemma {:induction false} ScopedSetsSucceed(s: Store, classes: set<ClassName>, calls: seq<SetCall>)
    requires OverridesIndexable(s)
    requires forall i :: 0 <= i < |calls| ==>
      && IsParameterDefined(calls[i].parameter).Ok?
      && calls[i].model.Some?
      && IsModelClassExist(classes, calls[i].model.value).Pass?
    ensures ApplySets(s, classes, calls).Ok?
    ensures var s' := ApplySets(s, classes, calls).value;
      OverridesIndexable(s')
    decreases |calls|
  {
    if |calls| > 0 {
      var c := calls[0];
      var p := IsParameterDefined(c.parameter).value;
      SetScopedFrame(s, classes, p, c.value, c.model.value);
      var s1 := Set(s, classes, c.parameter, c.value, c.model).value;
      assert forall i :: 0 <= i < |calls[1..]| ==> calls[1..][i] == calls[i + 1];
      ScopedSetsSucceed(s1, classes, calls[1..]);
    }
  }

  /** Running `a + b` is running `a`, then `b` on its result. */
  lemma {:induction false} ApplySetsAppend(s: Store, classes: set<ClassName>, a: seq<SetCall>, b: seq<SetCall>)
    ensures ApplySets(s, classes, a + b)
         == match ApplySets(s, classes, a)
            case Err(e) => Err(e)
            case Ok(s1) => ApplySets(s1, classes, b)
    decreases |a|
  {
    if |a| == 0 {
      assert a + b == b;
    } else {
      assert (a + b)[0] == a[0];
      assert (a + b)[1..] == a[1..] + b;
      match Set(s, classes, a[0].parameter, a[0].value, a[0].model)
      case Err(e) =>
      case Ok(s1) => ApplySetsAppend(s1, classes, a[1..], b);
    }
  }

  // ---------------------------------------------------------------------------
  // Blocks of per-class writes, as a test's arrange step performs them

  /** One per-class write of a recognised parameter. */
  datatype Write = Write(parameter: Parameter, value: Value)

  /** The `set` calls writing `writes`, in order, for model `m`. */
  function Block(m: ModelRef, writes: seq<Write>): seq<SetCall>
  {
    seq(|writes|, i requires 0 <= i < |writes| => SetCall(Name(writes[i].parameter), writes[i].value, Some(m)))
  }

  /** A block for an existing class succeeds while the override table is
      indexable, and leaves it indexable. */
  lemma BlockSucceeds(s: Store, classes: set<ClassName>, m: ModelRef, writes: seq<Write>)
    requires IsModelClassExist(classes, m).Pass?
    requires OverridesIndexable(s)
    ensures ApplySets(s, classes, Block(m, writes)).Ok?
    ensures OverridesIndexable(ApplySets(s, classes, Block(m, writes)).value)
  {
    var calls := Block(m, writes);
    forall i | 0 <= i < |calls| ensures IsParameterDefined(calls[i].parameter).Ok? {
      ParseName(writes[i].parameter);
    }
    ScopedSetsSucceed(s, classes, calls);
  }

  /** After a successful block, the class resolves each parameter to the
      last value the block wrote for it. */
  lemma BlockResolves(s: Store, classes: set<ClassName>, m: ModelRef, writes: seq<Write>, k: nat)
    requires ApplySets(s, classes, Block(m, writes)).Ok?
    requires k < |writes|
    requires forall j :: k < j < |writes| ==> writes[j].parameter != writes[k].parameter
    ensures Get(ApplySets(s, classes, Block(m, writes)).value, classes, Name(writes[k].parameter), Some(m))
         == Ok(Scalar(writes[k].value))
  {
    var calls := Block(m, writes);
    var p := writes[k].parameter;
    forall j | k < j < |calls| ensures KeepsOverride(calls[j], ClassNameOf(m), p) {
      ParseName(writes[j].parameter);
    }
    LatestScopedWriteWins(s, classes, calls, k, p);
  }

  /** A block leaves what `get` resolves for every other class as it was. */
  lemma BlockPreservesOtherClasses(s: Store, classes: set<ClassName>, m: ModelRef, writes: seq<Write>,
                                   other: ModelRef, q: Parameter)
    requires ApplySets(s, classes, Block(m, writes)).Ok?
    requires ClassNameOf(other) != ClassNameOf(m)
    requires q != Generators
    ensures Get(ApplySets(s, classes, Block(m, writes)).value, classes, Name(q), Some(other))
         == Get(s, classes, Name(q), Some(other))
  {
    UnrelatedSetsPreserveGet(s, classes, Block(m, writes), Some(other), q);
  }

  // ---------------------------------------------------------------------------
  // The arrange step of the test "it can generate model hash ids with different configurations"

  /** The two test model classes (`ModelA::class`, `ModelB::class`); only
      their distinctness matters here. */
  const ModelA: ClassName := "ModelA"
  const ModelB: ClassName := "ModelB"

  /** A class's separator, length, prefix case and prefix length, in the
      order the test writes them. */
  function ClassWrites(separator: Value, length: Value, prefixCase: Value, prefixLength: Value): seq<Write> {
    [Write(Separator, separator), Write(Length, length), Write(PrefixCase, prefixCase), Write(PrefixLength, prefixLength)]
  }

  const ModelAWrites: seq<Write> := ClassWrites(Str("_"), Int(5), Str("upper"), Int(3))
  const ModelBWrites: seq<Write> := ClassWrites(Str("#"), Int(10), Str("lower"), Int(4))

  /** The eight calls, ModelA's four first. */
  const DifferentConfigurations: seq<SetCall> :=
    Block(ClassString(ModelA), ModelAWrites) + Block(ClassString(ModelB), ModelBWrites)

  /** After a successful block of the scenario, the class resolves to what it wrote. */
  lemma ClassWritesResolve(s: Store, classes: set<ClassName>, m: ModelRef,
                           separator: Value, length: Value, prefixCase: Value, prefixLength: Value)
    requires ApplySets(s, classes, Block(m, ClassWrites(separator, length, prefixCase, prefixLength))).Ok?
    ensures var s' := ApplySets(s, classes, Block(m, ClassWrites(separator, length, prefixCase, prefixLength))).value;
      && Get(s', classes, Name(Separator), Some(m)) == Ok(Scalar(separator))
      && Get(s', classes, Name(Length), Some(m)) == Ok(Scalar(length))
      && Get(s', classes, Name(PrefixCase), Some(m)) == Ok(Scalar(prefixCase))
      && Get(s', classes, Name(PrefixLength), Some(m)) == Ok(Scalar(prefixLength))
  {
    var writes := ClassWrites(separator, length, prefixCase, prefixLength);
    BlockResolves(s, classes, m, writes, 0);
    BlockResolves(s, classes, m, writes, 1);
    BlockResolves(s, classes, m, writes, 2);
    BlockResolves(s, classes, m, writes, 3);
  }

  /** After the eight per-class writes, an instance of each class resolves to
      the separator, length, prefix case and prefix length written for its
      class, whatever the global configuration was. */
  lemma DifferentConfigurationsResolvePerClass(s: Store, classes: set<ClassName>)
    requires ModelA in classes && ModelB in classes
    requires OverridesIndexable(s)
    ensures ApplySets(s, classes, DifferentConfigurations).Ok?
    ensures var s' := ApplySets(s, classes, DifferentConfigurations).value;
      && Get(s', classes, Name(Separator), Some(Instance(ModelA))) == Ok(Scalar(Str("_")))
      && Get(s', classes, Name(Length), Some(Instance(ModelA))) == Ok(Scalar(Int(5)))
      && Get(s', classes, Name(PrefixCase), Some(Instance(ModelA))) == Ok(Scalar(Str("upper")))
      && Get(s', classes, Name(PrefixLength), Some(Instance(ModelA))) == Ok(Scalar(Int(3)))
      && Get(s', classes, Name(Separator), Some(Instance(ModelB))) == Ok(Scalar(Str("#")))
      && Get(s', classes, Name(Length), Some(Instance(ModelB))) == Ok(Scalar(Int(10)))
      && Get(s', classes, Name(PrefixCase), Some(Instance(ModelB))) == Ok(Scalar(Str("lower")))
      && Get(s', classes, Name(PrefixLength), Some(Instance(ModelB))) == Ok(Scalar(Int(4)))
  {
    var a, b := ClassString(ModelA), ClassString(ModelB);
    var blockA, blockB := Block(a, ModelAWrites), Block(b, ModelBWrites);
    BlockSucceeds(s, classes, a, ModelAWrites);
    ClassWritesResolve(s, classes, a, Str("_"), Int(5), Str("upper"), Int(3));
    var s1 := ApplySets(s, classes, blockA).value;
    BlockSucceeds(s1, classes, b, ModelBWrites);
    ClassWritesResolve(s1, classes, b, Str("#"), Int(10), Str("lower"), Int(4));
    var s2 := ApplySets(s1, classes, blockB).value;
    ApplySetsAppend(s, classes, blockA, blockB);
    assert ApplySets(s, classes, DifferentConfigurations) == Ok(s2);
    forall q | q in {Separator, Length, PrefixCase, PrefixLength}
      ensures Get(s2, classes, Name(q), Some(a)) == Get(s1, classes, Name(q), Some(a))
    {
      BlockPreservesOtherClasses(s1, classes, b, ModelBWrites, a, q);
    }
    forall n
      ensures Get(s2, classes, n, Some(Instance(ModelA))) == Get(s2, classes, n, Some(a))
      ensures Get(s2, classes, n, Some(Instance(ModelB))) == Get(s2, classes, n, Some(b))
    {
      InstanceAndClassNameAgree(s2, classes, n, Int(0), ModelA);
      InstanceAndClassNameAgree(s2, classes, n, Int(0), ModelB);
    }
  }
}
