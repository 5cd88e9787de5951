/** The registry extractors of the consistency check: the entry points
    `Assertions.assertThat(T)` and the factories of `InstanceOfAssertFactories`,
    each turned into a map from input type to assertion type. */
module Extractors {
  import opened Reflection
  import opened Failures
  import opened Normalizer
  import opened Streams

  // ---- entry points ----

  /** An `assertThat` method whose erased return class is not ignored. */
  predicate IsAssertThat(m: Method, ignoredReturnTypes: seq<JClass>) {
    m.name == "assertThat" && m.returnType !in ignoredReturnTypes
  }

  function IsAssertThatFor(ignoredReturnTypes: seq<JClass>): Method -> bool {
    m => IsAssertThat(m, ignoredReturnTypes)
  }

  /** `findAssertThatMethods`: the `assertThat` methods whose return class is
      not ignored, each as often as in the facade's listing, in its order. */
  function FindAssertThatMethods(methods: seq<Method>, ignoredReturnTypes: seq<JClass>): (r: seq<Method>)
    ensures forall m :: m in r <==> m in methods && IsAssertThat(m, ignoredReturnTypes)
    ensures forall m :: multiset(r)[m] == if IsAssertThat(m, ignoredReturnTypes) then multiset(methods)[m] else 0
    ensures IsSubsequence(r, methods)
  {
    Filter(methods, IsAssertThatFor(ignoredReturnTypes))
  }

  /** `hasTypeParameters`: the method declares at least one type parameter. */
  function HasTypeParameters(m: Method): (b: bool)
    ensures b <==> m.typeParameterCount >= 1
  {
    m.typeParameterCount != 0
  }

  /** `genericParameterType`: the generic type of the method's only parameter;
      a method with no parameter or with several fails. */
  function GenericParameterType(m: Method): (r: Result<Type>)
    ensures r.Ok? <==> |m.genericParameterTypes| == 1
    ensures r.Ok? ==> r.value == m.genericParameterTypes[0]
    ensures r.Err? ==> r.error == WrongParameterCount(m)
  {
    if |m.genericParameterTypes| == 1 then Ok(m.genericParameterTypes[0]) else Err(WrongParameterCount(m))
  }

  /** `toParameterAndReturnTypeEntry`: (normalised parameter type, normalised
      return type). It fails when the method does not take exactly one
      parameter or when either type does not normalise. */
  function ToParameterAndReturnTypeEntry(m: Method): (r: Result<Entry>)
    ensures r.Ok? <==> |m.genericParameterTypes| == 1 && Normalize(m.genericParameterTypes[0]).Ok? && Normalize(m.genericReturnType).Ok?
    ensures |m.genericParameterTypes| != 1 ==> r == Err(WrongParameterCount(m))
    ensures r.Ok? ==> Normalize(m.genericParameterTypes[0]) == Ok(r.value.0) && Normalize(m.genericReturnType) == Ok(r.value.1)
    ensures r.Ok? ==> IsCanonical(r.value.0) && IsCanonical(r.value.1)
  {
    var parameter :- GenericParameterType(m);
    var key :- Normalize(parameter);
    var value :- Normalize(m.genericReturnType);
    Ok((key, value))
  }

  /** `isPrimitiveTypeKey`: only a class key can be primitive, and a class
      key is exactly when its class is. */
  function IsPrimitiveTypeKey(e: Entry): (b: bool)
    ensures b ==> e.0.ClassType?
    ensures e.0.ClassType? ==> (b <==> e.0.cls.isPrimitive)
  {
    match e.0
    case ClassType(c) => c.isPrimitive
    case _ => false
  }

  /** One entry point through the field pass: map to its entry, then drop primitive keys. */
  function FieldPassStep(m: Method): (r: Result<Option<Entry>>)
    ensures r.Ok? <==> ToParameterAndReturnTypeEntry(m).Ok?
    ensures r.Ok? ==> (r.value.Some? <==> !IsPrimitiveTypeKey(ToParameterAndReturnTypeEntry(m).value))
    ensures r.Ok? && r.value.Some? ==> r.value.value == ToParameterAndReturnTypeEntry(m).value
  {
    var e :- ToParameterAndReturnTypeEntry(m);
    if IsPrimitiveTypeKey(e) then Ok(None) else Ok(Some(e))
  }

  /** `findAssertThatParameterAndReturnTypes`: every selected entry point,
      whether or not it declares type parameters, is turned into its entry and
      must succeed; the entries with a primitive key are dropped; the rest are
      exactly the map. */
  function FindAssertThatParameterAndReturnTypes(methods: seq<Method>, ignoredReturnTypes: seq<JClass>): (r: Result<map<Type, Type>>)
    ensures r.Ok? <==> var selected := FindAssertThatMethods(methods, ignoredReturnTypes);
      AllSucceed(selected, FieldPassStep) && !RepeatsKey(selected, FieldPassStep)
    ensures (exists m :: m in methods && IsAssertThat(m, ignoredReturnTypes) && ToParameterAndReturnTypeEntry(m).Err?) ==> r.Err?
    ensures r.Ok? ==> forall m :: m in methods && IsAssertThat(m, ignoredReturnTypes) ==>
      && ToParameterAndReturnTypeEntry(m).Ok?
      && var e := ToParameterAndReturnTypeEntry(m).value;
         !IsPrimitiveTypeKey(e) ==> e.0 in r.value && r.value[e.0] == e.1
    ensures r.Ok? ==> forall k :: k in r.value ==>
      && !IsPrimitiveTypeKey((k, r.value[k]))
      && exists m :: m in methods && IsAssertThat(m, ignoredReturnTypes) && ToParameterAndReturnTypeEntry(m) == Ok((k, r.value[k]))
  {
    var selected := FindAssertThatMethods(methods, ignoredReturnTypes);
    CollectFacts(selected, FieldPassStep);
    Collect(selected, FieldPassStep)
  }

  /** One entry point through the method pass: drop it unless it declares type
      parameters, then map it to its entry. */
  function TypedPassStep(m: Method): (r: Result<Option<Entry>>)
    ensures r.Ok? <==> !HasTypeParameters(m) || ToParameterAndReturnTypeEntry(m).Ok?
    ensures r.Ok? ==> (r.value.Some? <==> HasTypeParameters(m))
    ensures r.Ok? && r.value.Some? ==> r.value.value == ToParameterAndReturnTypeEntry(m).value
  {
    if HasTypeParameters(m) then
      var e :- ToParameterAndReturnTypeEntry(m);
      Ok(Some(e))
    else Ok(None)
  }

  /** `findTypedAssertThatParameterAndReturnTypes`: the selected entry points
      that declare type parameters, each turned into its entry (primitive keys
      included); that is exactly the map. */
  function FindTypedAssertThatParameterAndReturnTypes(methods: seq<Method>, ignoredReturnTypes: seq<JClass>): (r: Result<map<Type, Type>>)
    ensures r.Ok? <==> var selected := FindAssertThatMethods(methods, ignoredReturnTypes);
      AllSucceed(selected, TypedPassStep) && !RepeatsKey(selected, TypedPassStep)
    ensures (exists m :: m in methods && IsAssertThat(m, ignoredReturnTypes) && HasTypeParameters(m) && ToParameterAndReturnTypeEntry(m).Err?) ==> r.Err?
    ensures r.Ok? ==> forall m :: m in methods && IsAssertThat(m, ignoredReturnTypes) && HasTypeParameters(m) ==>
      && ToParameterAndReturnTypeEntry(m).Ok?
      && var e := ToParameterAndReturnTypeEntry(m).value;
         e.0 in r.value && r.value[e.0] == e.1
    ensures r.Ok? ==> forall k :: k in r.value ==>
      exists m :: m in methods && IsAssertThat(m, ignoredReturnTypes) && HasTypeParameters(m) && ToParameterAndReturnTypeEntry(m) == Ok((k, r.value[k]))
  {
    var selected := FindAssertThatMethods(methods, ignoredReturnTypes);
    CollectFacts(selected, TypedPassStep);
    Collect(selected, TypedPassStep)
  }

  // ---- factories ----

  /** The only shape a factory may have: `InstanceOfAssertFactory<K, V>`. */
  predicate IsFactoryShape(t: Type) {
    t.Parameterized? && t.raw == InstanceOfAssertFactory && |t.args| == 2
  }

  /** `extractTypeParameters`: fails unless the type is
      `InstanceOfAssertFactory<K, V>`; then (normalised K, normalised V). */
  function ExtractTypeParameters(t: Type): (r: Result<Entry>)
    ensures r.Ok? <==> IsFactoryShape(t) && Normalize(t.args[0]).Ok? && Normalize(t.args[1]).Ok?
    ensures !IsFactoryShape(t) ==> r == Err(MalformedFactory(t))
    ensures r.Ok? ==> Normalize(t.args[0]) == Ok(r.value.0) && Normalize(t.args[1]) == Ok(r.value.1)
  {
    if IsFactoryShape(t) then
      var key :- Normalize(t.args[0]);
      var value :- Normalize(t.args[1]);
      Ok((key, value))
    else
      Err(MalformedFactory(t))
  }

  /** `isIgnoredFactory`: the (normalised) value equals one of the ignored
      classes; with no ignored classes nothing is ignored. */
  function IsIgnoredFactory(e: Entry, ignoredTypes: seq<JClass>): (b: bool)
    ensures b <==> exists i :: 0 <= i < |ignoredTypes| && e.1 == ClassType(ignoredTypes[i])
    ensures ignoredTypes == [] ==> !b
  {
    e.1.ClassType? && e.1.cls in ignoredTypes
  }

  /** One field through the field-factory pipeline: drop synthetic fields,
      check the shape, then drop ignored factories. */
  function FieldFactoryStep(f: Field, ignoredTypes: seq<JClass>): (r: Result<Option<Entry>>)
    ensures r.Ok? <==> f.isSynthetic || ExtractTypeParameters(f.genericType).Ok?
    ensures r.Ok? ==> (r.value.Some? <==> !f.isSynthetic && !IsIgnoredFactory(ExtractTypeParameters(f.genericType).value, ignoredTypes))
    ensures r.Ok? && r.value.Some? ==> r.value.value == ExtractTypeParameters(f.genericType).value
  {
    if f.isSynthetic then Ok(None)
    else
      var e :- ExtractTypeParameters(f.genericType);
      if IsIgnoredFactory(e, ignoredTypes) then Ok(None) else Ok(Some(e))
  }

  function FieldFactoryStepFor(ignoredTypes: seq<JClass>): Field -> Result<Option<Entry>> {
    f => FieldFactoryStep(f, ignoredTypes)
  }

  /** `findFieldFactoryTypes`: every field that is not synthetic must have the
      factory shape, ignored or not; the map holds exactly the entries of the
      ones whose value is not ignored. */
  function FindFieldFactoryTypes(fields: seq<Field>, ignoredTypes: seq<JClass>): (r: Result<map<Type, Type>>)
    ensures r.Ok? <==> AllSucceed(fields, FieldFactoryStepFor(ignoredTypes)) && !RepeatsKey(fields, FieldFactoryStepFor(ignoredTypes))
    ensures (exists f :: f in fields && !f.isSynthetic && ExtractTypeParameters(f.genericType).Err?) ==> r.Err?
    ensures r.Ok? ==> forall f :: f in fields && !f.isSynthetic ==>
      && ExtractTypeParameters(f.genericType).Ok?
      && var e := ExtractTypeParameters(f.genericType).value;
         !IsIgnoredFactory(e, ignoredTypes) ==> e.0 in r.value && r.value[e.0] == e.1
    ensures r.Ok? ==> forall k :: k in r.value ==>
      && !IsIgnoredFactory((k, r.value[k]), ignoredTypes)
      && exists f :: f in fields && !f.isSynthetic && ExtractTypeParameters(f.genericType) == Ok((k, r.value[k]))
  {
    CollectFacts(fields, FieldFactoryStepFor(ignoredTypes));
    Collect(fields, FieldFactoryStepFor(ignoredTypes))
  }

  /** One method through the method-factory pipeline: check the shape of its
      generic return type, then drop ignored factories. */
  function MethodFactoryStep(m: Method, ignoredTypes: seq<JClass>): (r: Result<Option<Entry>>)
    ensures r.Ok? <==> ExtractTypeParameters(m.genericReturnType).Ok?
    ensures r.Ok? ==> (r.value.Some? <==> !IsIgnoredFactory(ExtractTypeParameters(m.genericReturnType).value, ignoredTypes))
    ensures r.Ok? && r.value.Some? ==> r.value.value == ExtractTypeParameters(m.genericReturnType).value
  {
    var e :- ExtractTypeParameters(m.genericReturnType);
    if IsIgnoredFactory(e, ignoredTypes) then Ok(None) else Ok(Some(e))
  }

  function MethodFactoryStepFor(ignoredTypes: seq<JClass>): Method -> Result<Option<Entry>> {
    m => MethodFactoryStep(m, ignoredTypes)
  }

  /** `findMethodFactoryTypes`: every method of the catalog must return the
      factory shape; the map holds exactly the entries whose value is not ignored. */
  function FindMethodFactoryTypes(methods: seq<Method>, ignoredTypes: seq<JClass>): (r: Result<map<Type, Type>>)
    ensures r.Ok? <==> AllSucceed(methods, MethodFactoryStepFor(ignoredTypes)) && !RepeatsKey(methods, MethodFactoryStepFor(ignoredTypes))
    ensures (exists m :: m in methods && ExtractTypeParameters(m.genericReturnType).Err?) ==> r.Err?
    ensures r.Ok? ==> forall m :: m in methods ==>
      && ExtractTypeParameters(m.genericReturnType).Ok?
      && var e := ExtractTypeParameters(m.genericReturnType).value;
         !IsIgnoredFactory(e, ignoredTypes) ==> e.0 in r.value && r.value[e.0] == e.1
    ensures r.Ok? ==> forall k :: k in r.value ==>
      && !IsIgnoredFactory((k, r.value[k]), ignoredTypes)
      && exists m :: m in methods && ExtractTypeParameters(m.genericReturnType) == Ok((k, r.value[k]))
  {
    CollectFacts(methods, MethodFactoryStepFor(ignoredTypes));
    Collect(methods, MethodFactoryStepFor(ignoredTypes))
  }

  // ---- properties of the passes ----

  /** `findAssertThatMethods` of a concatenation selects from each part. */
  lemma FindAssertThatMethodsConcat(a: seq<Method>, b: seq<Method>, ignoredReturnTypes: seq<JClass>)
    ensures FindAssertThatMethods(a + b, ignoredReturnTypes)
         == FindAssertThatMethods(a, ignoredReturnTypes) + FindAssertThatMethods(b, ignoredReturnTypes)
  {
    FilterConcat(a, b, IsAssertThatFor(ignoredReturnTypes));
  }

  /** Methods that are not `assertThat` or return an ignored class are never
      selected, wherever they stand in the listing. */
  lemma UnselectedMethodsDropOut(before: seq<Method>, extra: seq<Method>, after: seq<Method>, ignoredReturnTypes: seq<JClass>)
    requires forall m :: m in extra ==> !IsAssertThat(m, ignoredReturnTypes)
    ensures FindAssertThatMethods(before + extra + after, ignoredReturnTypes)
         == FindAssertThatMethods(before + after, ignoredReturnTypes)
  {
    FilterDropsAll(extra, IsAssertThatFor(ignoredReturnTypes));
    FindAssertThatMethodsConcat(before + extra, after, ignoredReturnTypes);
    FindAssertThatMethodsConcat(before, extra, ignoredReturnTypes);
    FindAssertThatMethodsConcat(before, after, ignoredReturnTypes);
  }

  /** Hence such methods change neither pass: in particular an entry point
      whose return class is ignored needs no factory. */
  lemma UnselectedMethodsChangeNoPass(before: seq<Method>, extra: seq<Method>, after: seq<Method>, ignoredReturnTypes: seq<JClass>)
    requires forall m :: m in extra ==> !IsAssertThat(m, ignoredReturnTypes)
    ensures FindAssertThatParameterAndReturnTypes(before + extra + after, ignoredReturnTypes)
         == FindAssertThatParameterAndReturnTypes(before + after, ignoredReturnTypes)
    ensures FindTypedAssertThatParameterAndReturnTypes(before + extra + after, ignoredReturnTypes)
         == FindTypedAssertThatParameterAndReturnTypes(before + after, ignoredReturnTypes)
  {
    UnselectedMethodsDropOut(before, extra, after, ignoredReturnTypes);
  }

  /** The method pass filters on type parameters before it extracts anything, so
      entry points without type parameters, even ones with the wrong number of
      parameters, never change its outcome. */
  lemma TypedPassSkipsNonGeneric(before: seq<Method>, extra: seq<Method>, after: seq<Method>, ignoredReturnTypes: seq<JClass>)
    requires forall m :: m in extra ==> !HasTypeParameters(m)
    ensures FindTypedAssertThatParameterAndReturnTypes(before + extra + after, ignoredReturnTypes)
         == FindTypedAssertThatParameterAndReturnTypes(before + after, ignoredReturnTypes)
  {
    var sb := FindAssertThatMethods(before, ignoredReturnTypes);
    var se := FindAssertThatMethods(extra, ignoredReturnTypes);
    var sa := FindAssertThatMethods(after, ignoredReturnTypes);
    FindAssertThatMethodsConcat(before + extra, after, ignoredReturnTypes);
    FindAssertThatMethodsConcat(before, extra, ignoredReturnTypes);
    FindAssertThatMethodsConcat(before, after, ignoredReturnTypes);
    CollectSkipsDropped(sb, se, sa, TypedPassStep);
  }

  /** Synthetic fields are dropped before the shape check, so adding them
      anywhere, whatever their type, never changes the field factories. */
  lemma FieldFactoriesSkipSynthetic(before: seq<Field>, synthetic: seq<Field>, after: seq<Field>, ignoredTypes: seq<JClass>)
    requires forall f :: f in synthetic ==> f.isSynthetic
    ensures FindFieldFactoryTypes(before + synthetic + after, ignoredTypes)
         == FindFieldFactoryTypes(before + after, ignoredTypes)
  {
    CollectSkipsDropped(before, synthetic, after, FieldFactoryStepFor(ignoredTypes));
  }

  /** Two selected entry points at different places whose entries share a key
      that is not primitive make the field pass fail, even with equal values. */
  lemma FieldPassRejectsDuplicateKeys(methods: seq<Method>, ignoredReturnTypes: seq<JClass>, i: nat, j: nat)
    requires i < j < |FindAssertThatMethods(methods, ignoredReturnTypes)|
    requires var mi := FindAssertThatMethods(methods, ignoredReturnTypes)[i];
             var mj := FindAssertThatMethods(methods, ignoredReturnTypes)[j];
             && ToParameterAndReturnTypeEntry(mi).Ok? && ToParameterAndReturnTypeEntry(mj).Ok?
             && ToParameterAndReturnTypeEntry(mi).value.0 == ToParameterAndReturnTypeEntry(mj).value.0
             && !IsPrimitiveTypeKey(ToParameterAndReturnTypeEntry(mi).value)
    ensures FindAssertThatParameterAndReturnTypes(methods, ignoredReturnTypes).Err?
    ensures var selected := FindAssertThatMethods(methods, ignoredReturnTypes);
      var err := FindAssertThatParameterAndReturnTypes(methods, ignoredReturnTypes).error;
      AllSucceed(selected, FieldPassStep) ==>
        && err.DuplicateKey?
        && exists a, b :: SameKeyAt(selected, FieldPassStep, a, b) && FieldPassStep(selected[b]).value.value.0 == err.key
  {
    var selected := FindAssertThatMethods(methods, ignoredReturnTypes);
    CollectedRepeatsKey(selected, FieldPassStep, i, j,
      ToParameterAndReturnTypeEntry(selected[i]).value, ToParameterAndReturnTypeEntry(selected[j]).value);
    if AllSucceed(selected, FieldPassStep) {
      CollectDuplicateKey(selected, FieldPassStep);
    }
  }

  /** Two selected generic entry points at different places whose entries share
      a key make the method pass fail, even with equal values. */
  lemma TypedPassRejectsDuplicateKeys(methods: seq<Method>, ignoredReturnTypes: seq<JClass>, i: nat, j: nat)
    requires i < j < |FindAssertThatMethods(methods, ignoredReturnTypes)|
    requires var mi := FindAssertThatMethods(methods, ignoredReturnTypes)[i];
             var mj := FindAssertThatMethods(methods, ignoredReturnTypes)[j];
             && HasTypeParameters(mi) && HasTypeParameters(mj)
             && ToParameterAndReturnTypeEntry(mi).Ok? && ToParameterAndReturnTypeEntry(mj).Ok?
             && ToParameterAndReturnTypeEntry(mi).value.0 == ToParameterAndReturnTypeEntry(mj).value.0
    ensures FindTypedAssertThatParameterAndReturnTypes(methods, ignoredReturnTypes).Err?
    ensures var selected := FindAssertThatMethods(methods, ignoredReturnTypes);
      var err := FindTypedAssertThatParameterAndReturnTypes(methods, ignoredReturnTypes).error;
      AllSucceed(selected, TypedPassStep) ==>
        && err.DuplicateKey?
        && exists a, b :: SameKeyAt(selected, TypedPassStep, a, b) && TypedPassStep(selected[b]).value.value.0 == err.key
  {
    var selected := FindAssertThatMethods(methods, ignoredReturnTypes);
    CollectedRepeatsKey(selected, TypedPassStep, i, j,
      ToParameterAndReturnTypeEntry(selected[i]).value, ToParameterAndReturnTypeEntry(selected[j]).value);
    if AllSucceed(selected, TypedPassStep) {
      CollectDuplicateKey(selected, TypedPassStep);
    }
  }

  /** Two non-synthetic fields whose factories share a key, neither of them
      ignored, make the field factories fail, even with equal values. */
  lemma FieldFactoriesRejectDuplicateKeys(fields: seq<Field>, ignoredTypes: seq<JClass>, i: nat, j: nat)
    requires i < j < |fields| && !fields[i].isSynthetic && !fields[j].isSynthetic
    requires var ei := ExtractTypeParameters(fields[i].genericType);
             var ej := ExtractTypeParameters(fields[j].genericType);
             && ei.Ok? && ej.Ok? && ei.value.0 == ej.value.0
             && !IsIgnoredFactory(ei.value, ignoredTypes) && !IsIgnoredFactory(ej.value, ignoredTypes)
    ensures FindFieldFactoryTypes(fields, ignoredTypes).Err?
    ensures var err := FindFieldFactoryTypes(fields, ignoredTypes).error;
      AllSucceed(fields, FieldFactoryStepFor(ignoredTypes)) ==>
        && err.DuplicateKey?
        && exists a, b :: SameKeyAt(fields, FieldFactoryStepFor(ignoredTypes), a, b)
                          && FieldFactoryStep(fields[b], ignoredTypes).value.value.0 == err.key
  {
    CollectedRepeatsKey(fields, FieldFactoryStepFor(ignoredTypes), i, j,
      ExtractTypeParameters(fields[i].genericType).value, ExtractTypeParameters(fields[j].genericType).value);
    if AllSucceed(fields, FieldFactoryStepFor(ignoredTypes)) {
      CollectDuplicateKey(fields, FieldFactoryStepFor(ignoredTypes));
    }
  }

  /** Two factory methods whose factories share a key, neither of them ignored,
      make the method factories fail, even with equal values. */
  lemma MethodFactoriesRejectDuplicateKeys(methods: seq<Method>, ignoredTypes: seq<JClass>, i: nat, j: nat)
    requires i < j < |methods|
    requires var ei := ExtractTypeParameters(methods[i].genericReturnType);
             var ej := ExtractTypeParameters(methods[j].genericReturnType);
             && ei.Ok? && ej.Ok? && ei.value.0 == ej.value.0
             && !IsIgnoredFactory(ei.value, ignoredTypes) && !IsIgnoredFactory(ej.value, ignoredTypes)
    ensures FindMethodFactoryTypes(methods, ignoredTypes).Err?
    ensures var err := FindMethodFactoryTypes(methods, ignoredTypes).error;
      AllSucceed(methods, MethodFactoryStepFor(ignoredTypes)) ==>
        && err.DuplicateKey?
        && exists a, b :: SameKeyAt(methods, MethodFactoryStepFor(ignoredTypes), a, b)
                          && MethodFactoryStep(methods[b], ignoredTypes).value.value.0 == err.key
  {
    CollectedRepeatsKey(methods, MethodFactoryStepFor(ignoredTypes), i, j,
      ExtractTypeParameters(methods[i].genericReturnType).value, ExtractTypeParameters(methods[j].genericReturnType).value);
    if AllSucceed(methods, MethodFactoryStepFor(ignoredTypes)) {
      CollectDuplicateKey(methods, MethodFactoryStepFor(ignoredTypes));
    }
  }
}
