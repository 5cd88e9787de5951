/** The two test methods of the consistency check and the comparison they end in. */
module SyncCheck {
  import opened Reflection
  import opened Failures
  import opened Extractors

  /** Entry points whose return class needs no field factory. */
  const FieldFactoriesIgnoredTypes: seq<JClass> := [PropertyContainerAssert]

  /** Entry points whose return class needs no method factory: none. */
  const MethodFactoriesIgnoredTypes: seq<JClass> := []

  /** Which entry points each pass selects and which factories it ignores:
      the field pass leaves out `PropertyContainerAssert`, and the method pass
      leaves out nothing. */
  lemma IgnoredTypes()
    ensures forall m :: IsAssertThat(m, FieldFactoriesIgnoredTypes) <==> m.name == "assertThat" && m.returnType != PropertyContainerAssert
    ensures forall m :: IsAssertThat(m, MethodFactoriesIgnoredTypes) <==> m.name == "assertThat"
    ensures forall e :: IsIgnoredFactory(e, FieldFactoriesIgnoredTypes) <==> e.1 == ClassType(PropertyContainerAssert)
    ensures forall e :: !IsIgnoredFactory(e, MethodFactoriesIgnoredTypes)
  {
  }

  /** The keys of `expected` that `actual` does not map to the same value. */
  function MissingKeys(actual: map<Type, Type>, expected: map<Type, Type>): set<Type> {
    set k | k in expected && !(k in actual && actual[k] == expected[k])
  }

  /** A subset of a finite set with as many elements is the whole set. */
  lemma SubsetOfSameSize(a: set<Type>, b: set<Type>)
    requires a <= b && |a| == |b|
    ensures a == b
  {
    assert b == a + (b - a);
    assert |b - a| == 0;
    forall x | x in b ensures x in a {
      assert x !in b - a;
    }
  }

  /** `then(actual).containsAllEntriesOf(expected).hasSameSizeAs(expected)`:
      passes exactly when the two maps are equal; otherwise it first reports
      the keys of `expected` that `actual` lacks, and only when there are none
      the two sizes. */
  function ContainsAllEntriesWithSameSize(actual: map<Type, Type>, expected: map<Type, Type>): (o: Outcome)
    ensures o == Pass <==> actual == expected
    ensures o.Fail? && o.error.MissingEntries? ==>
      o.error.keys != {} && forall k :: k in o.error.keys <==> k in expected && !(k in actual && actual[k] == expected[k])
    ensures o.Fail? && o.error.SizeMismatch? ==>
      && o.error == SizeMismatch(|expected|, |actual|)
      && MissingKeys(actual, expected) == {}
      && (forall k :: k in expected ==> k in actual && actual[k] == expected[k])
      && expected.Keys < actual.Keys
    ensures o.Fail? ==> o.error.MissingEntries? || o.error.SizeMismatch?
  {
    var missing := MissingKeys(actual, expected);
    if missing != {} then
      Fail(MissingEntries(missing))
    else
      assert forall k :: k in expected ==> k in actual && actual[k] == expected[k] by {
        forall k | k in expected ensures k in actual && actual[k] == expected[k] {
          assert k !in missing;
        }
      }
      if |actual| != |expected| then
        Fail(SizeMismatch(|expected|, |actual|))
      else
        SubsetOfSameSize(expected.Keys, actual.Keys);
        Pass
  }

  /** The shape both test methods share: build the entry-point map, then the
      factory map, then compare them; the first failure is the test's. */
  function CompareExtractions(expected: Result<map<Type, Type>>, actual: Result<map<Type, Type>>): (o: Outcome)
    ensures o == Pass <==> expected.Ok? && actual == expected
    ensures expected.Err? ==> o == Fail(expected.error)
    ensures expected.Ok? && actual.Err? ==> o == Fail(actual.error)
    ensures expected.Ok? && actual.Ok? ==> o == ContainsAllEntriesWithSameSize(actual.value, expected.value)
  {
    match expected
    case Err(e) => Fail(e)
    case Ok(exp) =>
      match actual
      case Err(e) => Fail(e)
      case Ok(act) => ContainsAllEntriesWithSameSize(act, exp)
  }

  /** `each_neo4j_assertion_should_have_an_instance_of_assert_factory_static_field`:
      passes exactly when both extractions succeed and give the same map; an
      extraction that fails is the test's failure, the entry points' first. */
  function EachNeo4jAssertionShouldHaveAnInstanceOfAssertFactoryStaticField(assertions: seq<Method>, factoryFields: seq<Field>): (o: Outcome)
    ensures o == Pass <==>
      && FindAssertThatParameterAndReturnTypes(assertions, FieldFactoriesIgnoredTypes).Ok?
      && FindFieldFactoryTypes(factoryFields, FieldFactoriesIgnoredTypes)
         == FindAssertThatParameterAndReturnTypes(assertions, FieldFactoriesIgnoredTypes)
    ensures FindAssertThatParameterAndReturnTypes(assertions, FieldFactoriesIgnoredTypes).Err? ==>
      o == Fail(FindAssertThatParameterAndReturnTypes(assertions, FieldFactoriesIgnoredTypes).error)
    ensures (&& FindAssertThatParameterAndReturnTypes(assertions, FieldFactoriesIgnoredTypes).Ok?
             && FindFieldFactoryTypes(factoryFields, FieldFactoriesIgnoredTypes).Err?) ==>
      o == Fail(FindFieldFactoryTypes(factoryFields, FieldFactoriesIgnoredTypes).error)
    ensures (&& FindAssertThatParameterAndReturnTypes(assertions, FieldFactoriesIgnoredTypes).Ok?
             && FindFieldFactoryTypes(factoryFields, FieldFactoriesIgnoredTypes).Ok?) ==>
      o == ContainsAllEntriesWithSameSize(FindFieldFactoryTypes(factoryFields, FieldFactoriesIgnoredTypes).value,
                                          FindAssertThatParameterAndReturnTypes(assertions, FieldFactoriesIgnoredTypes).value)
  {
    CompareExtractions(FindAssertThatParameterAndReturnTypes(assertions, FieldFactoriesIgnoredTypes),
                       FindFieldFactoryTypes(factoryFields, FieldFactoriesIgnoredTypes))
  }

  /** `each_neo4j_assertion_with_type_parameters_should_have_an_instance_of_assert_factory_static_method`:
      passes exactly when both extractions succeed and give the same map. */
  function EachNeo4jAssertionWithTypeParametersShouldHaveAnInstanceOfAssertFactoryStaticMethod(assertions: seq<Method>, factoryMethods: seq<Method>): (o: Outcome)
    ensures o == Pass <==>
      && FindTypedAssertThatParameterAndReturnTypes(assertions, MethodFactoriesIgnoredTypes).Ok?
      && FindMethodFactoryTypes(factoryMethods, MethodFactoriesIgnoredTypes)
         == FindTypedAssertThatParameterAndReturnTypes(assertions, MethodFactoriesIgnoredTypes)
    ensures FindTypedAssertThatParameterAndReturnTypes(assertions, MethodFactoriesIgnoredTypes).Err? ==>
      o == Fail(FindTypedAssertThatParameterAndReturnTypes(assertions, MethodFactoriesIgnoredTypes).error)
    ensures (&& FindTypedAssertThatParameterAndReturnTypes(assertions, MethodFactoriesIgnoredTypes).Ok?
             && FindMethodFactoryTypes(factoryMethods, MethodFactoriesIgnoredTypes).Err?) ==>
      o == Fail(FindMethodFactoryTypes(factoryMethods, MethodFactoriesIgnoredTypes).error)
    ensures (&& FindTypedAssertThatParameterAndReturnTypes(assertions, MethodFactoriesIgnoredTypes).Ok?
             && FindMethodFactoryTypes(factoryMethods, MethodFactoriesIgnoredTypes).Ok?) ==>
      o == ContainsAllEntriesWithSameSize(FindMethodFactoryTypes(factoryMethods, MethodFactoriesIgnoredTypes).value,
                                          FindTypedAssertThatParameterAndReturnTypes(assertions, MethodFactoriesIgnoredTypes).value)
  {
    CompareExtractions(FindTypedAssertThatParameterAndReturnTypes(assertions, MethodFactoriesIgnoredTypes),
                       FindMethodFactoryTypes(factoryMethods, MethodFactoriesIgnoredTypes))
  }
}
