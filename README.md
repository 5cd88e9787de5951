# assertj-neo4j: the Assertions / InstanceOfAssertFactories sync check

assertj-neo4j adds AssertJ assertions for Neo4j objects. Its facade `Assertions`
has one `assertThat(T)` entry point per supported type. Its catalog
`InstanceOfAssertFactories` declares one `InstanceOfAssertFactory<T, TAssert>`
per type: a static field for a plain type, a static method for a generic one.
The test `Assertions_sync_with_InstanceOfAssertFactories_Test` keeps the two
in step. This project models that test and proves what it checks.

The test reads both classes through reflection. Here the reflection results are
inputs: `Reflection.Method` and `Reflection.Field` records listed in the order
`getMethods()` / `getFields()` returned them. The check is then a pure function
of those listings and the two ignore lists. Modules:

- `Reflection`: type descriptors (`Type`: a class, a parameterized type, a type
  variable with its bounds, or another type) and member records.
- `Failures`: `Result`, `Option` and `Outcome`. An `Error` stands for each way
  the test can fail: a malformed variable, an entry point without exactly one
  parameter, a malformed factory, a duplicate map key, missing entries, or
  different sizes.
- `Normalizer`: `normalize`.
- `Streams`: `Stream.filter`. Also a stream pipeline ending in
  `Collectors.toMap(Entry::getKey, Entry::getValue)`, and that collector alone.
- `Extractors`: `findAssertThatMethods` and the four map-building helpers, with
  `isPrimitiveTypeKey`, `hasTypeParameters`, `genericParameterType`,
  `toParameterAndReturnTypeEntry`, `extractTypeParameters` and `isIgnoredFactory`.
- `SyncCheck`: the two ignore lists, the final comparison and the two test methods.
- `Scenarios`: small facades and catalogs whose outcome is worked out in full.

A Java stream runs each element through all its stages and into the collector
before it looks at the next element. `Streams.CollectInto` does the same, so
the error it reports is the one Java hits first, as `Streams.CollectIntoFirstError`
proves. `Streams.Collect` proves that
this agrees with the staged reading. In the staged reading every element goes
through the stages, and `ToMap` then runs over the entries that are left. Both
succeed on the same inputs, and when they succeed they give the same map.

The model follows the code, including where it does less or more than the test names suggest:

- The field pass does not drop entry points that declare type parameters. They
  must have a field factory too, unless their key is primitive.
- `toMap` has no merge function. A repeated key therefore fails even when both
  values are equal, not only when the values differ.
- `containsAllEntriesOf` reports the keys that are missing. Extra factories show
  up only as a size mismatch from `hasSameSizeAs`. No list of extra keys exists.
- The entry-point map is built first. If it fails, that failure is the test's
  verdict, and the factory map is never built.

## Model

| member | source | states |
|---|---|---|
| Normalizer.Normalize | src/test/java/org/assertj/neo4j/api/Assertions_sync_with_InstanceOfAssertFactories_Test.java:154-163 | A success is never parameterized or a type variable. A failure names a type variable with zero or several bounds. |
| Normalizer.DescendEnds | src/test/java/org/assertj/neo4j/api/Assertions_sync_with_InstanceOfAssertFactories_Test.java:157-160 | Following single bounds always stops: either at a non-variable, or at a variable without exactly one bound. |
| Normalizer.NormalizeReachesBound | src/test/java/org/assertj/neo4j/api/Assertions_sync_with_InstanceOfAssertFactories_Test.java:154-163 | If the chain of single bounds reaches a non-variable u, normalising gives u, or u's raw class when u is parameterized. |
| Normalizer.NormalizeFailsAtVariable | src/test/java/org/assertj/neo4j/api/Assertions_sync_with_InstanceOfAssertFactories_Test.java:157-160 | If the chain reaches a variable with zero or several bounds, normalising fails on that variable. No bound is picked. |
| Normalizer.NormalizeIdempotent | src/test/java/org/assertj/neo4j/api/Assertions_sync_with_InstanceOfAssertFactories_Test.java:154-163 | Normalising a successful result again changes nothing. |
| Normalizer.CanonicalIsFixedPoint | src/test/java/org/assertj/neo4j/api/Assertions_sync_with_InstanceOfAssertFactories_Test.java:154-163 | The types normalising leaves unchanged are exactly the classes and the other types. |
| Streams.Filter | src/test/java/org/assertj/neo4j/api/Assertions_sync_with_InstanceOfAssertFactories_Test.java:95-98 | `Stream.filter` keeps exactly the elements that satisfy the predicate. It keeps each as often as in the input and in input order. |
| Streams.ToMap | src/test/java/org/assertj/neo4j/api/Assertions_sync_with_InstanceOfAssertFactories_Test.java:76 | `toMap` fails exactly when a key repeats, whatever the values. Otherwise its keys are the entries' keys, each entry's value is stored, and its size is the number of entries. |
| Streams.CollectInto | src/test/java/org/assertj/neo4j/api/Assertions_sync_with_InstanceOfAssertFactories_Test.java:72-77 | Each element goes through the stages and into the collector before the next one. On success, the accumulator's entries are kept and every element passed its stages. |
| Streams.CollectIntoFirstError | src/test/java/org/assertj/neo4j/api/Assertions_sync_with_InstanceOfAssertFactories_Test.java:72-77 | An error comes from the first element where the run stops. Every earlier element passed its stages, and the collector accepted every earlier entry. That element either fails a stage with this error, or hands the collector a key it already holds, and the error names that key. |
| Streams.RepeatsKeyExactly | src/test/java/org/assertj/neo4j/api/Assertions_sync_with_InstanceOfAssertFactories_Test.java:76 | The collected entries repeat a key exactly when two elements of the stream produce entries with the same key. |
| Streams.CollectDuplicateKey | src/test/java/org/assertj/neo4j/api/Assertions_sync_with_InstanceOfAssertFactories_Test.java:76 | When every element passes its stages and the collection still fails, the error is a duplicate key, and two elements of the stream produce that key. |
| Streams.Collect | src/test/java/org/assertj/neo4j/api/Assertions_sync_with_InstanceOfAssertFactories_Test.java:72-77 | The fused pipeline succeeds exactly when no element fails a stage and no key reaches the collector twice. It then equals `ToMap` of the entries that reached the collector. |
| Streams.CollectIntoStaged | src/test/java/org/assertj/neo4j/api/Assertions_sync_with_InstanceOfAssertFactories_Test.java:73-76 | From any accumulator, the element-by-element run agrees with running every stage first and collecting afterwards. |
| Streams.CollectFacts | src/test/java/org/assertj/neo4j/api/Assertions_sync_with_InstanceOfAssertFactories_Test.java:115-122 | A failing element fails the map. On success, every surviving entry is in the map, and every map entry comes from some element. |
| Streams.CollectedRepeatsKey | src/test/java/org/assertj/neo4j/api/Assertions_sync_with_InstanceOfAssertFactories_Test.java:121 | Two elements whose entries share a key make the collected entries repeat a key, even when the values are equal. |
| Streams.CollectSkipsDropped | src/test/java/org/assertj/neo4j/api/Assertions_sync_with_InstanceOfAssertFactories_Test.java:117 | Elements that a stage drops change nothing, wherever they stand in the stream. |
| Extractors.FindAssertThatMethods | src/test/java/org/assertj/neo4j/api/Assertions_sync_with_InstanceOfAssertFactories_Test.java:93-99 | Keeps exactly the methods named `assertThat` whose erased return class is not ignored. Keeps their multiplicity and their order. |
| Extractors.HasTypeParameters | src/test/java/org/assertj/neo4j/api/Assertions_sync_with_InstanceOfAssertFactories_Test.java:101-103 | True exactly when the method declares at least one type parameter. |
| Extractors.GenericParameterType | src/test/java/org/assertj/neo4j/api/Assertions_sync_with_InstanceOfAssertFactories_Test.java:109-113 | Succeeds exactly when the method has one parameter, and gives that parameter's generic type. Otherwise it fails with a parameter-count error naming the method. |
| Extractors.IsPrimitiveTypeKey | src/test/java/org/assertj/neo4j/api/Assertions_sync_with_InstanceOfAssertFactories_Test.java:79-84 | Only a class key can be primitive. A class key is primitive exactly when its class is. |
| Extractors.ToParameterAndReturnTypeEntry | src/test/java/org/assertj/neo4j/api/Assertions_sync_with_InstanceOfAssertFactories_Test.java:105-113 | Fails with a parameter-count error unless there is exactly one parameter. Otherwise gives the normalised parameter type and return type, both canonical, and fails exactly when either fails to normalise. |
| Extractors.FindAssertThatParameterAndReturnTypes | src/test/java/org/assertj/neo4j/api/Assertions_sync_with_InstanceOfAssertFactories_Test.java:72-84 | Succeeds exactly when every selected entry point extracts and no two of them give the same non-primitive key. Every selected entry point, generic or not, must extract. The map holds exactly the extracted entries whose key is not a primitive class. A non-class key is never treated as primitive. |
| Extractors.FindTypedAssertThatParameterAndReturnTypes | src/test/java/org/assertj/neo4j/api/Assertions_sync_with_InstanceOfAssertFactories_Test.java:86-91 | Succeeds exactly when every selected generic entry point extracts and no two of them give the same key. Only these must extract. The map holds exactly their entries. No primitive filter applies. |
| Extractors.ExtractTypeParameters | src/test/java/org/assertj/neo4j/api/Assertions_sync_with_InstanceOfAssertFactories_Test.java:144-152 | Fails with a malformed-factory error unless the type is `InstanceOfAssertFactory` with exactly two arguments. Otherwise gives the two normalised arguments. |
| Extractors.IsIgnoredFactory | src/test/java/org/assertj/neo4j/api/Assertions_sync_with_InstanceOfAssertFactories_Test.java:140-142 | True exactly when the entry's value equals one of the ignored classes. With no ignored classes, nothing is ignored. |
| Extractors.FindFieldFactoryTypes | src/test/java/org/assertj/neo4j/api/Assertions_sync_with_InstanceOfAssertFactories_Test.java:115-126 | Succeeds exactly when every non-synthetic field extracts and no two non-ignored ones give the same key. Every non-synthetic field must have the factory shape, ignored or not. The map holds exactly the entries whose normalised value is not ignored. |
| Extractors.FindMethodFactoryTypes | src/test/java/org/assertj/neo4j/api/Assertions_sync_with_InstanceOfAssertFactories_Test.java:128-142 | Succeeds exactly when every catalog method extracts and no two non-ignored ones give the same key. Every catalog method must return the factory shape. No synthetic filter applies. The map holds exactly the entries whose normalised value is not ignored. |
| Extractors.UnselectedMethodsDropOut | src/test/java/org/assertj/neo4j/api/Assertions_sync_with_InstanceOfAssertFactories_Test.java:93-99 | Methods that are not `assertThat`, or that return an ignored class, are never selected, wherever they stand. |
| Extractors.UnselectedMethodsChangeNoPass | src/test/java/org/assertj/neo4j/api/Assertions_sync_with_InstanceOfAssertFactories_Test.java:45-50 | Such methods change neither pass. An entry point with an ignored return class needs no factory. |
| Extractors.TypedPassSkipsNonGeneric | src/test/java/org/assertj/neo4j/api/Assertions_sync_with_InstanceOfAssertFactories_Test.java:101-103 | The method pass filters before it extracts. Entry points without type parameters, even malformed ones, never change it. |
| Extractors.FieldFactoriesSkipSynthetic | src/test/java/org/assertj/neo4j/api/Assertions_sync_with_InstanceOfAssertFactories_Test.java:117 | Synthetic fields are dropped before the shape check. Adding them anywhere, with any type, never changes the field factories. |
| Extractors.FieldPassRejectsDuplicateKeys | src/test/java/org/assertj/neo4j/api/Assertions_sync_with_InstanceOfAssertFactories_Test.java:76 | Two selected entry points that share a non-primitive key fail the field pass, even when the values are equal. When every selected entry point extracts, the error is a duplicate key that two of them share. |
| Extractors.TypedPassRejectsDuplicateKeys | src/test/java/org/assertj/neo4j/api/Assertions_sync_with_InstanceOfAssertFactories_Test.java:90 | Two selected generic entry points that share a key fail the method pass, even when the values are equal. When every selected generic entry point extracts, the error is a duplicate key that two of them share. |
| Extractors.FieldFactoriesRejectDuplicateKeys | src/test/java/org/assertj/neo4j/api/Assertions_sync_with_InstanceOfAssertFactories_Test.java:121 | Two non-ignored field factories that share a key fail, even when the values are equal. When every non-synthetic field extracts, the error is a duplicate key that two factories share. |
| Extractors.MethodFactoriesRejectDuplicateKeys | src/test/java/org/assertj/neo4j/api/Assertions_sync_with_InstanceOfAssertFactories_Test.java:133 | Two non-ignored method factories that share a key fail, even when the values are equal. When every catalog method extracts, the error is a duplicate key that two factories share. |
| SyncCheck.IgnoredTypes | src/test/java/org/assertj/neo4j/api/Assertions_sync_with_InstanceOfAssertFactories_Test.java:45-50 | The ignore lists `FieldFactoriesIgnoredTypes` and `MethodFactoriesIgnoredTypes`. The field pass selects every `assertThat` except those returning `PropertyContainerAssert`, and ignores exactly the factories whose value is that class. The method pass selects every `assertThat` and ignores no factory. |
| SyncCheck.ContainsAllEntriesWithSameSize | src/test/java/org/assertj/neo4j/api/Assertions_sync_with_InstanceOfAssertFactories_Test.java:58-59 | Passes exactly when the two maps are equal. Otherwise it reports first the keys whose entry is missing. Only when no entry is missing, and `actual` has more keys, does it report the two sizes. |
| SyncCheck.CompareExtractions | src/test/java/org/assertj/neo4j/api/Assertions_sync_with_InstanceOfAssertFactories_Test.java:54-59 | What both test methods do: build the entry-point map, then the factory map, then compare. It passes exactly when both are built and equal. A failure building either map is the result, the entry-point map's first. When both are built, the result is `ContainsAllEntriesWithSameSize`'s verdict: missing keys first, then sizes. |
| SyncCheck.EachNeo4jAssertionShouldHaveAnInstanceOfAssertFactoryStaticField | src/test/java/org/assertj/neo4j/api/Assertions_sync_with_InstanceOfAssertFactories_Test.java:52-60 | Passes exactly when both maps are built and are equal. A failure building the entry-point map is the test's failure, then a failure building the field-factory map. When both are built, the outcome is `ContainsAllEntriesWithSameSize`'s verdict on them. |
| SyncCheck.EachNeo4jAssertionWithTypeParametersShouldHaveAnInstanceOfAssertFactoryStaticMethod | src/test/java/org/assertj/neo4j/api/Assertions_sync_with_InstanceOfAssertFactories_Test.java:62-70 | Passes exactly when both maps are built and are equal. A failure building the generic entry-point map is the test's failure, then a failure building the method-factory map. When both are built, the outcome is `ContainsAllEntriesWithSameSize`'s verdict on them. |
| Scenarios.ExactCorrespondencePasses | src/test/java/org/assertj/neo4j/api/Assertions_sync_with_InstanceOfAssertFactories_Test.java:52-60 | Node and Relationship entry points against exactly those two field factories pass. |
| Scenarios.MissingFactoryIsReported | src/test/java/org/assertj/neo4j/api/Assertions_sync_with_InstanceOfAssertFactories_Test.java:58 | Without the Relationship field, the test reports exactly the key Relationship as missing. |
| Scenarios.ExtraFactoryIsReported | src/test/java/org/assertj/neo4j/api/Assertions_sync_with_InstanceOfAssertFactories_Test.java:59 | An unused Path field fails on size: 2 expected, 3 found. |
| Scenarios.IgnoredEntryPointAndSyntheticFieldPass | src/test/java/org/assertj/neo4j/api/Assertions_sync_with_InstanceOfAssertFactories_Test.java:45-47 | The PropertyContainerAssert entry point needs no factory, and a synthetic field is not a factory. |
| Scenarios.DuplicateEntryPointsFail | src/test/java/org/assertj/neo4j/api/Assertions_sync_with_InstanceOfAssertFactories_Test.java:76 | Two entry points for Node fail with a duplicate key, even though a Node factory exists. |
| Scenarios.TwoBoundsAreRejected | src/test/java/org/assertj/neo4j/api/Assertions_sync_with_InstanceOfAssertFactories_Test.java:158-159 | A type variable with two bounds fails to normalise. |
| Scenarios.GenericEntryPointMatchesFactoryMethod | src/test/java/org/assertj/neo4j/api/Assertions_sync_with_InstanceOfAssertFactories_Test.java:62-70 | A generic `assertThat` for `Iterable` matches the `iterable` factory method once both are normalised. The plain Node entry point is not part of this pass. |

## Left out

- Reflection itself (`getMethods`, `getFields`, `getGenericType`, `isSynthetic`, `isPrimitive`): its results are the input records.
- The AssertJ and JUnit runtime (`then`, `asInstanceOf`, `returns`, `hasSize`): each assertion is a success or an `Error` value. Failure messages are not modelled.
- The JaCoCo `$jacocoData` field is just a field whose synthetic flag is set.
- `Assertions_assertThat_with_Path_Test.java`: a Mockito smoke test that delegates to classes that are not part of this model. It has no logic of its own.
- The `not` helper is plain negation and is inlined.
- `ParameterizedType.getRawType` is modelled as a class, because the JDK always returns a `Class`. After normalisation the keys and values are always classes or other types.
- `Type.equals` becomes structural equality on `Reflection.Type`. For a `Class` this matches Java, where each class has one object. The JDK's parameterized and generic-array types also compare structurally. A type variable compares by its declaration and name, but `TypeVar` keeps only the name and bounds. `OtherType` reduces generic-array and wildcard types to a name, so two such types with the same name count as equal. Keys and values are normalised first, so of these only `OtherType` can reach a map.
- `TypeVariable.getBounds()` returns `[Object]` for a variable with no declared bound, and `TypeVar` values are written that way. A `TypeVar` with no bounds, which Java never reports, fails to normalise.
- Method records have no synthetic flag: the catalog's methods are never filtered for it.
- Running the check twice gives the same result. This holds because every member is a pure function, so no lemma states it.
- Streams.ToMap: on failure it states only that the reported key is one of the entries' keys, not that it is the first key met twice. `Streams.CollectIntoFirstError` states that for the element-by-element run that the test uses.
