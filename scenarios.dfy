/** Small facades and catalogs on which the outcome of the check is worked out
    in full: the cases the check is meant to tell apart. */
module Scenarios {
  import opened Reflection
  import opened Failures
  import opened Normalizer
  import opened Streams
  import opened Extractors
  import opened SyncCheck

  const Node := JClass("Node", false)
  const NodeAssert := JClass("NodeAssert", false)
  const Relationship := JClass("Relationship", false)
  const RelationshipAssert := JClass("RelationshipAssert", false)
  const Path := JClass("Path", false)
  const PathAssert := JClass("PathAssert", false)
  const PropertyContainer := JClass("PropertyContainer", false)

  /** `public static OutputAssert assertThat(Input actual)`. */
  function EntryPoint(input: JClass, output: JClass): Method {
    Method("assertThat", 0, [ClassType(input)], output, ClassType(output))
  }

  /** `public static final InstanceOfAssertFactory<Input, OutputAssert> NAME`. */
  function FactoryField(input: JClass, output: JClass): Field {
    Field(false, Parameterized(InstanceOfAssertFactory, [ClassType(input), ClassType(output)]))
  }

  const NodeEntry: Entry := (ClassType(Node), ClassType(NodeAssert))
  const RelationshipEntry: Entry := (ClassType(Relationship), ClassType(RelationshipAssert))
  const PathEntry: Entry := (ClassType(Path), ClassType(PathAssert))

  const EntryPoints := [EntryPoint(Node, NodeAssert), EntryPoint(Relationship, RelationshipAssert)]
  const NodeAndRelationship := map[NodeEntry.0 := NodeEntry.1, RelationshipEntry.0 := RelationshipEntry.1]

  /** The stream of two elements that both reach the collector, with different keys. */
  lemma CollectTwo<T>(x0: T, x1: T, step: T -> Result<Option<Entry>>, e0: Entry, e1: Entry)
    requires step(x0) == Ok(Some(e0)) && step(x1) == Ok(Some(e1)) && e0.0 != e1.0
    ensures Collect([x0, x1], step) == Ok(map[e0.0 := e0.1, e1.0 := e1.1])
  {
    var first := map[e0.0 := e0.1];
    assert [x0, x1][0] == x0 && [x0, x1][1..] == [x1];
    assert [x1][0] == x1 && [x1][1..] == [];
    assert Accumulate(first, e1) == Ok(map[e0.0 := e0.1, e1.0 := e1.1]);
    assert CollectInto([x1], step, first) == Ok(map[e0.0 := e0.1, e1.0 := e1.1]);
    assert CollectInto([x0, x1], step, map[]) == CollectInto([x1], step, first);
  }

  /** A plain entry point with a class parameter that is not primitive reaches the collector as it is. */
  lemma EntryPointStep(input: JClass, output: JClass)
    requires !input.isPrimitive
    ensures FieldPassStep(EntryPoint(input, output)) == Ok(Some((ClassType(input), ClassType(output))))
  {
  }

  lemma EntryPointsAllSelected()
    ensures FindAssertThatMethods(EntryPoints, FieldFactoriesIgnoredTypes) == EntryPoints
  {
    FilterKeepsAll(EntryPoints, IsAssertThatFor(FieldFactoriesIgnoredTypes));
  }

  lemma EntryPointsOfNodeAndRelationship()
    ensures FindAssertThatParameterAndReturnTypes(EntryPoints, FieldFactoriesIgnoredTypes) == Ok(NodeAndRelationship)
  {
    EntryPointsAllSelected();
    EntryPointStep(Node, NodeAssert);
    EntryPointStep(Relationship, RelationshipAssert);
    CollectTwo(EntryPoints[0], EntryPoints[1], FieldPassStep, NodeEntry, RelationshipEntry);
  }

  lemma FieldsOfNodeAndRelationship()
    ensures FindFieldFactoryTypes([FactoryField(Node, NodeAssert), FactoryField(Relationship, RelationshipAssert)],
                                  FieldFactoriesIgnoredTypes) == Ok(NodeAndRelationship)
  {
    CollectTwo(FactoryField(Node, NodeAssert), FactoryField(Relationship, RelationshipAssert),
               FieldFactoryStepFor(FieldFactoriesIgnoredTypes), NodeEntry, RelationshipEntry);
  }

  /** Entry points and field factories for exactly Node and Relationship agree. */
  lemma ExactCorrespondencePasses()
    ensures EachNeo4jAssertionShouldHaveAnInstanceOfAssertFactoryStaticField(
              EntryPoints,
              [FactoryField(Node, NodeAssert), FactoryField(Relationship, RelationshipAssert)]) == Pass
  {
    EntryPointsOfNodeAndRelationship();
    FieldsOfNodeAndRelationship();
  }

  /** The stream of one element that reaches the collector. */
  lemma CollectOne<T>(x: T, step: T -> Result<Option<Entry>>, e: Entry)
    requires step(x) == Ok(Some(e))
    ensures Collect([x], step) == Ok(map[e.0 := e.1])
  {
    assert [x][0] == x && [x][1..] == [];
    assert CollectInto([x], step, map[]) == CollectInto([], step, map[e.0 := e.1]);
  }

  /** A first element every stage drops, then one that reaches the collector. */
  lemma CollectDroppedThenOne<T>(x0: T, x1: T, step: T -> Result<Option<Entry>>, e: Entry)
    requires step(x0) == Ok(None) && step(x1) == Ok(Some(e))
    ensures Collect([x0, x1], step) == Ok(map[e.0 := e.1])
  {
    assert [x0, x1][0] == x0 && [x0, x1][1..] == [x1];
    assert [x1][0] == x1 && [x1][1..] == [];
    assert CollectInto([x1], step, map[]) == CollectInto([], step, map[e.0 := e.1]);
  }

  /** Three elements that reach the collector, with three different keys. */
  lemma CollectThree<T>(x0: T, x1: T, x2: T, step: T -> Result<Option<Entry>>, e0: Entry, e1: Entry, e2: Entry)
    requires step(x0) == Ok(Some(e0)) && step(x1) == Ok(Some(e1)) && step(x2) == Ok(Some(e2))
    requires e0.0 != e1.0 && e0.0 != e2.0 && e1.0 != e2.0
    ensures Collect([x0, x1, x2], step) == Ok(map[e0.0 := e0.1, e1.0 := e1.1, e2.0 := e2.1])
  {
    var m1 := map[e0.0 := e0.1];
    var m2 := map[e0.0 := e0.1, e1.0 := e1.1];
    assert [x0, x1, x2][0] == x0 && [x0, x1, x2][1..] == [x1, x2];
    assert [x1, x2][0] == x1 && [x1, x2][1..] == [x2];
    assert [x2][0] == x2 && [x2][1..] == [];
    assert Accumulate(m2, e2) == Ok(map[e0.0 := e0.1, e1.0 := e1.1, e2.0 := e2.1]);
    assert CollectInto([x2], step, m2) == CollectInto([], step, map[e0.0 := e0.1, e1.0 := e1.1, e2.0 := e2.1]);
    assert Accumulate(m1, e1) == Ok(m2);
    assert CollectInto([x1, x2], step, m1) == CollectInto([x2], step, m2);
    assert CollectInto([x0, x1, x2], step, map[]) == CollectInto([x1, x2], step, m1);
  }

  /** Two elements whose entries share a key: the second one is the duplicate. */
  lemma CollectSameKeyTwice<T>(x0: T, x1: T, step: T -> Result<Option<Entry>>, e0: Entry, e1: Entry)
    requires step(x0) == Ok(Some(e0)) && step(x1) == Ok(Some(e1)) && e0.0 == e1.0
    ensures Collect([x0, x1], step) == Err(DuplicateKey(e0.0))
  {
    assert [x0, x1][0] == x0 && [x0, x1][1..] == [x1];
    assert [x1][0] == x1 && [x1][1..] == [];
    assert CollectInto([x0, x1], step, map[]) == CollectInto([x1], step, map[e0.0 := e0.1]);
  }

  lemma FactoryFieldStep(input: JClass, output: JClass)
    requires output != PropertyContainerAssert
    ensures FieldFactoryStepFor(FieldFactoriesIgnoredTypes)(FactoryField(input, output))
         == Ok(Some((ClassType(input), ClassType(output))))
  {
  }

  lemma FieldOfNode()
    ensures FindFieldFactoryTypes([FactoryField(Node, NodeAssert)], FieldFactoriesIgnoredTypes)
         == Ok(map[NodeEntry.0 := NodeEntry.1])
  {
    FactoryFieldStep(Node, NodeAssert);
    CollectOne(FactoryField(Node, NodeAssert), FieldFactoryStepFor(FieldFactoriesIgnoredTypes), NodeEntry);
  }

  lemma RelationshipIsMissing()
    ensures MissingKeys(map[NodeEntry.0 := NodeEntry.1], NodeAndRelationship) == {ClassType(Relationship)}
  {
    assert ClassType(Relationship) in MissingKeys(map[NodeEntry.0 := NodeEntry.1], NodeAndRelationship);
  }

  /** Without the Relationship field, the one missing key is Relationship. */
  lemma MissingFactoryIsReported()
    ensures EachNeo4jAssertionShouldHaveAnInstanceOfAssertFactoryStaticField(
              EntryPoints, [FactoryField(Node, NodeAssert)]) == Fail(MissingEntries({ClassType(Relationship)}))
  {
    EntryPointsOfNodeAndRelationship();
    FieldOfNode();
    RelationshipIsMissing();
  }

  const ThreeFactories := map[NodeEntry.0 := NodeEntry.1, RelationshipEntry.0 := RelationshipEntry.1, PathEntry.0 := PathEntry.1]

  lemma FieldsOfThree()
    ensures FindFieldFactoryTypes([FactoryField(Node, NodeAssert), FactoryField(Relationship, RelationshipAssert),
                                   FactoryField(Path, PathAssert)], FieldFactoriesIgnoredTypes) == Ok(ThreeFactories)
  {
    FactoryFieldStep(Node, NodeAssert);
    FactoryFieldStep(Relationship, RelationshipAssert);
    FactoryFieldStep(Path, PathAssert);
    CollectThree(FactoryField(Node, NodeAssert), FactoryField(Relationship, RelationshipAssert), FactoryField(Path, PathAssert),
                 FieldFactoryStepFor(FieldFactoriesIgnoredTypes), NodeEntry, RelationshipEntry, PathEntry);
  }

  lemma ThreeContainsTwo()
    ensures MissingKeys(ThreeFactories, NodeAndRelationship) == {}
    ensures |ThreeFactories| == 3 && |NodeAndRelationship| == 2
  {
    assert ThreeFactories.Keys == {ClassType(Node), ClassType(Relationship), ClassType(Path)};
    assert NodeAndRelationship.Keys == {ClassType(Node), ClassType(Relationship)};
  }

  /** An unused Path field is caught by the size comparison. */
  lemma ExtraFactoryIsReported()
    ensures EachNeo4jAssertionShouldHaveAnInstanceOfAssertFactoryStaticField(
              EntryPoints,
              [FactoryField(Node, NodeAssert), FactoryField(Relationship, RelationshipAssert),
               FactoryField(Path, PathAssert)]) == Fail(SizeMismatch(2, 3))
  {
    EntryPointsOfNodeAndRelationship();
    FieldsOfThree();
    ThreeContainsTwo();
  }

  lemma NodeEntryPoint()
    ensures FindAssertThatParameterAndReturnTypes([EntryPoint(Node, NodeAssert)], FieldFactoriesIgnoredTypes)
         == Ok(map[NodeEntry.0 := NodeEntry.1])
  {
    FilterKeepsAll([EntryPoint(Node, NodeAssert)], IsAssertThatFor(FieldFactoriesIgnoredTypes));
    EntryPointStep(Node, NodeAssert);
    CollectOne(EntryPoint(Node, NodeAssert), FieldPassStep, NodeEntry);
  }

  lemma NodeAndPropertyContainerEntryPoints()
    ensures FindAssertThatParameterAndReturnTypes(
              [EntryPoint(Node, NodeAssert), EntryPoint(PropertyContainer, PropertyContainerAssert)], FieldFactoriesIgnoredTypes)
         == Ok(map[NodeEntry.0 := NodeEntry.1])
  {
    OnlyNodeIsSelected();
    NodeEntryPointCollected();
  }

  lemma OnlyNodeIsSelected()
    ensures FindAssertThatMethods([EntryPoint(Node, NodeAssert), EntryPoint(PropertyContainer, PropertyContainerAssert)], FieldFactoriesIgnoredTypes)
         == [EntryPoint(Node, NodeAssert)]
  {
    var node := [EntryPoint(Node, NodeAssert)];
    var ignored := [EntryPoint(PropertyContainer, PropertyContainerAssert)];
    var p := IsAssertThatFor(FieldFactoriesIgnoredTypes);
    FilterConcat(node, ignored, p);
    FilterKeepsAll(node, p);
    FilterDropsAll(ignored, p);
    assert node + ignored == [EntryPoint(Node, NodeAssert), EntryPoint(PropertyContainer, PropertyContainerAssert)];
  }

  lemma NodeEntryPointCollected()
    ensures Collect([EntryPoint(Node, NodeAssert)], FieldPassStep) == Ok(map[NodeEntry.0 := NodeEntry.1])
  {
    EntryPointStep(Node, NodeAssert);
    CollectOne(EntryPoint(Node, NodeAssert), FieldPassStep, NodeEntry);
  }

  lemma SyntheticAndNodeFields()
    ensures FindFieldFactoryTypes([Field(true, ClassType(JClass("[Z", false))), FactoryField(Node, NodeAssert)], FieldFactoriesIgnoredTypes)
         == Ok(map[NodeEntry.0 := NodeEntry.1])
  {
    FactoryFieldStep(Node, NodeAssert);
    CollectDroppedThenOne(Field(true, ClassType(JClass("[Z", false))), FactoryField(Node, NodeAssert),
                          FieldFactoryStepFor(FieldFactoriesIgnoredTypes), NodeEntry);
  }

  /** The entry point returning the ignored PropertyContainerAssert needs no
      factory, and a synthetic `$jacocoData` field is not a factory. */
  lemma IgnoredEntryPointAndSyntheticFieldPass()
    ensures EachNeo4jAssertionShouldHaveAnInstanceOfAssertFactoryStaticField(
              [EntryPoint(Node, NodeAssert), EntryPoint(PropertyContainer, PropertyContainerAssert)],
              [Field(true, ClassType(JClass("[Z", false))), FactoryField(Node, NodeAssert)]) == Pass
  {
    NodeAndPropertyContainerEntryPoints();
    SyntheticAndNodeFields();
  }

  /** Two entry points for the same input type are a duplicate key, even
      though a factory exists for it. */
  lemma DuplicateEntryPointsFail()
    ensures EachNeo4jAssertionShouldHaveAnInstanceOfAssertFactoryStaticField(
              [EntryPoint(Node, NodeAssert), EntryPoint(Node, PathAssert)],
              [FactoryField(Node, NodeAssert)]) == Fail(DuplicateKey(ClassType(Node)))
  {
    DuplicateNodeEntryPoints();
  }

  lemma DuplicateNodeEntryPoints()
    ensures FindAssertThatParameterAndReturnTypes([EntryPoint(Node, NodeAssert), EntryPoint(Node, PathAssert)], FieldFactoriesIgnoredTypes)
         == Err(DuplicateKey(ClassType(Node)))
  {
    var es := [EntryPoint(Node, NodeAssert), EntryPoint(Node, PathAssert)];
    FilterKeepsAll(es, IsAssertThatFor(FieldFactoriesIgnoredTypes));
    assert FindAssertThatMethods(es, FieldFactoriesIgnoredTypes) == es;
    NodeEntryPointsCollide();
  }

  lemma NodeEntryPointsCollide()
    ensures Collect([EntryPoint(Node, NodeAssert), EntryPoint(Node, PathAssert)], FieldPassStep)
         == Err(DuplicateKey(ClassType(Node)))
  {
    EntryPointStep(Node, NodeAssert);
    EntryPointStep(Node, PathAssert);
    CollectSameKeyTwice(EntryPoint(Node, NodeAssert), EntryPoint(Node, PathAssert), FieldPassStep,
                        NodeEntry, (ClassType(Node), ClassType(PathAssert)));
  }

  /** A type variable with two bounds is rejected rather than resolved to its first. */
  lemma TwoBoundsAreRejected()
    ensures Normalize(TypeVar("T", [ClassType(Node), ClassType(Relationship)]))
         == Err(MalformedType(TypeVar("T", [ClassType(Node), ClassType(Relationship)])))
  {
  }

  const Iterable := JClass("Iterable", false)
  const IterableAssert := JClass("IterableAssert", false)

  /** `<ACTUAL extends Iterable<Node>> IterableAssert<Node> assertThat(ACTUAL)`. */
  const GenericEntryPoint :=
    Method("assertThat", 1, [TypeVar("ACTUAL", [Parameterized(Iterable, [ClassType(Node)])])],
           IterableAssert, Parameterized(IterableAssert, [ClassType(Node)]))

  /** `<E> InstanceOfAssertFactory<Iterable<E>, IterableAssert<E>> iterable(Class<E>)`. */
  const IterableFactory :=
    Method("iterable", 1, [Parameterized(JClass("Class", false), [TypeVar("E", [ClassType(Object)])])], InstanceOfAssertFactory,
           Parameterized(InstanceOfAssertFactory,
             [Parameterized(Iterable, [TypeVar("E", [ClassType(Object)])]), Parameterized(IterableAssert, [TypeVar("E", [ClassType(Object)])])]))

  const IterableEntry: Entry := (ClassType(Iterable), ClassType(IterableAssert))

  lemma GenericEntryPoints()
    ensures FindTypedAssertThatParameterAndReturnTypes([EntryPoint(Node, NodeAssert), GenericEntryPoint], MethodFactoriesIgnoredTypes)
         == Ok(map[IterableEntry.0 := IterableEntry.1])
  {
    var es := [EntryPoint(Node, NodeAssert), GenericEntryPoint];
    FilterKeepsAll(es, IsAssertThatFor(MethodFactoriesIgnoredTypes));
    assert TypedPassStep(es[0]) == Ok(None);
    assert Normalize(Parameterized(Iterable, [ClassType(Node)])) == Ok(ClassType(Iterable));
    assert Normalize(GenericEntryPoint.genericParameterTypes[0]) == Ok(ClassType(Iterable));
    assert Normalize(GenericEntryPoint.genericReturnType) == Ok(ClassType(IterableAssert));
    assert ToParameterAndReturnTypeEntry(GenericEntryPoint) == Ok(IterableEntry);
    assert TypedPassStep(es[1]) == Ok(Some(IterableEntry));
    CollectDroppedThenOne(es[0], es[1], TypedPassStep, IterableEntry);
  }

  /** The generic entry point for `Iterable` matches the `iterable` factory
      method once both sides are normalised; the plain Node entry point is not
      part of this pass. */
  lemma GenericEntryPointMatchesFactoryMethod()
    ensures EachNeo4jAssertionWithTypeParametersShouldHaveAnInstanceOfAssertFactoryStaticMethod(
              [EntryPoint(Node, NodeAssert), GenericEntryPoint], [IterableFactory]) == Pass
  {
    GenericEntryPoints();
    assert MethodFactoryStepFor(MethodFactoriesIgnoredTypes)(IterableFactory) == Ok(Some(IterableEntry));
    CollectOne(IterableFactory, MethodFactoryStepFor(MethodFactoriesIgnoredTypes), IterableEntry);
  }
}
