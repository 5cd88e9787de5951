/** The ways one run of the check can fail, in place of the exceptions and
    failed AssertJ assertions of the Java test. */
module Failures {
  import opened Reflection

  datatype Error =
    | MalformedType(variable: Type)               // a type variable without exactly one bound
    | WrongParameterCount(entryPoint: Method)       // an assertThat method without exactly one parameter
    | MalformedFactory(factoryType: Type)         // not InstanceOfAssertFactory<K, V>
    | DuplicateKey(key: Type)                     // Collectors.toMap met a key twice
    | MissingEntries(keys: set<Type>)             // containsAllEntriesOf failed for these keys
    | SizeMismatch(expected: nat, actual: nat)    // hasSameSizeAs failed

  datatype Result<+T> = Ok(value: T) | Err(error: Error) {
    predicate IsFailure() { Err? }
    function PropagateFailure<U>(): Result<U> requires Err? { Err(error) }
    function Extract(): T requires Ok? { value }
  }

  datatype Option<+T> = None | Some(value: T)

  /** The verdict of one test method. */
  datatype Outcome = Pass | Fail(error: Error)
}
