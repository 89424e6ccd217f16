/**
 * The exceptions the normalisation code raises, and the generators it is built from.
 */
module Errors {
  import opened Wrappers

  /**
   * The package's own processing exceptions (`MappingError`, `VersionError`
   * and `TimestampError` are subclasses of `ProcessingError`), its
   * `FilterConfigError`, and built-in Python exceptions by class name.
   */
  datatype Error =
    | ProcessingError
    | MappingError
    | VersionError
    | TimestampError
    | FilterConfigError
    | PyError(name: string)

  /** `isinstance(e, ProcessingError)`. */
  predicate IsProcessingError(e: Error)
  {
    e.ProcessingError? || e.MappingError? || e.VersionError? || e.TimestampError?
  }

  /**
   * What a consumer observes when it drains a Python generator: the items
   * yielded, in order, and the exception that ended it early, if any.
   */
  datatype Stream<T> = Stream(items: seq<T>, failure: Option<Error>)

  /** A generator that yields `items` and then finishes normally. */
  function Complete<T>(items: seq<T>): (s: Stream<T>)
    ensures s.items == items && s.failure == None
  {
    Stream(items, None)
  }

  /** Yield `items` first, then everything `rest` yields (`yield from`). */
  function Then<T>(items: seq<T>, rest: Stream<T>): (s: Stream<T>)
    ensures s.items == items + rest.items && s.failure == rest.failure
  {
    Stream(items + rest.items, rest.failure)
  }

  /** Yielding `a` and then `b` before `rest` is yielding `a + b` before it. */
  lemma ThenAssoc<T>(a: seq<T>, b: seq<T>, rest: Stream<T>)
    ensures Then(a, Then(b, rest)) == Then(a + b, rest)
  {
    assert a + (b + rest.items) == (a + b) + rest.items;
  }

  /** After yielding `x`, the stream's later items are those of `rest`, one place on. */
  lemma ThenOne<T>(x: T, rest: Stream<T>)
    ensures |Then([x], rest).items| == 1 + |rest.items|
    ensures Then([x], rest).items[0] == x
    ensures forall i | 0 < i <= |rest.items| :: Then([x], rest).items[i] == rest.items[i - 1]
  {
  }
}
