/**
  The slice of react-query's cache the components touch: one cached value per
  query key, read with `getQueryData` and replaced with `setQueryData`, and
  the way a mutation settles. Cancellation, invalidation and refetching
  belong to the library and are not modelled.
*/
module QueryCache {
  import opened Types

  /**
    A cached value: nothing yet, a page of records, or a value that has no
    `data` array and none of the page fields `next`, `prev` and `pages` (the
    optimistic patches pass such a value through untouched).
  */
  datatype Entry<T> = Empty | Paged(page: PagedData<T>) | Unpaged

  /** JavaScript truthiness of a cached value: anything but `undefined`. */
  predicate Truthy<T>(e: Entry<T>)
  {
    !e.Empty?
  }

  /**
    The value `onError` leaves in the cache: the snapshot when it is truthy
    (`if (context && context.previousX) setQueryData(key, context.previousX)`),
    else whatever is cached now.
  */
  function Rollback<T>(snapshot: Entry<T>, current: Entry<T>): (r: Entry<T>)
    ensures Truthy(snapshot) ==> r == snapshot
    ensures !Truthy(snapshot) ==> r == current
  {
    if Truthy(snapshot) then snapshot else current
  }

  /** How the server answered a mutation: success, or an error with its message. */
  datatype MutationOutcome = Succeeded | Failed(message: string)

  /** The cache entry of one query key. */
  class Cache<T> {
    var entry: Entry<T>

    constructor (initial: Entry<T>)
      ensures entry == initial
    {
      entry := initial;
    }

    method SetQueryData(value: Entry<T>)
      modifies this
      ensures entry == value
    {
      entry := value;
    }
  }
}
