/**
 * What every engine shares (pkg/message/messageStore.go): the error signals
 * and the result shapes of the five store operations. The operations
 * themselves are dispatched over the two engines in module Engines.
 */
module MessageStore {
  import opened Models

  /**
   * NotFound is the sentinel ErrMessageNotFound, which callers tell apart by
   * equality; StorageFailure is every other error an engine passes on
   * unchanged (driver, transaction or constraint errors).
   */
  datatype StoreError = NotFound | StorageFailure

  /** The `(value, error)` pair of Get and List: exactly one of the two is meaningful. */
  datatype Result<T> = Ok(value: T) | Err(error: StoreError)

  /** The bare `error` of Add, Update and Remove: nil is Pass. */
  datatype Outcome = Pass | Fail(error: StoreError)

  /**
   * Two messages every reader takes for the same one: equal content and equal
   * header maps once a nil map is read as empty (the id is the store's key).
   */
  predicate Matches(stored: Message, m: Message) {
    stored.content == m.content && stored.HeaderMap() == m.HeaderMap()
  }

  /** Matching is exactly agreement of content and of every header read. */
  lemma MatchesByReads(stored: Message, m: Message)
    ensures Matches(stored, m) <==>
      stored.content == m.content && forall k :: stored.GetHeader(k) == m.GetHeader(k)
  {
    if stored.content == m.content && forall k :: stored.GetHeader(k) == m.GetHeader(k) {
      forall k ensures k in stored.HeaderMap() <==> k in m.HeaderMap() {
        assert stored.GetHeader(k) == m.GetHeader(k);
      }
      forall k | k in stored.HeaderMap() ensures stored.HeaderMap()[k] == m.HeaderMap()[k] {
        assert stored.GetHeader(k) == m.GetHeader(k);
      }
    }
  }
}
