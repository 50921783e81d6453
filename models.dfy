/** The message record and its header accessors (pkg/message/models.go). */
module Models {

  datatype Option<T> = None | Some(value: T)

  /**
   * A Message as a Go value. `headers` is `None` when the Go map is nil.
   * Stores keep and return these values; a Go copy of the struct would share
   * its header map with the original, which an immutable value does not model.
   */
  datatype Message = Message(id: string, content: string, headers: Option<map<string, string>>)
  {
    /** What every read sees: a nil header map reads as the empty map. */
    function HeaderMap(): map<string, string> {
      match headers
      case None => map[]
      case Some(h) => h
    }

    /** GetHeader: the value and a presence flag; never fails, even on a nil map. */
    function GetHeader(key: string): (r: (string, bool))
      ensures r.1 <==> key in HeaderMap()
      ensures r.1 ==> r.0 == HeaderMap()[key]
      ensures !r.1 ==> r.0 == ""
      ensures headers.None? ==> r == ("", false)
    {
      if headers.None? then ("", false)
      else if key in headers.value then (headers.value[key], true)
      else ("", false)
    }

    /** The message AddHeader leaves behind: the map is allocated if nil, then `key` is set. */
    function WithHeader(key: string, value: string): (r: Message)
      ensures r.id == id && r.content == content && r.headers.Some?
      ensures r.GetHeader(key) == (value, true)
      ensures forall k :: k != key ==> r.GetHeader(k) == GetHeader(k)
      ensures r.HeaderMap().Keys == HeaderMap().Keys + {key}
    {
      var h := if headers.None? then map[] else headers.value;
      Message(id, content, Some(h[key := value]))
    }

    /** The message RemoveHeader leaves behind: a nil map stays nil, otherwise `key` goes. */
    function WithoutHeader(key: string): (r: Message)
      ensures headers.None? ==> r == this
      ensures r.id == id && r.content == content && r.headers.Some? == headers.Some?
      ensures r.GetHeader(key) == ("", false)
      ensures forall k :: k != key ==> r.GetHeader(k) == GetHeader(k)
      ensures r.HeaderMap().Keys == HeaderMap().Keys - {key}
    {
      if headers.None? then this else Message(id, content, Some(headers.value - {key}))
    }
  }

  /** Removing a header twice leaves the same message as removing it once. */
  lemma RemoveHeaderIdempotent(m: Message, key: string)
    ensures m.WithoutHeader(key).WithoutHeader(key) == m.WithoutHeader(key)
  {
    if m.headers.Some? {
      assert m.headers.value - {key} - {key} == m.headers.value - {key};
    }
  }

  /** Adding a header and then removing it restores every read of the original message. */
  lemma AddThenRemoveHeader(m: Message, key: string, value: string)
    requires key !in m.HeaderMap()
    ensures m.WithHeader(key, value).WithoutHeader(key).HeaderMap() == m.HeaderMap()
  {
  }

  /**
   * An addressable Message variable: the receiver `*Message` of the header
   * methods, which change its header map in place.
   */
  class MessageVar {
    var id: string
    var content: string
    var headers: Option<map<string, string>>

    function Value(): Message
      reads this
    {
      Message(id, content, headers)
    }

    constructor (m: Message)
      ensures Value() == m
    {
      id, content, headers := m.id, m.content, m.headers;
    }

    /** AddHeader: insert or overwrite `key`, allocating the map first when it is nil. */
    method AddHeader(key: string, value: string)
      modifies this
      ensures Value() == old(Value()).WithHeader(key, value)
    {
      if headers.None? {
        headers := Some(map[]);
      }
      headers := Some(headers.value[key := value]);
    }

    /** RemoveHeader: delete `key`; a no-op on a nil map or an absent key. */
    method RemoveHeader(key: string)
      modifies this
      ensures Value() == old(Value()).WithoutHeader(key)
    {
      if headers.Some? {
        headers := Some(headers.value - {key});
      }
    }
  }
}
