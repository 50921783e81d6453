/** The in-memory engine (pkg/message/MemoryMessageStore.go): one map from id to message. */
module MemoryEngine {
  import opened Models
  import opened MessageStore

  class MemoryMessageStore {
    var messages: map<string, Message>

    /** NewMemoryMessageStore: an empty map (its error result is always nil). */
    constructor ()
      ensures messages == map[]
    {
      messages := map[];
    }

    /** Add never fails: it stores under the argument `id` (not `message.id`), overwriting silently. */
    method Add(id: string, message: Message) returns (r: Outcome)
      modifies this
      ensures r == Pass
      ensures messages == old(messages)[id := message]
    {
      messages := messages[id := message];
      r := Pass;
    }

    /** Get: the stored message, or NotFound. */
    method Get(id: string) returns (r: Result<Message>)
      ensures r.Ok? <==> id in messages
      ensures r.Ok? ==> r.value == messages[id]
      ensures r.Err? ==> r.error == NotFound
    {
      if id !in messages {
        return Err(NotFound);
      }
      r := Ok(messages[id]);
    }

    /** Update: NotFound with the map unchanged, or a whole-message replace under `id`. */
    method Update(id: string, message: Message) returns (r: Outcome)
      modifies this
      ensures r == (if id in old(messages) then Pass else Fail(NotFound))
      ensures messages == if r.Pass? then old(messages)[id := message] else old(messages)
    {
      if id !in messages {
        return Fail(NotFound);
      }
      messages := messages[id := message];
      r := Pass;
    }

    /** Remove: NotFound with the map unchanged, or exactly `id` deleted. */
    method Remove(id: string) returns (r: Outcome)
      modifies this
      ensures r == (if id in old(messages) then Pass else Fail(NotFound))
      ensures messages == old(messages) - {id}
    {
      if id !in messages {
        return Fail(NotFound);
      }
      messages := messages - {id};
      r := Pass;
    }

    /** List: the current map itself, never an error. */
    method List() returns (r: Result<map<string, Message>>)
      ensures r == Ok(messages)
    {
      r := Ok(messages);
    }
  }
}
