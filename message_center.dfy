/** The admin message center: contact messages listed beside a detail pane.
    Opening an unread message marks it read; deleting asks for confirmation.
    The local list changes whatever the database answers. */
module MessageCenter {
  import opened Common

  /** A row of `contact_messages`. */
  datatype Message = Message(
    id: string,
    fullName: string,
    email: string,
    subject: string,
    body: string,
    isRead: bool,
    createdAt: string)

  datatype MessageWrite = MarkRead(id: string) | Delete(id: string)

  /** `prev.map(m => m.id === id ? { ...m, is_read: true } : m)`. */
  function MarkedRead(messages: seq<Message>, id: string): seq<Message>
  {
    seq(|messages|, i requires 0 <= i < |messages| =>
      if messages[i].id == id then messages[i].(isRead := true) else messages[i])
  }

  /** `prev.filter(m => m.id !== id)`. */
  function Without(messages: seq<Message>, id: string): (r: seq<Message>)
    ensures forall x :: x in r <==> x in messages && x.id != id
    ensures |r| <= |messages|
  {
    Filter(messages, (m: Message) => m.id != id)
  }

  /** No message is unread in `after` unless it was exactly so in `before`:
      the read flag never goes back to false. */
  predicate NeverUnreads(before: seq<Message>, after: seq<Message>)
  {
    forall m :: m in after && !m.isRead ==> m in before
  }

  /** Marking read sets the flag of the messages with that id, touches
      nothing else, and unreads nothing. */
  lemma MarkReadFrame(messages: seq<Message>, id: string)
    ensures |MarkedRead(messages, id)| == |messages|
    ensures forall i :: 0 <= i < |messages| && messages[i].id == id ==>
      MarkedRead(messages, id)[i] == messages[i].(isRead := true)
    ensures forall i :: 0 <= i < |messages| && messages[i].id != id ==>
      MarkedRead(messages, id)[i] == messages[i]
    ensures NeverUnreads(messages, MarkedRead(messages, id))
  {
    var r := MarkedRead(messages, id);
    forall m | m in r && !m.isRead ensures m in messages {
      var i :| 0 <= i < |r| && r[i] == m;
      assert m == messages[i];
    }
  }

  /** Marking the same message read again changes nothing. */
  lemma MarkReadIdempotent(messages: seq<Message>, id: string)
    ensures MarkedRead(MarkedRead(messages, id), id) == MarkedRead(messages, id)
  {
  }

  /** Deleting unreads nothing. */
  lemma DeleteNeverUnreads(messages: seq<Message>, id: string)
    ensures NeverUnreads(messages, Without(messages, id))
  {
  }

  class Center {
    var messages: seq<Message>
    var loading: bool
    var selected: Option<Message>

    constructor ()
      ensures messages == [] && loading && selected.None?
    {
      messages, loading, selected := [], true, None;
    }

    /** `fetchMessages` after the query: returned rows replace the list. */
    method ApplyFetch(data: Option<seq<Message>>)
      modifies this
      ensures data.Some? ==> messages == data.value
      ensures data.None? ==> messages == old(messages)
      ensures !loading && selected == old(selected)
    {
      if data.Some? {
        messages := data.value;
      }
      loading := false;
    }

    /** `openMessage`: the message is selected as it was passed, and an unread
        one is marked read in the list. */
    method OpenMessage(msg: Message) returns (w: Option<MessageWrite>)
      modifies this
      ensures selected == Some(msg)
      ensures msg.isRead ==> w.None? && messages == old(messages)
      ensures !msg.isRead ==> w == Some(MarkRead(msg.id)) && messages == MarkedRead(old(messages), msg.id)
      ensures NeverUnreads(old(messages), messages)
      ensures loading == old(loading)
    {
      selected := Some(msg);
      if msg.isRead {
        return None;
      }
      w := Some(MarkRead(msg.id));
      MarkReadFrame(messages, msg.id);
      messages := MarkedRead(messages, msg.id);
    }

    /** `handleDelete`: nothing happens unless the admin confirms. */
    method HandleDelete(id: string, confirmed: bool) returns (w: Option<MessageWrite>)
      modifies this
      ensures !confirmed ==> w.None? && messages == old(messages) && selected == old(selected)
      ensures confirmed ==> w == Some(Delete(id)) && messages == Without(old(messages), id)
      ensures confirmed && old(selected).Some? && old(selected).value.id == id ==> selected.None?
      ensures !(confirmed && old(selected).Some? && old(selected).value.id == id) ==> selected == old(selected)
      ensures NeverUnreads(old(messages), messages)
      ensures loading == old(loading)
    {
      if !confirmed {
        return None;
      }
      w := Some(Delete(id));
      messages := Without(messages, id);
      if selected.Some? && selected.value.id == id {
        selected := None;
      }
    }
  }
}
