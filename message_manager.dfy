/**
 * The descriptor registry: registering a forwarded message (by hand or
 * automatically from the origin channel) with a duplicate check on its
 * identity, and deleting a descriptor by index.
 */
module Messages {
  import opened Wrappers
  import opened Model

  /** The interval a hand-forwarded message gets (10 minutes). */
  const SharedInterval := 600
  /** The interval a message detected from the origin channel gets (1 minute). */
  const AutoInterval := 60

  datatype AddReply = NotFromChannel | AlreadyRegistered | Added
  datatype DeleteReply = Removed(messageId: MessageId) | OutOfRange

  /** `any(m["from_chat_id"] == chat and m["message_id"] == mid for m in mensajes)` */
  predicate IsRegistered(msgs: seq<Descriptor>, chat: ChatId, mid: MessageId) {
    exists i :: 0 <= i < |msgs| && msgs[i].fromChatId == chat && msgs[i].messageId == mid
  }

  /** No two descriptors share (from_chat_id, message_id). */
  ghost predicate UniqueIdentities(msgs: seq<Descriptor>) {
    forall i, j :: 0 <= i < j < |msgs| ==> Identity(msgs[i]) != Identity(msgs[j])
  }

  /** The descriptor a registration appends: every destination, active, never sent yet. */
  function NewDescriptor(chat: ChatId, mid: MessageId, interval: int): (d: Descriptor)
    ensures Identity(d) == (chat, mid)
    ensures d.interval == Some(interval) && d.destAll == Some(true) && d.active == Some(true)
    ensures d.sendCount == Some(0)
    ensures d.id.None? && d.intervalSeconds.None? && d.destList.None? && d.deleteAfter.None?
  {
    Descriptor(chat, mid, None, Some(interval), None, Some(true), None, Some(true), Some(0), None)
  }

  /** The registry after a registration that was not rejected. */
  function Register(msgs: seq<Descriptor>, chat: ChatId, mid: MessageId, interval: int): seq<Descriptor> {
    msgs + [NewDescriptor(chat, mid, interval)]
  }

  /** Registering an identity that is not yet present keeps identities unique, and makes it present. */
  lemma RegisterKeepsUnique(msgs: seq<Descriptor>, chat: ChatId, mid: MessageId, interval: int)
    requires UniqueIdentities(msgs) && !IsRegistered(msgs, chat, mid)
    ensures UniqueIdentities(Register(msgs, chat, mid, interval))
    ensures IsRegistered(Register(msgs, chat, mid, interval), chat, mid)
  {
    var r := Register(msgs, chat, mid, interval);
    forall i, j | 0 <= i < j < |r| ensures Identity(r[i]) != Identity(r[j]) {
      if j == |msgs| {
        assert r[i] == msgs[i];
      }
    }
    assert r[|msgs|].fromChatId == chat && r[|msgs|].messageId == mid;
  }

  /** `list.pop(index)` for 0 <= index < len: the element at `index` is gone, the rest keep their order. */
  function RemoveAt<T>(s: seq<T>, index: nat): (r: seq<T>)
    requires index < |s|
    ensures |r| == |s| - 1
    ensures forall k :: 0 <= k < index ==> r[k] == s[k]
    ensures forall k :: index <= k < |r| ==> r[k] == s[k + 1]
  {
    s[..index] + s[index + 1..]
  }

  /** Removing a descriptor keeps identities unique, and the removed identity is no longer registered. */
  lemma RemoveKeepsUnique(msgs: seq<Descriptor>, index: nat)
    requires UniqueIdentities(msgs) && index < |msgs|
    ensures UniqueIdentities(RemoveAt(msgs, index))
    ensures !IsRegistered(RemoveAt(msgs, index), msgs[index].fromChatId, msgs[index].messageId)
  {
    var r := RemoveAt(msgs, index);
    forall i, j | 0 <= i < j < |r| ensures Identity(r[i]) != Identity(r[j]) {
      var i' := if i < index then i else i + 1;
      var j' := if j < index then j else j + 1;
      assert r[i] == msgs[i'] && r[j] == msgs[j'];
    }
    forall k | 0 <= k < |r| ensures Identity(r[k]) != Identity(msgs[index]) {
      var k' := if k < index then k else k + 1;
      assert r[k] == msgs[k'];
    }
  }

  /**
   * The shared registration path. `origin` is the id of the chat the message
   * was forwarded from (None when it was not forwarded from a chat); a falsy
   * id (absent or 0) is rejected before anything is loaded.
   */
  method AddMessage(store: Store, origin: Option<ChatId>, mid: MessageId, interval: int) returns (reply: AddReply)
    modifies store
    ensures (origin.None? || origin == Some(0)) ==> reply == NotFromChannel && unchanged(store)
    ensures origin.Some? && origin != Some(0) && IsRegistered(old(store.messages), origin.value, mid) ==>
      reply == AlreadyRegistered && unchanged(store)
    ensures origin.Some? && origin != Some(0) && !IsRegistered(old(store.messages), origin.value, mid) ==>
      reply == Added &&
      store.messages == Register(old(store.messages), origin.value, mid, interval) &&
      store.messageSaves == old(store.messageSaves) + 1 &&
      store.config == old(store.config) && store.configSaves == old(store.configSaves)
  {
    if origin.None? || origin.value == 0 {
      return NotFromChannel;
    }
    var chat := origin.value;
    var msgs := store.messages;
    if IsRegistered(msgs, chat, mid) {
      return AlreadyRegistered;
    }
    msgs := msgs + [NewDescriptor(chat, mid, interval)];
    store.SaveMessages(msgs);
    reply := Added;
  }

  /** add_shared_message: a message the admin forwarded by hand, with a 600-second interval. */
  method AddSharedMessage(store: Store, origin: Option<ChatId>, mid: MessageId) returns (reply: AddReply)
    modifies store
    ensures (origin.None? || origin == Some(0)) ==> reply == NotFromChannel && unchanged(store)
    ensures origin.Some? && origin != Some(0) && IsRegistered(old(store.messages), origin.value, mid) ==>
      reply == AlreadyRegistered && unchanged(store)
    ensures origin.Some? && origin != Some(0) && !IsRegistered(old(store.messages), origin.value, mid) ==>
      reply == Added &&
      store.messages == Register(old(store.messages), origin.value, mid, SharedInterval) &&
      store.messageSaves == old(store.messageSaves) + 1 &&
      store.config == old(store.config) && store.configSaves == old(store.configSaves)
  {
    reply := AddMessage(store, origin, mid, SharedInterval);
  }

  /** auto_add_message: the same registration from the origin channel, with a 60-second interval. */
  method AutoAddMessage(store: Store, origin: Option<ChatId>, mid: MessageId) returns (reply: AddReply)
    modifies store
    ensures (origin.None? || origin == Some(0)) ==> reply == NotFromChannel && unchanged(store)
    ensures origin.Some? && origin != Some(0) && IsRegistered(old(store.messages), origin.value, mid) ==>
      reply == AlreadyRegistered && unchanged(store)
    ensures origin.Some? && origin != Some(0) && !IsRegistered(old(store.messages), origin.value, mid) ==>
      reply == Added &&
      store.messages == Register(old(store.messages), origin.value, mid, AutoInterval) &&
      store.messageSaves == old(store.messageSaves) + 1 &&
      store.config == old(store.config) && store.configSaves == old(store.configSaves)
  {
    reply := AddMessage(store, origin, mid, AutoInterval);
  }

  /** delete_message: remove the descriptor at `index` when it is in range, else change nothing. */
  method DeleteMessage(store: Store, index: int) returns (reply: DeleteReply)
    modifies store
    ensures 0 <= index < |old(store.messages)| ==>
      reply == Removed(old(store.messages)[index].messageId) &&
      store.messages == RemoveAt(old(store.messages), index) &&
      store.messageSaves == old(store.messageSaves) + 1 &&
      store.config == old(store.config) && store.configSaves == old(store.configSaves)
    ensures !(0 <= index < |old(store.messages)|) ==> reply == OutOfRange && unchanged(store)
  {
    var msgs := store.messages;
    if 0 <= index < |msgs| {
      var deleted := msgs[index];
      msgs := RemoveAt(msgs, index);
      store.SaveMessages(msgs);
      reply := Removed(deleted.messageId);
    } else {
      reply := OutOfRange;
    }
  }
}
