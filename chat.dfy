// Chat on the server (Social-Good-Juba-main/server/routes/chat.js): creating a
// conversation without duplicates, listing a conversation's messages (which
// marks the other side's messages read), marking read, sending, and the
// caller's unread count.

module Chat {
  import opened Common
  import opened JobTables

  datatype Conversation = Conversation(id: RowId, clientId: UserId, freelancerId: UserId, jobId: RowId)

  datatype Message = Message(id: RowId, conversationId: RowId, senderId: UserId, content: string, isRead: bool, createdAt: int)

  datatype ChatError = AccessDenied   // 403

  /** The outcome of POST /conversations: an existing conversation's id, or the new row. */
  datatype Opened = Existing(conversationId: RowId) | Created(conversation: Conversation)

  predicate Participant(c: Conversation, user: UserId)
  {
    c.clientId == user || c.freelancerId == user
  }

  /** `.eq('id', id).or(client_id = user, freelancer_id = user).single()` finds the conversation. */
  predicate CanAccess(convs: seq<Conversation>, id: RowId, user: UserId)
  {
    exists i :: 0 <= i < |convs| && convs[i].id == id && Participant(convs[i], user)
  }

  /** Position of the conversation for this (client, freelancer, job), or `|convs|`. */
  function TripleIndex(convs: seq<Conversation>, clientId: UserId, freelancerId: UserId, jobId: RowId): (k: nat)
    ensures k <= |convs|
    ensures k < |convs| ==> convs[k].clientId == clientId && convs[k].freelancerId == freelancerId && convs[k].jobId == jobId
    ensures k == |convs| <==>
      forall i :: 0 <= i < |convs| ==> !(convs[i].clientId == clientId && convs[i].freelancerId == freelancerId && convs[i].jobId == jobId)
  {
    if convs == [] then 0
    else if convs[0].clientId == clientId && convs[0].freelancerId == freelancerId && convs[0].jobId == jobId then 0
    else 1 + TripleIndex(convs[1..], clientId, freelancerId, jobId)
  }

  /** At most one conversation per (client, freelancer, job). */
  predicate NoDuplicateConversations(convs: seq<Conversation>)
  {
    forall i, j :: 0 <= i < j < |convs| ==>
      !(convs[i].clientId == convs[j].clientId && convs[i].freelancerId == convs[j].freelancerId && convs[i].jobId == convs[j].jobId)
  }

  /** The messages of a conversation, in table (= creation) order. */
  function ConversationMessages(msgs: seq<Message>, convId: RowId): (r: seq<Message>)
    ensures forall m :: m in r <==> m in msgs && m.conversationId == convId
    ensures OldestFirst(msgs) ==> OldestFirst(r)
    ensures |r| <= |msgs|
  {
    if msgs == [] then []
    else
      var rest := ConversationMessages(msgs[1..], convId);
      if msgs[0].conversationId == convId then
        assert forall m :: m in rest ==> m in msgs[1..];
        OldestFirstCons(msgs, rest);
        [msgs[0]] + rest
      else rest
  }

  /** `.order('created_at', { ascending: true })`. */
  predicate OldestFirst(msgs: seq<Message>)
  {
    forall i, j :: 0 <= i < j < |msgs| ==> msgs[i].createdAt <= msgs[j].createdAt
  }

  lemma OldestFirstCons(msgs: seq<Message>, rest: seq<Message>)
    requires msgs != [] && forall m :: m in rest ==> m in msgs[1..]
    requires OldestFirst(msgs[1..]) ==> OldestFirst(rest)
    ensures OldestFirst(msgs) ==> OldestFirst([msgs[0]] + rest)
  {
    if OldestFirst(msgs) {
      forall m | m in rest ensures msgs[0].createdAt <= m.createdAt {
        var k :| 0 <= k < |msgs[1..]| && msgs[1..][k] == m;
        assert msgs[k + 1] == m;
      }
      forall i, j | 0 <= i < j < |[msgs[0]] + rest|
        ensures ([msgs[0]] + rest)[i].createdAt <= ([msgs[0]] + rest)[j].createdAt
      {
        assert ([msgs[0]] + rest)[j] == rest[j - 1];
        assert rest[j - 1] in rest;
        if i > 0 {
          assert ([msgs[0]] + rest)[i] == rest[i - 1];
        }
      }
    }
  }

  /** A message `reader` still has to read in conversation `convId`. */
  predicate UnreadFor(m: Message, convId: RowId, reader: UserId)
  {
    m.conversationId == convId && m.senderId != reader && !m.isRead
  }

  /** The ids of `messages.filter(msg => msg.sender_id !== userId && !msg.is_read)`. */
  function UnreadIds(msgs: seq<Message>, convId: RowId, reader: UserId): (ids: set<RowId>)
    ensures forall id :: id in ids <==> exists i :: 0 <= i < |msgs| && msgs[i].id == id && UnreadFor(msgs[i], convId, reader)
  {
    set i | 0 <= i < |msgs| && UnreadFor(msgs[i], convId, reader) :: msgs[i].id
  }

  /** `.update({ is_read: true }).in('id', ids)`. */
  function MarkIds(msgs: seq<Message>, ids: set<RowId>): (r: seq<Message>)
    ensures |r| == |msgs|
    ensures forall i :: 0 <= i < |msgs| ==> r[i] == msgs[i].(isRead := msgs[i].isRead || msgs[i].id in ids)
  {
    seq(|msgs|, i requires 0 <= i < |msgs| => msgs[i].(isRead := msgs[i].isRead || msgs[i].id in ids))
  }

  /** `.update({ is_read: true }).eq('conversation_id', convId).neq('sender_id', reader)`. */
  function MarkConversation(msgs: seq<Message>, convId: RowId, reader: UserId): (r: seq<Message>)
    ensures |r| == |msgs|
    ensures forall i :: 0 <= i < |msgs| ==>
      r[i] == msgs[i].(isRead := msgs[i].isRead || (msgs[i].conversationId == convId && msgs[i].senderId != reader))
  {
    seq(|msgs|, i requires 0 <= i < |msgs| =>
      msgs[i].(isRead := msgs[i].isRead || (msgs[i].conversationId == convId && msgs[i].senderId != reader)))
  }

  predicate UniqueMessageIds(msgs: seq<Message>)
  {
    forall i, j :: 0 <= i < j < |msgs| ==> msgs[i].id != msgs[j].id
  }

  /**
   * Listing a conversation marks read exactly what mark-read marks: with
   * unique ids, updating the ids of the unread messages from the other side
   * equals updating every message of the conversation not sent by the reader.
   */
  lemma FetchMarksLikeMarkRead(msgs: seq<Message>, convId: RowId, reader: UserId)
    requires UniqueMessageIds(msgs)
    ensures MarkIds(msgs, UnreadIds(msgs, convId, reader)) == MarkConversation(msgs, convId, reader)
  {
    var ids := UnreadIds(msgs, convId, reader);
    forall i | 0 <= i < |msgs|
      ensures MarkIds(msgs, ids)[i] == MarkConversation(msgs, convId, reader)[i]
    {
      if msgs[i].id in ids {
        var j :| 0 <= j < |msgs| && msgs[j].id == msgs[i].id && UnreadFor(msgs[j], convId, reader);
        assert i == j;
      } else {
        assert !UnreadFor(msgs[i], convId, reader);
      }
    }
  }

  /** The ids of the conversations `user` takes part in. */
  function ConversationsOf(convs: seq<Conversation>, user: UserId): (ids: set<RowId>)
    ensures forall id :: id in ids <==> exists i :: 0 <= i < |convs| && convs[i].id == id && Participant(convs[i], user)
  {
    set i | 0 <= i < |convs| && Participant(convs[i], user) :: convs[i].id
  }

  /** Unread messages from others in the conversations `ids`. */
  function CountUnread(msgs: seq<Message>, ids: set<RowId>, user: UserId): (n: nat)
    ensures n <= |msgs|
  {
    if msgs == [] then 0
    else
      var here := if msgs[0].conversationId in ids && msgs[0].senderId != user && !msgs[0].isRead then 1 else 0;
      here + CountUnread(msgs[1..], ids, user)
  }

  /** GET /unread-count: 0 without conversations, otherwise the count over the caller's conversations. */
  function UnreadCount(convs: seq<Conversation>, msgs: seq<Message>, user: UserId): (n: nat)
    ensures ConversationsOf(convs, user) == {} ==> n == 0
    ensures n <= |msgs|
  {
    var ids := ConversationsOf(convs, user);
    if ids == {} then 0 else CountUnread(msgs, ids, user)
  }

  /** Marking read never raises anybody's unread count. */
  lemma {:induction false} MarkingNeverRaises(msgs: seq<Message>, convId: RowId, reader: UserId, ids: set<RowId>, user: UserId)
    ensures CountUnread(MarkConversation(msgs, convId, reader), ids, user) <= CountUnread(msgs, ids, user)
  {
    if msgs != [] {
      assert MarkConversation(msgs, convId, reader)[1..] == MarkConversation(msgs[1..], convId, reader);
      MarkingNeverRaises(msgs[1..], convId, reader, ids, user);
    }
  }

  /** After mark-read, none of the conversation's messages count as unread for the reader. */
  lemma {:induction false} MarkReadClears(msgs: seq<Message>, convId: RowId, reader: UserId)
    ensures CountUnread(MarkConversation(msgs, convId, reader), {convId}, reader) == 0
  {
    if msgs != [] {
      assert MarkConversation(msgs, convId, reader)[1..] == MarkConversation(msgs[1..], convId, reader);
      MarkReadClears(msgs[1..], convId, reader);
    }
  }

  class ChatStore {
    var conversations: seq<Conversation>
    var messages: seq<Message>
    var nextId: nat

    ghost predicate Valid()
      reads this
    {
      && NoDuplicateConversations(conversations)
      && (forall i, j :: 0 <= i < j < |conversations| ==> conversations[i].id != conversations[j].id)
      && (forall i :: 0 <= i < |conversations| ==> conversations[i].id < nextId)
      && UniqueMessageIds(messages)
      && (forall i :: 0 <= i < |messages| ==> messages[i].id < nextId)
      && OldestFirst(messages)
    }

    constructor ()
      ensures Valid() && conversations == [] && messages == []
    {
      conversations, messages, nextId := [], [], 0;
    }

    /**
     * POST /conversations: the caller must be the client or the
     * freelancer; an existing conversation for the same (client,
     * freelancer, job) is returned instead of a second one.
     */
    method Open(caller: UserId, clientId: UserId, freelancerId: UserId, jobId: RowId) returns (r: Result<Opened, ChatError>)
      requires Valid()
      modifies this
      ensures Valid()
      ensures caller != clientId && caller != freelancerId ==> r == Err(AccessDenied) && unchanged(this)
      ensures (caller == clientId || caller == freelancerId) && TripleIndex(old(conversations), clientId, freelancerId, jobId) < |old(conversations)| ==>
        r == Ok(Existing(old(conversations)[TripleIndex(old(conversations), clientId, freelancerId, jobId)].id)) && unchanged(this)
      ensures (caller == clientId || caller == freelancerId) && TripleIndex(old(conversations), clientId, freelancerId, jobId) == |old(conversations)| ==>
        && r == Ok(Created(Conversation(old(nextId), clientId, freelancerId, jobId)))
        && conversations == old(conversations) + [r.value.conversation]
        && messages == old(messages)
    {
      if caller != clientId && caller != freelancerId {
        return Err(AccessDenied);
      }
      var k := TripleIndex(conversations, clientId, freelancerId, jobId);
      if k < |conversations| {
        return Ok(Existing(conversations[k].id));
      }
      var c := Conversation(nextId, clientId, freelancerId, jobId);
      conversations := conversations + [c];
      nextId := nextId + 1;
      r := Ok(Created(c));
    }

    /**
     * GET /conversations/:id/messages: participants only; returns the
     * conversation's messages oldest first, as they were before the call,
     * and marks read the unread ones the caller did not send.
     */
    method Fetch(caller: UserId, convId: RowId) returns (r: Result<seq<Message>, ChatError>)
      requires Valid()
      modifies this
      ensures Valid()
      ensures !CanAccess(old(conversations), convId, caller) ==> r == Err(AccessDenied) && unchanged(this)
      ensures CanAccess(old(conversations), convId, caller) ==>
        && r == Ok(ConversationMessages(old(messages), convId))
        && OldestFirst(r.value)
        && messages == MarkConversation(old(messages), convId, caller)
        && conversations == old(conversations)
    {
      if !(exists i :: 0 <= i < |conversations| && conversations[i].id == convId && Participant(conversations[i], caller)) {
        return Err(AccessDenied);
      }
      var listed := ConversationMessages(messages, convId);
      var ids := UnreadIds(messages, convId, caller);
      FetchMarksLikeMarkRead(messages, convId, caller);
      if ids != {} {
        messages := MarkIds(messages, ids);
      } else {
        assert MarkIds(messages, ids) == messages;
      }
      r := Ok(listed);
    }

    /** PUT /conversations/:id/read: participants only; marks read every message of it the caller did not send. */
    method MarkRead(caller: UserId, convId: RowId) returns (r: Result<(), ChatError>)
      requires Valid()
      modifies this
      ensures Valid()
      ensures !CanAccess(old(conversations), convId, caller) ==> r == Err(AccessDenied) && unchanged(this)
      ensures CanAccess(old(conversations), convId, caller) ==>
        && r == Ok(())
        && messages == MarkConversation(old(messages), convId, caller)
        && conversations == old(conversations)
        && CountUnread(messages, {convId}, caller) == 0
    {
      if !(exists i :: 0 <= i < |conversations| && conversations[i].id == convId && Participant(conversations[i], caller)) {
        return Err(AccessDenied);
      }
      MarkReadClears(messages, convId, caller);
      messages := MarkConversation(messages, convId, caller);
      r := Ok(());
    }

    /** POST /conversations/:id/messages: participants only; appends an unread message from the caller. */
    method Send(caller: UserId, convId: RowId, content: string, now: int) returns (r: Result<Message, ChatError>)
      requires Valid()
      requires forall i :: 0 <= i < |messages| ==> messages[i].createdAt <= now
      modifies this
      ensures Valid()
      ensures !CanAccess(old(conversations), convId, caller) ==> r == Err(AccessDenied) && unchanged(this)
      ensures CanAccess(old(conversations), convId, caller) ==>
        && r == Ok(Message(old(nextId), convId, caller, content, false, now))
        && messages == old(messages) + [r.value]
        && conversations == old(conversations)
    {
      if !(exists i :: 0 <= i < |conversations| && conversations[i].id == convId && Participant(conversations[i], caller)) {
        return Err(AccessDenied);
      }
      var m := Message(nextId, convId, caller, content, false, now);
      messages := messages + [m];
      nextId := nextId + 1;
      r := Ok(m);
    }
  }
}
