// The chat state kept on the page (Social-Good-Juba-main/client/src/context/ChatContext.js):
// the conversation list and open messages, the debounced requests for
// conversations, unread counts and read receipts, the set of users shown as
// typing, and the lookups the chat window uses. Request results are
// parameters (`None` when the request fails); the clock is the `now`
// parameter, in milliseconds.

module ChatContext {
  import opened Common
  import opened JobTables
  import opened Chat

  /** A user row joined onto a conversation. */
  datatype Person = Person(id: UserId, username: Option<string>, email: string)

  /** A conversation as the list endpoint returns it, with the joined rows and the last message once one is sent. */
  datatype ConversationView = ConversationView(
    id: RowId, clientId: UserId, freelancerId: UserId, jobId: RowId,
    client: Option<Person>, freelancer: Option<Person>, jobTitle: Option<string>,
    lastMessage: Option<Message>)

  const ConversationsWindow: int := 10000
  const MarkReadWindow: int := 2000
  const UnreadCountWindow: int := 5000

  /** A debounced request goes out unless less than `window` ms have passed since the last one. */
  predicate Due(now: int, last: int, window: int)
  {
    !(now - last < window)
  }

  /** `lastMarkAsReadCall[conversationId] || 0`. */
  function LastCall(calls: map<RowId, int>, convId: RowId): (t: int)
    ensures convId !in calls ==> t == 0
    ensures convId in calls ==> t == calls[convId]
  {
    if convId in calls then calls[convId] else 0
  }

  /** `username || email`: the name the page shows and announces while typing. */
  function DisplayName(p: Person): (r: string)
    ensures Present(p.username) ==> r == p.username.value
    ensures !Present(p.username) ==> r == p.email
  {
    if Present(p.username) then p.username.value else p.email
  }

  predicate MatchesTriple(c: ConversationView, clientId: UserId, freelancerId: UserId, jobId: RowId)
  {
    c.clientId == clientId && c.freelancerId == freelancerId && c.jobId == jobId
  }

  /** `k` is the first position whose conversation matches the three ids. */
  predicate FirstMatch(convs: seq<ConversationView>, k: int, clientId: UserId, freelancerId: UserId, jobId: RowId)
  {
    0 <= k < |convs| && MatchesTriple(convs[k], clientId, freelancerId, jobId) &&
    forall i :: 0 <= i < k ==> !MatchesTriple(convs[i], clientId, freelancerId, jobId)
  }

  /** `conversations.find(...)` on all three ids: the first conversation that matches them. */
  function GetConversation(convs: seq<ConversationView>, clientId: UserId, freelancerId: UserId, jobId: RowId): (r: Option<ConversationView>)
    ensures r.None? <==> forall i :: 0 <= i < |convs| ==> !MatchesTriple(convs[i], clientId, freelancerId, jobId)
    ensures r.Some? ==> exists k :: FirstMatch(convs, k, clientId, freelancerId, jobId) && convs[k] == r.value
  {
    if convs == [] then None
    else if MatchesTriple(convs[0], clientId, freelancerId, jobId) then
      assert FirstMatch(convs, 0, clientId, freelancerId, jobId);
      Some(convs[0])
    else
      var r := GetConversation(convs[1..], clientId, freelancerId, jobId);
      if r.Some? then
        var k :| FirstMatch(convs[1..], k, clientId, freelancerId, jobId) && convs[1..][k] == r.value;
        assert convs[k + 1] == r.value;
        assert forall i :: 1 <= i < k + 1 ==> convs[i] == convs[1..][i - 1];
        assert FirstMatch(convs, k + 1, clientId, freelancerId, jobId);
        r
      else
        assert forall i :: 1 <= i < |convs| ==> convs[i] == convs[1..][i - 1];
        r
  }

  /**
   * `getOtherParticipant`: nothing without a conversation or a user; the
   * freelancer row when the user is the conversation's client, the client
   * row otherwise.
   */
  function OtherParticipant(conv: Option<ConversationView>, current: Option<UserId>): (r: Option<Person>)
    ensures conv.None? || current.None? ==> r.None?
    ensures conv.Some? && current.Some? && conv.value.clientId == current.value ==> r == conv.value.freelancer
    ensures conv.Some? && current.Some? && conv.value.clientId != current.value ==> r == conv.value.client
  {
    if conv.None? || current.None? then None
    else if conv.value.clientId == current.value then conv.value.freelancer
    else conv.value.client
  }

  /** A conversation whose joined rows are the users its ids name. */
  predicate RowsMatchIds(c: ConversationView)
  {
    (c.client.Some? ==> c.client.value.id == c.clientId) && (c.freelancer.Some? ==> c.freelancer.value.id == c.freelancerId)
  }

  /** For a participant of a conversation between two different users, the other participant is never the user. */
  lemma OtherIsTheOtherSide(c: ConversationView, user: UserId)
    requires RowsMatchIds(c) && c.clientId != c.freelancerId
    requires user == c.clientId || user == c.freelancerId
    ensures var r := OtherParticipant(Some(c), Some(user));
      r.Some? ==> r.value.id != user && (r.value.id == c.clientId || r.value.id == c.freelancerId)
  {
  }

  /** The local update after a read receipt: every message of that conversation becomes read, the others stay as they are. */
  function MarkLocal(msgs: seq<Message>, convId: RowId): (r: seq<Message>)
    ensures |r| == |msgs|
    ensures forall i :: 0 <= i < |msgs| ==>
      r[i] == (if msgs[i].conversationId == convId then msgs[i].(isRead := true) else msgs[i])
  {
    seq(|msgs|, i requires 0 <= i < |msgs| => if msgs[i].conversationId == convId then msgs[i].(isRead := true) else msgs[i])
  }

  /**
   * The page's copy agrees with the server's mark-read on every message the
   * reader did not send; the reader's own messages are shown read locally
   * although the server leaves them as they were.
   */
  lemma LocalMarkMatchesServer(msgs: seq<Message>, convId: RowId, reader: UserId)
    ensures forall i :: 0 <= i < |msgs| && msgs[i].senderId != reader ==>
      MarkLocal(msgs, convId)[i] == MarkConversation(msgs, convId, reader)[i]
    ensures forall i :: 0 <= i < |msgs| && msgs[i].conversationId == convId ==> MarkLocal(msgs, convId)[i].isRead
  {
  }

  /** The conversation list after a send: the sent message becomes `lastMessage` of the matching conversation only. */
  function WithLastMessage(convs: seq<ConversationView>, convId: RowId, m: Message): (r: seq<ConversationView>)
    ensures |r| == |convs|
    ensures forall i :: 0 <= i < |convs| ==>
      r[i] == (if convs[i].id == convId then convs[i].(lastMessage := Some(m)) else convs[i])
  {
    seq(|convs|, i requires 0 <= i < |convs| => if convs[i].id == convId then convs[i].(lastMessage := Some(m)) else convs[i])
  }

  /** What a typing signal carries to the other side. */
  datatype TypingPayload = TypingPayload(userId: UserId, username: Option<string>)

  /** `startTyping`: the user's id and display name. */
  function StartSignal(user: Person): (p: TypingPayload)
    ensures p.userId == user.id && p.username == Some(DisplayName(user))
  {
    TypingPayload(user.id, Some(DisplayName(user)))
  }

  /** `stopTyping`: the user's id only. */
  function StopSignal(user: Person): (p: TypingPayload)
    ensures p.userId == user.id && p.username.None?
  {
    TypingPayload(user.id, None)
  }

  /** The server's relay of `typing-start` (server/index.js): id and name. */
  function RelayStart(p: TypingPayload): (q: TypingPayload)
    ensures q == p
  {
    TypingPayload(p.userId, p.username)
  }

  /** The server's relay of `typing-stop` (server/index.js): the id alone. */
  function RelayStop(p: TypingPayload): (q: TypingPayload)
    ensures q.userId == p.userId && q.username.None?
  {
    TypingPayload(p.userId, None)
  }

  /** `user-typing`: the payload's name joins the set (a missing name is not modelled as a member). */
  function AfterTyping(typing: set<string>, p: TypingPayload): (r: set<string>)
    ensures p.username.Some? ==> r == typing + {p.username.value}
    ensures p.username.None? ==> r == typing
  {
    if p.username.Some? then typing + {p.username.value} else typing
  }

  /** `user-stop-typing` as written: deletes the payload's name, which a missing name leaves untouched. */
  function AfterStopTyping(typing: set<string>, p: TypingPayload): (r: set<string>)
    ensures p.username.Some? ==> r == typing - {p.username.value}
    ensures p.username.None? ==> r == typing
  {
    if p.username.Some? then typing - {p.username.value} else typing
  }

  /**
   * As written, a user who starts and then stops typing is still shown as
   * typing: the stop signal reaches the other side without a name, so the
   * delete removes nothing.
   */
  lemma StopNeverClearsTyping(typing: set<string>, user: Person)
    ensures DisplayName(user) in AfterStopTyping(AfterTyping(typing, RelayStart(StartSignal(user))), RelayStop(StopSignal(user)))
  {
  }

  /** The evident intent: typing users keyed by id, so the stop signal (which carries the id) removes its user. */
  function AfterTypingById(typing: map<UserId, string>, p: TypingPayload): (r: map<UserId, string>)
    ensures p.username.Some? ==> r == typing[p.userId := p.username.value]
    ensures p.username.None? ==> r == typing
  {
    if p.username.Some? then typing[p.userId := p.username.value] else typing
  }

  function AfterStopTypingById(typing: map<UserId, string>, p: TypingPayload): (r: map<UserId, string>)
    ensures p.userId !in r
    ensures forall u :: u in r <==> u in typing && u != p.userId
    ensures forall u :: u in r ==> r[u] == typing[u]
  {
    typing - {p.userId}
  }

  /** `isUserTyping(name)` on the keyed state. */
  predicate TypingById(typing: map<UserId, string>, name: string)
  {
    exists u :: u in typing && typing[u] == name
  }

  /**
   * With the keyed state, a start then a stop from the same user clears that
   * user's name unless another user typing goes by the same name, and leaves
   * everyone else's state as it was.
   */
  lemma StopClearsTypingById(typing: map<UserId, string>, user: Person)
    requires forall u :: u in typing && u != user.id ==> typing[u] != DisplayName(user)
    ensures var after := AfterStopTypingById(AfterTypingById(typing, RelayStart(StartSignal(user))), RelayStop(StopSignal(user)));
      !TypingById(after, DisplayName(user)) && after == typing - {user.id}
  {
    var mid := AfterTypingById(typing, RelayStart(StartSignal(user)));
    var after := AfterStopTypingById(mid, RelayStop(StopSignal(user)));
    assert forall u :: u in after ==> after[u] == typing[u];
  }

  /** The chat state of the page. */
  class ChatClient {
    var conversations: seq<ConversationView>
    var messages: seq<Message>
    var unreadCount: nat
    var typingUsers: set<string>
    var lastConversationsFetch: int
    var lastUnreadCountFetch: int
    var lastMarkAsReadCall: map<RowId, int>

    constructor ()
      ensures conversations == [] && messages == [] && unreadCount == 0 && typingUsers == {}
      ensures lastConversationsFetch == 0 && lastUnreadCountFetch == 0 && lastMarkAsReadCall == map[]
    {
      conversations, messages, unreadCount, typingUsers := [], [], 0, {};
      lastConversationsFetch, lastUnreadCountFetch, lastMarkAsReadCall := 0, 0, map[];
    }

    /**
     * `fetchConversations`: skipped within 10 s of the last request;
     * otherwise the request time is recorded and the list replaced by a
     * successful response.
     */
    method FetchConversations(now: int, response: Option<seq<ConversationView>>) returns (requested: bool)
      modifies this
      ensures requested <==> Due(now, old(lastConversationsFetch), ConversationsWindow)
      ensures !requested ==> unchanged(this)
      ensures requested ==> lastConversationsFetch == now
      ensures requested ==> conversations == (if response.Some? then response.value else old(conversations))
      ensures messages == old(messages) && unreadCount == old(unreadCount) && typingUsers == old(typingUsers)
      ensures lastUnreadCountFetch == old(lastUnreadCountFetch) && lastMarkAsReadCall == old(lastMarkAsReadCall)
    {
      if now - lastConversationsFetch < ConversationsWindow {
        return false;
      }
      lastConversationsFetch := now;
      if response.Some? {
        conversations := response.value;
      }
      requested := true;
    }

    /** `fetchUnreadCount`: the same rule with a 5 s window. */
    method FetchUnreadCount(now: int, response: Option<nat>) returns (requested: bool)
      modifies this
      ensures requested <==> Due(now, old(lastUnreadCountFetch), UnreadCountWindow)
      ensures !requested ==> unchanged(this)
      ensures requested ==> lastUnreadCountFetch == now
      ensures requested ==> unreadCount == (if response.Some? then response.value else old(unreadCount))
      ensures conversations == old(conversations) && messages == old(messages) && typingUsers == old(typingUsers)
      ensures lastConversationsFetch == old(lastConversationsFetch) && lastMarkAsReadCall == old(lastMarkAsReadCall)
    {
      if now - lastUnreadCountFetch < UnreadCountWindow {
        return false;
      }
      lastUnreadCountFetch := now;
      if response.Some? {
        unreadCount := response.value;
      }
      requested := true;
    }

    /**
     * `markAsRead(conversationId)`: skipped within 2 s of the last call for
     * the same conversation; otherwise the call time is recorded per
     * conversation, and when the server accepts the receipt the messages of
     * that conversation (only) become read and the unread count is asked
     * for again, under its own debounce.
     */
    method MarkAsRead(convId: RowId, now: int, accepted: bool, countResponse: Option<nat>) returns (requested: bool)
      modifies this
      ensures requested <==> Due(now, LastCall(old(lastMarkAsReadCall), convId), MarkReadWindow)
      ensures !requested ==> unchanged(this)
      ensures requested ==> lastMarkAsReadCall == old(lastMarkAsReadCall)[convId := now]
      ensures requested && accepted ==> messages == MarkLocal(old(messages), convId)
      ensures !(requested && accepted) ==> messages == old(messages)
      ensures requested && accepted && Due(now, old(lastUnreadCountFetch), UnreadCountWindow) ==>
        lastUnreadCountFetch == now && unreadCount == (if countResponse.Some? then countResponse.value else old(unreadCount))
      ensures !(requested && accepted && Due(now, old(lastUnreadCountFetch), UnreadCountWindow)) ==>
        lastUnreadCountFetch == old(lastUnreadCountFetch) && unreadCount == old(unreadCount)
      ensures conversations == old(conversations) && typingUsers == old(typingUsers)
      ensures lastConversationsFetch == old(lastConversationsFetch)
    {
      var lastCall := LastCall(lastMarkAsReadCall, convId);
      if now - lastCall < MarkReadWindow {
        return false;
      }
      lastMarkAsReadCall := lastMarkAsReadCall[convId := now];
      requested := true;
      if accepted {
        messages := MarkLocal(messages, convId);
        var counted := FetchUnreadCount(now, countResponse);
      }
    }

    /**
     * `sendMessage`: a failed request changes nothing; a sent message is
     * appended to the open messages and becomes the last message of its
     * conversation.
     */
    method SendMessage(convId: RowId, response: Option<Message>) returns (sent: Option<Message>)
      modifies this
      ensures sent == response
      ensures response.None? ==> unchanged(this)
      ensures response.Some? ==> messages == old(messages) + [response.value]
      ensures response.Some? ==> conversations == WithLastMessage(old(conversations), convId, response.value)
      ensures unreadCount == old(unreadCount) && typingUsers == old(typingUsers)
      ensures lastConversationsFetch == old(lastConversationsFetch) && lastUnreadCountFetch == old(lastUnreadCountFetch)
      ensures lastMarkAsReadCall == old(lastMarkAsReadCall)
    {
      if response.Some? {
        messages := messages + [response.value];
        conversations := WithLastMessage(conversations, convId, response.value);
      }
      sent := response;
    }

    /** `user-typing`. */
    method OnUserTyping(p: TypingPayload)
      modifies this
      ensures typingUsers == AfterTyping(old(typingUsers), p)
      ensures conversations == old(conversations) && messages == old(messages) && unreadCount == old(unreadCount)
      ensures lastConversationsFetch == old(lastConversationsFetch) && lastUnreadCountFetch == old(lastUnreadCountFetch)
      ensures lastMarkAsReadCall == old(lastMarkAsReadCall)
    {
      typingUsers := AfterTyping(typingUsers, p);
    }

    /** `user-stop-typing`. */
    method OnUserStopTyping(p: TypingPayload)
      modifies this
      ensures typingUsers == AfterStopTyping(old(typingUsers), p)
      ensures conversations == old(conversations) && messages == old(messages) && unreadCount == old(unreadCount)
      ensures lastConversationsFetch == old(lastConversationsFetch) && lastUnreadCountFetch == old(lastUnreadCountFetch)
      ensures lastMarkAsReadCall == old(lastMarkAsReadCall)
    {
      typingUsers := AfterStopTyping(typingUsers, p);
    }

    /** `clearTypingIndicators`. */
    method ClearTypingIndicators()
      modifies this
      ensures typingUsers == {}
      ensures conversations == old(conversations) && messages == old(messages) && unreadCount == old(unreadCount)
      ensures lastConversationsFetch == old(lastConversationsFetch) && lastUnreadCountFetch == old(lastUnreadCountFetch)
      ensures lastMarkAsReadCall == old(lastMarkAsReadCall)
    {
      typingUsers := {};
    }

    /** `isUserTyping(name)`. */
    predicate IsUserTyping(name: string)
      reads this
    {
      name in typingUsers
    }

    /**
     * `refreshConversations` as written: the timestamps are reset through
     * state setters, but the two fetches run in the same render and still
     * read the old timestamps, so each is debounced as usual; a skipped
     * fetch leaves its timestamp at 0 and a made one at `now`.
     */
    method Refresh(now: int, convResponse: Option<seq<ConversationView>>, countResponse: Option<nat>)
      returns (convRequested: bool, countRequested: bool)
      modifies this
      ensures convRequested <==> Due(now, old(lastConversationsFetch), ConversationsWindow)
      ensures countRequested <==> Due(now, old(lastUnreadCountFetch), UnreadCountWindow)
      ensures lastConversationsFetch == (if convRequested then now else 0)
      ensures lastUnreadCountFetch == (if countRequested then now else 0)
      ensures conversations == (if convRequested && convResponse.Some? then convResponse.value else old(conversations))
      ensures unreadCount == (if countRequested && countResponse.Some? then countResponse.value else old(unreadCount))
      ensures messages == old(messages) && typingUsers == old(typingUsers) && lastMarkAsReadCall == old(lastMarkAsReadCall)
    {
      convRequested := FetchConversations(now, convResponse);
      countRequested := FetchUnreadCount(now, countResponse);
      if !convRequested {
        lastConversationsFetch := 0;
      }
      if !countRequested {
        lastUnreadCountFetch := 0;
      }
    }

    /**
     * `refreshConversations` as its comment intends: both timestamps are
     * reset before the fetches look at them, so on any clock past the
     * windows both requests go out.
     */
    method RefreshBypassing(now: int, convResponse: Option<seq<ConversationView>>, countResponse: Option<nat>)
      returns (convRequested: bool, countRequested: bool)
      modifies this
      ensures convRequested <==> Due(now, 0, ConversationsWindow)
      ensures countRequested <==> Due(now, 0, UnreadCountWindow)
      ensures now >= ConversationsWindow ==> convRequested && countRequested
      ensures lastConversationsFetch == (if convRequested then now else 0)
      ensures lastUnreadCountFetch == (if countRequested then now else 0)
      ensures conversations == (if convRequested && convResponse.Some? then convResponse.value else old(conversations))
      ensures unreadCount == (if countRequested && countResponse.Some? then countResponse.value else old(unreadCount))
      ensures messages == old(messages) && typingUsers == old(typingUsers) && lastMarkAsReadCall == old(lastMarkAsReadCall)
    {
      lastConversationsFetch := 0;
      lastUnreadCountFetch := 0;
      convRequested := FetchConversations(now, convResponse);
      countRequested := FetchUnreadCount(now, countResponse);
    }
  }

  /** A refresh five seconds after a fetch, as written, sends no request for the conversations. */
  method RefreshSoonAfterFetch() returns (requested: bool)
    ensures !requested
  {
    var c := new ChatClient();
    var first := c.FetchConversations(1000000, Some([]));
    var counted := c.FetchUnreadCount(1000000, Some(0));
    var again;
    requested, again := c.Refresh(1005000, Some([]), Some(0));
  }

  /** The same sequence with the intended refresh sends both requests. */
  method RefreshBypassingSoonAfterFetch() returns (requested: bool)
    ensures requested
  {
    var c := new ChatClient();
    var first := c.FetchConversations(1000000, Some([]));
    var counted := c.FetchUnreadCount(1000000, Some(0));
    var again;
    requested, again := c.RefreshBypassing(1005000, Some([]), Some(0));
    requested := requested && again;
  }
}
