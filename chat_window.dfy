// The chat window (Social-Good-Juba-main/client/src/components/ChatWindow.js):
// the conversation names and previews of the list, the sent/received side of
// each message, the typing indicator, and the send form's guard.

module ChatWindow {
  import opened Common
  import opened JobTables
  import opened Chat
  import opened ChatContext

  const PreviewLength: nat := 50

  /** `getLastMessagePreview`: a placeholder without a last message, else its first 50 characters and "..." when longer. */
  function LastMessagePreview(c: ConversationView): (r: string)
    ensures c.lastMessage.None? ==> r == "No messages yet"
    ensures c.lastMessage.Some? && |c.lastMessage.value.content| <= PreviewLength ==> r == c.lastMessage.value.content
    ensures c.lastMessage.Some? && |c.lastMessage.value.content| > PreviewLength ==>
      |r| == PreviewLength + 3 && r[..PreviewLength] == c.lastMessage.value.content[..PreviewLength] && r[PreviewLength..] == "..."
  {
    if c.lastMessage.None? then "No messages yet" else Ellipsize(c.lastMessage.value.content, PreviewLength)
  }

  /** A preview is never longer than 53 characters, and a message's preview begins with the message. */
  lemma PreviewBounded(c: ConversationView)
    requires c.lastMessage.Some?
    ensures |LastMessagePreview(c)| <= PreviewLength + 3
    ensures var content := c.lastMessage.value.content;
      var n := if |content| < PreviewLength then |content| else PreviewLength;
      LastMessagePreview(c)[..n] == content[..n]
  {
  }

  /** `jobInfo?.title || 'Job Discussion'`. */
  function JobLabel(c: ConversationView): (r: string)
    ensures Present(c.jobTitle) ==> r == c.jobTitle.value
    ensures !Present(c.jobTitle) ==> r == "Job Discussion"
  {
    if Present(c.jobTitle) then c.jobTitle.value else "Job Discussion"
  }

  /** `getConversationName`: "<other's name> - <job label>", or "Unknown User" without the other participant. */
  function ConversationName(c: ConversationView, current: Option<UserId>): (r: string)
    ensures OtherParticipant(Some(c), current).None? ==> r == "Unknown User"
    ensures OtherParticipant(Some(c), current).Some? ==>
      r == DisplayName(OtherParticipant(Some(c), current).value) + " - " + JobLabel(c)
  {
    var other := OtherParticipant(Some(c), current);
    if other.Some? then DisplayName(other.value) + " - " + JobLabel(c) else "Unknown User"
  }

  /** The placeholder appears exactly when the other participant is missing: a real name always carries " - ". */
  lemma UnknownExactlyWithoutParticipant(c: ConversationView, current: Option<UserId>)
    ensures ConversationName(c, current) == "Unknown User" <==> OtherParticipant(Some(c), current).None?
  {
    var other := OtherParticipant(Some(c), current);
    if other.Some? {
      var name := DisplayName(other.value);
      var r := ConversationName(c, current);
      assert r[|name| + 1] == '-';
      assert '-' in r;
      assert '-' !in "Unknown User";
    }
  }

  /** A message is drawn on the sender's side exactly when the current user sent it. */
  function MessageSide(m: Message, current: UserId): (r: string)
    ensures r == "sent" <==> m.senderId == current
    ensures r == "received" <==> m.senderId != current
  {
    if m.senderId == current then "sent" else "received"
  }

  /** The typing indicator: the other participant's display name is in the typing set. */
  predicate TypingIndicatorShown(typing: set<string>, other: Option<Person>)
  {
    other.Some? && DisplayName(other.value) in typing
  }

  /**
   * With the typing state as written, once the other participant has started
   * typing the indicator stays on after they stop.
   */
  lemma IndicatorOutlivesTyping(typing: set<string>, other: Person)
    ensures TypingIndicatorShown(
      AfterStopTyping(AfterTyping(typing, RelayStart(StartSignal(other))), RelayStop(StopSignal(other))), Some(other))
  {
    StopNeverClearsTyping(typing, other);
  }

  /** The send guard: non-blank input and an open conversation. */
  predicate CanSend(input: string, active: Option<ConversationView>)
  {
    Trim(input) != "" && active.Some?
  }

  /** The window's own state: the text in the input and whether a typing signal is running. */
  class ChatWindowState {
    var messageInput: string
    var isTyping: bool

    constructor ()
      ensures messageInput == "" && !isTyping
    {
      messageInput, isTyping := "", false;
    }

    /**
     * `handleSendMessage`: nothing happens for blank input or without an
     * open conversation; otherwise the trimmed text is sent, and once the
     * message is stored the input is cleared and typing stops. A failed send
     * keeps the input.
     */
    method HandleSendMessage(active: Option<ConversationView>, chat: ChatClient, response: Option<Message>)
      returns (sentText: Option<string>)
      modifies this, chat
      ensures sentText.Some? <==> CanSend(old(messageInput), active)
      ensures sentText.Some? ==> sentText.value == Trim(old(messageInput)) && sentText.value != ""
      ensures sentText.None? ==> unchanged(this) && unchanged(chat)
      ensures sentText.Some? && response.Some? ==>
        messageInput == "" && !isTyping &&
        chat.messages == old(chat.messages) + [response.value] &&
        chat.conversations == WithLastMessage(old(chat.conversations), active.value.id, response.value)
      ensures sentText.Some? && response.None? ==> unchanged(this) && unchanged(chat)
    {
      if Trim(messageInput) == "" || active.None? {
        return None;
      }
      sentText := Some(Trim(messageInput));
      var stored := chat.SendMessage(active.value.id, response);
      if stored.Some? {
        messageInput := "";
        isTyping := false;
      }
    }
  }
}
