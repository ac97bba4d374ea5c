/** The dashboard's team chat: building a message from the input, the two
    send paths, and the rule applied to each snapshot of the chat
    collection. The remote saveMessage is an effect recorded in order. */
module DashboardChat {
  import opened Wrappers
  import opened Text
  import opened Auth
  import opened Records

  const YouName := "You"
  const DefaultAvatar := "\U{1F464}"

  /** The object handed to saveMessage. */
  datatype ChatDraft = ChatDraft(user: string, message: string, time: string, avatar: string)


  /** user?.email?.split('@')[0] || 'You'. */
  function SenderName(user: Option<AuthUser>): (r: string)
    ensures r != ""
    ensures user.Some? && user.value.email.Some? && BeforeFirst(user.value.email.value, '@') != [] ==>
      r == BeforeFirst(user.value.email.value, '@')
    ensures r == YouName || (user.Some? && user.value.email.Some? && StartsWith(user.value.email.value, r) && '@' !in r)
  {
    if user.Some? && user.value.email.Some? && BeforeFirst(user.value.email.value, '@') != [] then
      BeforeFirst(user.value.email.value, '@')
    else YouName
  }

  /** The record built from the input; time is the formatted clock text. */
  function Draft(user: Option<AuthUser>, input: string, time: string): ChatDraft {
    ChatDraft(SenderName(user), Trim(input), time, DefaultAvatar)
  }

  /** disabled={!newMessage.trim()}. */
  predicate SendDisabled(input: string) {
    Trim(input) == []
  }

  /** The three sample messages saved when the collection is empty. */
  function InitMessages(): seq<ChatDraft> {
    [ ChatDraft("Alice Johnson", "Hey team! How's the new AI model performing?", "10:30 AM", "\U{1F469}\U{200D}\U{1F4BC}"),
      ChatDraft("Bob Smith", "Looking great! Success rate is up 15% this week.", "10:32 AM", "\U{1F468}\U{200D}\U{1F4BB}"),
      ChatDraft("Carol Davis", "Awesome work everyone! \U{1F680}", "10:35 AM", "\U{1F469}\U{200D}\U{1F52C}") ]
  }

  class ChatPanel {
    var messages: seq<ChatMessage>
    var newMessage: string
    /** Every record passed to saveMessage, in order. */
    var sent: seq<ChatDraft>

    constructor ()
      ensures messages == [] && newMessage == "" && sent == []
    {
      messages, newMessage, sent := [], "", [];
    }

    method Edit(text: string)
      modifies this
      ensures newMessage == text && messages == old(messages) && sent == old(sent)
    {
      newMessage := text;
    }

    /** One send: save the draft; clear the input once the save has
        resolved (saved), keep it when the save rejects. */
    method Send(user: Option<AuthUser>, time: string, saved: bool)
      requires !SendDisabled(newMessage)
      modifies this
      ensures sent == old(sent) + [Draft(user, old(newMessage), time)]
      ensures newMessage == if saved then "" else old(newMessage)
      ensures messages == old(messages)
    {
      var newMsg := Draft(user, newMessage, time);
      sent := sent + [newMsg];
      if saved {
        newMessage := "";
      }
    }

    /** onKeyPress: only Enter with a non-blank input sends. */
    method OnKeyPress(key: string, user: Option<AuthUser>, time: string, saved: bool)
      modifies this
      ensures key == "Enter" && !SendDisabled(old(newMessage)) ==>
        sent == old(sent) + [Draft(user, old(newMessage), time)]
        && newMessage == (if saved then "" else old(newMessage)) && messages == old(messages)
      ensures !(key == "Enter" && !SendDisabled(old(newMessage))) ==>
        sent == old(sent) && newMessage == old(newMessage) && messages == old(messages)
    {
      if key == "Enter" && !SendDisabled(newMessage) {
        Send(user, time, saved);
      }
    }

    /** onClick of the Send button: a non-blank input sends. */
    method OnSendClick(user: Option<AuthUser>, time: string, saved: bool)
      modifies this
      ensures !SendDisabled(old(newMessage)) ==>
        sent == old(sent) + [Draft(user, old(newMessage), time)]
        && newMessage == (if saved then "" else old(newMessage)) && messages == old(messages)
      ensures SendDisabled(old(newMessage)) ==>
        sent == old(sent) && newMessage == old(newMessage) && messages == old(messages)
    {
      if !SendDisabled(newMessage) {
        Send(user, time, saved);
      }
    }

    /** The listenToMessages callback: an empty snapshot saves the three
        samples (forEach) and displays nothing new; any other snapshot
        becomes the displayed list. */
    method OnSnapshot(data: seq<ChatMessage>)
      modifies this
      ensures data == [] ==> sent == old(sent) + InitMessages() && messages == old(messages)
      ensures data != [] ==> messages == data && sent == old(sent)
      ensures newMessage == old(newMessage)
    {
      if |data| == 0 {
        var seeds := InitMessages();
        for i := 0 to |seeds|
          invariant sent == old(sent) + seeds[..i]
          invariant messages == old(messages) && newMessage == old(newMessage)
        {
          assert seeds[..i + 1] == seeds[..i] + [seeds[i]];
          sent := sent + [seeds[i]];
        }
        assert seeds[..|seeds|] == seeds;
      } else {
        messages := data;
      }
    }
  }

  /** The record both send paths build (OnKeyPress and OnSendClick both
      send this Draft) carries the trimmed input, never blank. */
  lemma SendPathsAgree(user: Option<AuthUser>, input: string, time: string)
    requires !SendDisabled(input)
    ensures Draft(user, input, time).message == Trim(input) && Trim(input) != []
    ensures !IsWhiteSpace(Draft(user, input, time).message[0])
    ensures !AllWhiteSpace(input)
  {
    TrimFacts(input);
  }

  /** The sender is 'You' exactly when there is no user or no email, the
      email starts with '@', or the text before its first '@' is 'You'. */
  lemma SenderFallback(user: Option<AuthUser>)
    ensures SenderName(user) == YouName <==>
      user.None? || user.value.email.None? || BeforeFirst(user.value.email.value, '@') == [] ||
      BeforeFirst(user.value.email.value, '@') == YouName
  {
  }

  lemma SenderOfFullEmail(local: string, domain: string)
    requires local != [] && '@' !in local
    ensures SenderName(Some(AuthUser("", Some(local + "@" + domain)))) == local
  {
    BeforeFirstPrefix(local, domain);
  }

  lemma {:induction false} BeforeFirstPrefix(local: string, domain: string)
    requires '@' !in local
    ensures BeforeFirst(local + "@" + domain, '@') == local
  {
    if local != [] {
      assert (local + "@" + domain)[1..] == local[1..] + "@" + domain;
      BeforeFirstPrefix(local[1..], domain);
    }
  }
}
