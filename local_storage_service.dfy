/** The prompt store and the local chat log: each save reads the whole
    array, appends one record and writes the whole array back. */
module LocalStorageService {
  import opened Wrappers
  import opened Text
  import opened Records
  import opened Browser

  const PromptsKeyBase := "ai_dashboard_prompts"
  const ChatKey := "ai_dashboard_chat"

  /** `${PROMPTS_KEY}_${uid}`. */
  function PromptsKey(uid: string): string {
    PromptsKeyBase + "_" + uid
  }

  lemma PromptsKeyInjective(u: string, v: string)
    requires PromptsKey(u) == PromptsKey(v)
    ensures u == v
  {
    PrefixCancel(PromptsKeyBase + "_", u, v);
  }

  /** The SyntaxError JSON.parse throws on malformed text. */
  datatype ParseError = SyntaxError

  /** `stored ? JSON.parse(stored) : []` on a key that holds a prompt array. */
  function ParsePromptArray(v: Stored): (r: Result<seq<Prompt>, ParseError>)
    ensures IsFalsy(v) ==> r == Success([])
    ensures v.PromptArray? ==> r == Success(v.prompts)
    ensures r.Failure? <==> !IsFalsy(v) && !v.PromptArray?
  {
    match v
    case PromptArray(ps) => Success(ps)
    case _ => if IsFalsy(v) then Success([]) else Failure(SyntaxError)
  }

  /** getPromptsLocal(uid): there is no try/catch, so malformed text
      surfaces to the caller as a thrown SyntaxError. */
  function GetPromptsLocal(items: map<string, Stored>, uid: string): Result<seq<Prompt>, ParseError> {
    ParsePromptArray(Lookup(items, PromptsKey(uid)))
  }

  /** What a save returns (or throws) and the storage it leaves behind. */
  datatype Saved<T> = Saved(result: Result<T, ParseError>, items: map<string, Stored>)

  /** savePromptLocal(uid, prompt) with the clock reading idTime for the id
      and time for the timestamp. */
  function SavePrompt(items: map<string, Stored>, uid: string, prompt: string, idTime: nat, time: nat): Saved<Prompt> {
    match GetPromptsLocal(items, uid)
    case Failure(e) => Saved(Failure(e), items)
    case Success(ps) =>
      var p := Prompt(DecimalString(idTime), uid, prompt, time);
      Saved(Success(p), items[PromptsKey(uid) := PromptArray(ps + [p])])
  }

  method SavePromptLocal(st: LocalStorage, uid: string, prompt: string, idTime: nat, time: nat)
    returns (r: Result<Prompt, ParseError>)
    requires idTime <= time
    modifies st
    ensures old(st.Valid()) ==> st.Valid()
    ensures r == SavePrompt(old(st.items), uid, prompt, idTime, time).result
    ensures st.items == SavePrompt(old(st.items), uid, prompt, idTime, time).items
  {
    var read := GetPromptsLocal(st.items, uid);
    if read.Failure? {
      return Failure(read.error);
    }
    var prompts := read.value;
    var newPrompt := Prompt(DecimalString(idTime), uid, prompt, time);
    prompts := prompts + [newPrompt];
    st.SetItem(PromptsKey(uid), PromptArray(prompts));
    r := Success(newPrompt);
  }

  /** Save then read back: the old sequence followed by exactly one new
      record carrying the given uid and text verbatim; if the old array was
      malformed, the save throws and storage is untouched. */
  lemma SaveThenGet(items: map<string, Stored>, uid: string, prompt: string, idTime: nat, time: nat)
    ensures var s := SavePrompt(items, uid, prompt, idTime, time);
      match GetPromptsLocal(items, uid)
      case Failure(e) => s.result == Failure(e) && s.items == items
      case Success(ps) =>
        && s.result.Success?
        && s.result.value.uid == uid && s.result.value.prompt == prompt
        && s.result.value.timestamp == time && s.result.value.id == DecimalString(idTime)
        && GetPromptsLocal(s.items, uid) == Success(ps + [s.result.value])
  {
  }

  /** A save writes only the key ai_dashboard_prompts_<uid>; in particular
      every other user's prompts read back as before. */
  lemma SavePromptIsolation(items: map<string, Stored>, uid: string, prompt: string, idTime: nat, time: nat)
    ensures var s := SavePrompt(items, uid, prompt, idTime, time);
      && (forall k :: k != PromptsKey(uid) ==> Lookup(s.items, k) == Lookup(items, k))
      && (forall other :: other != uid ==> GetPromptsLocal(s.items, other) == GetPromptsLocal(items, other))
  {
    forall other | other != uid
      ensures PromptsKey(other) != PromptsKey(uid)
    {
      if PromptsKey(other) == PromptsKey(uid) {
        PromptsKeyInjective(other, uid);
      }
    }
  }

  /** The spread message as saveChatLocal receives it: any field may be
      given, id and timestamp included. */
  datatype ChatInput = ChatInput(
    id: Option<string>, user: string, message: string, time: string, avatar: string,
    timestamp: Option<int>)

  /** `{ id: Date.now().toString(), ...message, timestamp: Date.now() }`. */
  function NewChatMessage(m: ChatInput, idTime: nat, time: nat): ChatMessage {
    ChatMessage(
      if m.id.Some? then m.id.value else DecimalString(idTime),
      m.user, m.message, m.time, m.avatar, time)
  }

  /** A supplied id wins over the generated one; a supplied timestamp never does. */
  lemma ChatRecordFields(m: ChatInput, idTime: nat, time: nat)
    ensures NewChatMessage(m, idTime, time).timestamp == time
    ensures NewChatMessage(m, idTime, time).id == if m.id.Some? then m.id.value else DecimalString(idTime)
    ensures forall t :: NewChatMessage(m.(timestamp := t), idTime, time) == NewChatMessage(m, idTime, time)
  {
  }

  function ParseChatArray(v: Stored): (r: Result<seq<ChatMessage>, ParseError>)
    ensures IsFalsy(v) ==> r == Success([])
    ensures v.ChatArray? ==> r == Success(v.messages)
    ensures r.Failure? <==> !IsFalsy(v) && !v.ChatArray?
  {
    match v
    case ChatArray(ms) => Success(ms)
    case _ => if IsFalsy(v) then Success([]) else Failure(SyntaxError)
  }

  /** getChatLocal(): [] when the single shared chat key is absent or empty. */
  function GetChatLocal(items: map<string, Stored>): Result<seq<ChatMessage>, ParseError> {
    ParseChatArray(Lookup(items, ChatKey))
  }

  function SaveChat(items: map<string, Stored>, m: ChatInput, idTime: nat, time: nat): Saved<ChatMessage> {
    match GetChatLocal(items)
    case Failure(e) => Saved(Failure(e), items)
    case Success(ms) =>
      var c := NewChatMessage(m, idTime, time);
      Saved(Success(c), items[ChatKey := ChatArray(ms + [c])])
  }

  method SaveChatLocal(st: LocalStorage, message: ChatInput, idTime: nat, time: nat)
    returns (r: Result<ChatMessage, ParseError>)
    requires idTime <= time
    modifies st
    ensures old(st.Valid()) ==> st.Valid()
    ensures r == SaveChat(old(st.items), message, idTime, time).result
    ensures st.items == SaveChat(old(st.items), message, idTime, time).items
  {
    var read := GetChatLocal(st.items);
    if read.Failure? {
      return Failure(read.error);
    }
    var messages := read.value;
    var newMessage := NewChatMessage(message, idTime, time);
    messages := messages + [newMessage];
    st.SetItem(ChatKey, ChatArray(messages));
    r := Success(newMessage);
  }

  /** Saving a chat message appends one record to the shared log and writes
      no other key. */
  lemma SaveChatThenGet(items: map<string, Stored>, m: ChatInput, idTime: nat, time: nat)
    ensures var s := SaveChat(items, m, idTime, time);
      && (forall k :: k != ChatKey ==> Lookup(s.items, k) == Lookup(items, k))
      && match GetChatLocal(items)
         case Failure(e) => s.result == Failure(e) && s.items == items
         case Success(ms) =>
           s.result == Success(NewChatMessage(m, idTime, time))
           && GetChatLocal(s.items) == Success(ms + [NewChatMessage(m, idTime, time)])
  {
  }
}
