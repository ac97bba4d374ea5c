/** The prompt form: its submit guard, the save of the trimmed text, and
    the clear-and-notify or alert that follows. */
module PromptFormComponent {
  import opened Wrappers
  import opened Text
  import opened Records
  import opened Browser
  import opened Auth
  import LocalStorageService

  const FailureAlert := "Failed to save prompt. Please try again."
  const SavedEvent := "promptSaved"

  /** The guard of handleSubmit: a non-blank input and a signed-in user. */
  predicate WillSave(prompt: string, user: Option<AuthUser>) {
    Trim(prompt) != [] && user.Some?
  }

  /** disabled={!prompt.trim() || loading}. */
  predicate SubmitDisabled(prompt: string, loading: bool) {
    Trim(prompt) == [] || loading
  }

  /** An enabled button submits (for a signed-in user); an input of
      whitespace only never saves and always disables the button. */
  lemma SubmitGuardAgreement(prompt: string, loading: bool, user: Option<AuthUser>)
    ensures !SubmitDisabled(prompt, loading) && user.Some? ==> WillSave(prompt, user)
    ensures AllWhiteSpace(prompt) ==> !WillSave(prompt, user) && SubmitDisabled(prompt, loading)
    ensures !AllWhiteSpace(prompt) && !loading ==> !SubmitDisabled(prompt, loading)
  {
    TrimFacts(prompt);
  }

  /** The text a submit stores carries no surrounding whitespace and is
      unchanged by trimming again. */
  lemma SavedTextIsTrimmed(items: map<string, Stored>, uid: string, prompt: string, idTime: nat, time: nat)
    requires Trim(prompt) != []
    ensures var s := LocalStorageService.SavePrompt(items, uid, Trim(prompt), idTime, time);
      s.result.Success? ==>
        && Trim(s.result.value.prompt) == s.result.value.prompt
        && !IsWhiteSpace(s.result.value.prompt[0])
        && !IsWhiteSpace(s.result.value.prompt[|s.result.value.prompt| - 1])
  {
    var text := Trim(prompt);
    LocalStorageService.SaveThenGet(items, uid, text, idTime, time);
    TrimFacts(prompt);
    TrimIdempotent(prompt);
  }

  class PromptForm {
    var prompt: string
    var loading: bool
    /** The values passed to setLoading, in order. */
    var loadingHistory: seq<bool>

    constructor ()
      ensures prompt == "" && !loading && loadingHistory == []
    {
      prompt, loading, loadingHistory := "", false, [];
    }

    /** onChange of the input. */
    method Edit(text: string)
      modifies this
      ensures prompt == text && loading == old(loading) && loadingHistory == old(loadingHistory)
    {
      prompt := text;
    }

    /** handleSubmit, with the clock readings taken by savePromptLocal. */
    method HandleSubmit(user: Option<AuthUser>, st: LocalStorage, win: Window, idTime: nat, time: nat)
      requires idTime <= time
      modifies this, st, win
      ensures old(st.Valid()) ==> st.Valid()
      ensures !WillSave(old(prompt), user) ==>
        && prompt == old(prompt) && loading == old(loading) && loadingHistory == old(loadingHistory)
        && st.items == old(st.items)
        && win.dispatched == old(win.dispatched) && win.alerts == old(win.alerts)
      ensures WillSave(old(prompt), user) ==>
        var s := LocalStorageService.SavePrompt(old(st.items), user.value.uid, Trim(old(prompt)), idTime, time);
        && st.items == s.items
        && !loading && loadingHistory == old(loadingHistory) + [true, false]
        && (s.result.Success? ==>
              prompt == "" && win.dispatched == old(win.dispatched) + [SavedEvent] && win.alerts == old(win.alerts))
        && (s.result.Failure? ==>
              prompt == old(prompt) && win.dispatched == old(win.dispatched) && win.alerts == old(win.alerts) + [FailureAlert])
    {
      if !WillSave(prompt, user) {
        return;
      }
      loading := true;
      loadingHistory := loadingHistory + [true];
      var text := Trim(prompt);
      ghost var before := st.items;
      var saved := LocalStorageService.SavePromptLocal(st, user.value.uid, text, idTime, time);
      LocalStorageService.SaveThenGet(before, user.value.uid, text, idTime, time);
      if saved.Success? {
        // The re-read after a save parses: the key now holds a prompt array.
        var check := LocalStorageService.GetPromptsLocal(st.items, user.value.uid);
        assert check.Success?;
        prompt := "";
        win.DispatchEvent(SavedEvent);
      } else {
        win.Alert(FailureAlert);
      }
      loading := false;
      loadingHistory := loadingHistory + [false];
    }
  }
}
