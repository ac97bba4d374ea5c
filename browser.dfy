/** The parts of the browser the components change: window.localStorage,
    the class list of document.documentElement, and the events and alerts
    raised on window. */
module Browser {
  import opened Records

  /** What localStorage holds under one key, as the dashboard's readers see
      it. Absent is getItem returning null for a key that is not stored.
      Raw is text that JSON.parse rejects with a SyntaxError: the falsy
      empty string, the theme settings "dark" and "light", or malformed
      JSON. The remaining cases are the JSON documents the services
      write. */
  datatype Stored =
    | Absent
    | Raw(text: string)
    | PromptArray(prompts: seq<Prompt>)
    | NotificationArray(notifications: seq<Notification>)
    | RegistryObject(entries: map<string, RegistryEntry>)
    | ChatArray(messages: seq<ChatMessage>)

  /** localStorage.getItem(key). */
  function Lookup(items: map<string, Stored>, key: string): Stored {
    if key in items then items[key] else Absent
  }

  /** `stored ? … : default` takes the default branch: getItem gave null or "". */
  predicate IsFalsy(v: Stored) {
    v == Absent || v == Raw("")
  }

  /** Only stored items are keys: localStorage.key(i) never lists a key
      whose getItem is null. */
  ghost predicate NoAbsentValues(items: map<string, Stored>) {
    forall k :: k in items ==> items[k] != Absent
  }

  /** With no absent values, the keys of the map are exactly the keys
      getItem finds. */
  lemma StoredKeysAreKeys(items: map<string, Stored>)
    requires NoAbsentValues(items)
    ensures forall k :: k in items <==> Lookup(items, k) != Absent
  {
  }

  class LocalStorage {
    var items: map<string, Stored>

    ghost predicate Valid()
      reads this
    {
      NoAbsentValues(items)
    }

    constructor (initial: map<string, Stored>)
      requires NoAbsentValues(initial)
      ensures items == initial && Valid()
    {
      items := initial;
    }

    /** localStorage.setItem(key, value): overwrites one key, last writer wins. */
    method SetItem(key: string, value: Stored)
      requires value != Absent
      modifies this
      ensures items == old(items)[key := value]
      ensures old(Valid()) ==> Valid()
    {
      items := items[key := value];
    }
  }

  /** document.documentElement and its classList. */
  class DocumentElement {
    var classList: set<string>

    constructor (classes: set<string>)
      ensures classList == classes
    {
      classList := classes;
    }

    method AddClass(name: string)
      modifies this
      ensures classList == old(classList) + {name}
    {
      classList := classList + {name};
    }

    method RemoveClass(name: string)
      modifies this
      ensures classList == old(classList) - {name}
    {
      classList := classList - {name};
    }
  }

  /** window: the custom events dispatched on it and the alerts it showed. */
  class Window {
    var dispatched: seq<string>
    var alerts: seq<string>

    constructor ()
      ensures dispatched == [] && alerts == []
    {
      dispatched, alerts := [], [];
    }

    /** window.dispatchEvent(new CustomEvent(name)). */
    method DispatchEvent(name: string)
      modifies this
      ensures dispatched == old(dispatched) + [name] && alerts == old(alerts)
    {
      dispatched := dispatched + [name];
    }

    /** window.alert(message). */
    method Alert(message: string)
      modifies this
      ensures alerts == old(alerts) + [message] && dispatched == old(dispatched)
    {
      alerts := alerts + [message];
    }
  }
}
