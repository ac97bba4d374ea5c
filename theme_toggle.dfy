/** The theme toggle: the initial choice from the saved setting and the
    system preference, and the toggle that flips it, persists it and
    mirrors it in the document's "dark" class. matchMedia's answer is a
    parameter. */
module ThemeToggleComponent {
  import opened Browser

  const ThemeKey := "theme"
  const DarkClass := "dark"

  /** saved === "dark" || (!saved && prefersDark). */
  function InitialDark(saved: Stored, prefersDark: bool): (dark: bool)
    ensures saved == Raw("dark") ==> dark
    ensures IsFalsy(saved) ==> dark == prefersDark
    ensures saved != Raw("dark") && !IsFalsy(saved) ==> !dark
  {
    saved == Raw("dark") || (IsFalsy(saved) && prefersDark)
  }

  /** The setting a toggle writes. */
  function StoredTheme(dark: bool): Stored {
    Raw(if dark then "dark" else "light")
  }

  /** The storage a toggle from isDark leaves. */
  function ThemeWritten(items: map<string, Stored>, isDark: bool): map<string, Stored> {
    items[ThemeKey := StoredTheme(!isDark)]
  }

  /** A reload after a toggle starts in the toggled theme, whatever the
      system prefers. */
  lemma ReloadKeepsToggledTheme(items: map<string, Stored>, isDark: bool, prefersDark: bool)
    ensures InitialDark(Lookup(ThemeWritten(items, isDark), ThemeKey), prefersDark) == !isDark
  {
  }

  /** Two toggles restore the theme but leave an explicit setting behind,
      even where none was saved before, so the system preference no longer
      decides. */
  lemma ToggleTwiceLeavesSetting(items: map<string, Stored>, isDark: bool, prefersDark: bool)
    ensures ThemeWritten(ThemeWritten(items, isDark), !isDark) == items[ThemeKey := StoredTheme(isDark)]
    ensures InitialDark(Lookup(ThemeWritten(ThemeWritten(items, isDark), !isDark), ThemeKey), prefersDark) == isDark
    ensures !IsFalsy(Lookup(ThemeWritten(ThemeWritten(items, isDark), !isDark), ThemeKey))
  {
  }

  class ThemeToggle {
    var isDark: bool

    constructor ()
      ensures !isDark
    {
      isDark := false;
    }

    /** The mount effect. */
    method Init(st: LocalStorage, doc: DocumentElement, prefersDark: bool)
      modifies this, doc
      ensures isDark == InitialDark(Lookup(st.items, ThemeKey), prefersDark)
      ensures DarkClass in doc.classList <==> isDark
      ensures doc.classList - {DarkClass} == old(doc.classList) - {DarkClass}
    {
      var saved := Lookup(st.items, ThemeKey);
      var shouldBeDark := saved == Raw("dark") || (IsFalsy(saved) && prefersDark);
      isDark := shouldBeDark;
      if shouldBeDark {
        doc.AddClass(DarkClass);
      } else {
        doc.RemoveClass(DarkClass);
      }
    }

    /** toggleTheme. */
    method Toggle(st: LocalStorage, doc: DocumentElement)
      modifies this, st, doc
      ensures old(st.Valid()) ==> st.Valid()
      ensures isDark == !old(isDark)
      ensures st.items == ThemeWritten(old(st.items), old(isDark))
      ensures DarkClass in doc.classList <==> isDark
      ensures doc.classList - {DarkClass} == old(doc.classList) - {DarkClass}
    {
      var newTheme := !isDark;
      isDark := newTheme;
      if newTheme {
        doc.AddClass(DarkClass);
        st.SetItem(ThemeKey, Raw("dark"));
      } else {
        doc.RemoveClass(DarkClass);
        st.SetItem(ThemeKey, Raw("light"));
      }
    }
  }
}
