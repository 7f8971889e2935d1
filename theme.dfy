/**
 * The colour-theme hook (hooks/use-theme.ts, useTheme). The hook's theme is
 * React state; localStorage is a string-to-string map and the `dark` class
 * on the document element is a flag.
 */
module Theme {
  import opened Wrappers

  datatype Theme = Light | Dark

  /** The localStorage key the preference lives under. */
  const ThemeKey: string := "theme"

  /** The hook's theme before any stored preference is read. */
  const DefaultTheme: Theme := Dark

  /** The string stored for a theme. */
  function Name(t: Theme): string {
    match t
    case Light => "light"
    case Dark => "dark"
  }

  /** The check the restore effect applies to the stored string: only the
      exact strings "light" and "dark" are themes. */
  function Parse(s: string): (r: Option<Theme>)
    ensures r.Some? <==> s == "light" || s == "dark"
    ensures r.Some? ==> Name(r.value) == s
  {
    if s == "light" then Some(Light) else if s == "dark" then Some(Dark) else None
  }

  /** Reading back what was written gives the same theme. */
  lemma ParseName(t: Theme)
    ensures Parse(Name(t)) == Some(t)
  {
  }

  function Flip(t: Theme): (r: Theme)
    ensures r != t
  {
    if t == Dark then Light else Dark
  }

  /** Toggling twice gives back the theme. */
  lemma FlipTwice(t: Theme)
    ensures Flip(Flip(t)) == t
  {
  }

  /** The hook's state together with the browser state it touches. */
  datatype ThemeEnv = ThemeEnv(theme: Theme, storage: map<string, string>, darkClass: bool)

  /** Mounting: the theme is Dark whatever the browser holds. */
  function Mount(storage: map<string, string>, darkClass: bool): (r: ThemeEnv)
    ensures r.theme == DefaultTheme && r.storage == storage && r.darkClass == darkClass
  {
    ThemeEnv(Dark, storage, darkClass)
  }

  /** The restore effect: a stored "light" or "dark" is adopted and the dark
      class set to match; anything else, or nothing stored, changes nothing. */
  function Restored(e: ThemeEnv): (r: ThemeEnv)
    ensures r.storage == e.storage
    ensures ThemeKey in e.storage && Parse(e.storage[ThemeKey]).Some? ==>
      Name(r.theme) == e.storage[ThemeKey] && (r.darkClass <==> e.storage[ThemeKey] == "dark")
    ensures !(ThemeKey in e.storage && Parse(e.storage[ThemeKey]).Some?) ==> r == e
  {
    var saved := if ThemeKey in e.storage then Some(e.storage[ThemeKey]) else None;
    if saved.Some? && (saved.value == "light" || saved.value == "dark") then
      ThemeEnv(if saved.value == "light" then Light else Dark, e.storage, saved.value == "dark")
    else
      e
  }

  /** The toggle: the theme flips, the new name is written under "theme" and
      the dark class is set exactly when the new theme is Dark. */
  function Toggled(e: ThemeEnv): (r: ThemeEnv)
    ensures r.theme == Flip(e.theme)
    ensures ThemeKey in r.storage && Parse(r.storage[ThemeKey]) == Some(r.theme)
    ensures r.storage.Keys == e.storage.Keys + {ThemeKey}
    ensures forall k :: k in e.storage && k != ThemeKey ==> r.storage[k] == e.storage[k]
    ensures r.darkClass <==> r.theme == Dark
  {
    var newTheme := if e.theme == Dark then Light else Dark;
    ThemeEnv(newTheme, e.storage[ThemeKey := Name(newTheme)], newTheme == Dark)
  }

  /** Toggling twice restores the theme and leaves the dark class matching it;
      the stored value then names the original theme. */
  lemma ToggleTwice(e: ThemeEnv)
    ensures var r := Toggled(Toggled(e));
      && r.theme == e.theme
      && (r.darkClass <==> e.theme == Dark)
      && r.storage == e.storage[ThemeKey := Name(e.theme)]
  {
    FlipTwice(e.theme);
  }

  /** The preference survives a reload: after a toggle, a fresh mount that
      restores from the same storage comes up in the toggled theme with the
      dark class matching it. */
  lemma TogglePersists(e: ThemeEnv, darkClass: bool)
    ensures var t := Toggled(e);
      var r := Restored(Mount(t.storage, darkClass));
      r.theme == t.theme && r.darkClass == t.darkClass
  {
    var t := Toggled(e);
    ParseName(t.theme);
  }

  /** The hook with the browser state it touches. */
  class ThemeHook {
    var theme: Theme
    /** localStorage. */
    var storage: map<string, string>
    /** Whether the document element carries the `dark` class. */
    var darkClass: bool

    function Env(): ThemeEnv
      reads this
    {
      ThemeEnv(theme, storage, darkClass)
    }

    constructor(storage: map<string, string>, darkClass: bool)
      ensures Env() == Mount(storage, darkClass)
      ensures theme == Dark
    {
      theme := Dark;
      this.storage := storage;
      this.darkClass := darkClass;
    }

    /** The mount effect: adopt a valid stored preference. */
    method Restore()
      modifies this
      ensures Env() == Restored(old(Env()))
      ensures storage == old(storage)
    {
      var saved: Option<string> := if ThemeKey in storage then Some(storage[ThemeKey]) else None;
      if saved.Some? && (saved.value == "light" || saved.value == "dark") {
        theme := if saved.value == "light" then Light else Dark;
        darkClass := saved.value == "dark";
      }
    }

    /** toggleTheme. */
    method Toggle()
      modifies this
      ensures Env() == Toggled(old(Env()))
      ensures theme != old(theme)
      ensures storage == old(storage)[ThemeKey := Name(theme)]
      ensures darkClass <==> theme == Dark
    {
      var newTheme := if theme == Dark then Light else Dark;
      theme := newTheme;
      storage := storage[ThemeKey := Name(newTheme)];
      darkClass := newTheme == Dark;
    }
  }
}
