/** The fixed dark/light switch: the theme held by the component, the
    `data-theme` attribute of the document element and the `theme` key of
    the browser's local storage. */
module ThemeToggle {
  import opened Wrappers

  const Dark := "dark"
  const Light := "light"
  const ThemeKey := "theme"

  /** The theme after a click: dark turns light, anything else turns dark. */
  function NextTheme(theme: string): (next: string)
    ensures next == Dark || next == Light
    ensures next == Light <==> theme == Dark
  {
    if theme == Dark then Light else Dark
  }

  /** `localStorage.getItem("theme") || "dark"`: the stored theme, or dark
      when nothing or the empty string is stored. */
  function InitialTheme(storage: map<string, string>): (theme: string)
    ensures theme != ""
    ensures ThemeKey in storage && storage[ThemeKey] != "" ==> theme == storage[ThemeKey]
    ensures ThemeKey !in storage || storage[ThemeKey] == "" ==> theme == Dark
  {
    if ThemeKey in storage && storage[ThemeKey] != "" then storage[ThemeKey] else Dark
  }

  /** The word on the button: the theme a click would switch to, capitalised,
      except that any theme other than light offers light. */
  function ButtonWord(theme: string): (w: string)
    ensures w == "Dark" <==> theme == Light
    ensures w == "Dark" || w == "Light"
  {
    if theme == Light then "Dark" else "Light"
  }

  /** Two clicks from either proper theme come back to it. */
  lemma {:induction false} ToggleTwice(theme: string)
    requires theme == Dark || theme == Light
    ensures NextTheme(NextTheme(theme)) == theme
  {
    if theme == Dark {
      assert NextTheme(theme) == Light;
      assert Light != Dark by { assert Light[0] != Dark[0]; }
    } else {
      assert NextTheme(theme) == Dark;
    }
  }

  /** From any theme at all, two clicks reach a proper theme and stay in the
      two-cycle from then on. */
  lemma {:induction false} ToggleSettles(theme: string)
    ensures NextTheme(theme) == Dark || NextTheme(theme) == Light
    ensures NextTheme(NextTheme(NextTheme(theme))) == NextTheme(theme)
  {
    ToggleTwice(NextTheme(theme));
  }

  /** The mounted component. */
  class ThemeSwitch {
    var theme: string
    /** The `data-theme` attribute of the document element, if set. */
    var dataTheme: Option<string>
    /** The browser's local storage. */
    var storage: map<string, string>

    /** The three places agree. */
    ghost predicate Synced()
      reads this
    {
      dataTheme == Some(theme) && ThemeKey in storage && storage[ThemeKey] == theme
    }

    /** The first render, before the mount effect: the component holds dark
        and the page is untouched. */
    constructor (attribute: Option<string>, stored: map<string, string>)
      ensures theme == Dark && dataTheme == attribute && storage == stored
    {
      theme := Dark;
      dataTheme := attribute;
      storage := stored;
    }

    /** The mount effect: adopt the stored theme and put it on the document.
        Storage is only read. */
    method Mount()
      modifies this
      ensures theme == InitialTheme(old(storage))
      ensures dataTheme == Some(theme)
      ensures storage == old(storage)
    {
      var stored := InitialTheme(storage);
      theme := stored;
      dataTheme := Some(stored);
    }

    /** `toggleTheme`: switch, then write the new theme to the document and
        to storage; every other storage key is kept. */
    method Toggle()
      modifies this
      ensures theme == NextTheme(old(theme))
      ensures Synced()
      ensures storage == old(storage)[ThemeKey := theme]
    {
      var next := NextTheme(theme);
      theme := next;
      dataTheme := Some(next);
      storage := storage[ThemeKey := next];
    }
  }

  /** Mounting and then clicking once from a page with no stored theme
      leaves everything light. */
  method FirstVisitClick() returns (theme: string, attribute: Option<string>, stored: Option<string>)
    ensures theme == Light && attribute == Some(Light) && stored == Some(Light)
  {
    var s := new ThemeSwitch(None, map[]);
    s.Mount();
    s.Toggle();
    theme, attribute := s.theme, s.dataTheme;
    stored := if ThemeKey in s.storage then Some(s.storage[ThemeKey]) else None;
  }
}
