/** The theme toggle (src/components/layout/ThemeToggle.tsx): the theme chosen on
    mount, the toggle, and the 'dark' class on the document root. Storage and the
    system preference are inputs; the stored value is cast without a check, so the
    theme is any string. */
module Theme {
  import opened Wrappers

  /** The component's theme, the presence of the root's 'dark' class, and the
      stored 'ui-theme' entry. */
  datatype ThemeState = ThemeState(theme: string, darkClass: bool, stored: Option<string>)

  /** The theme on mount: the stored one if there is a non-empty one, else dark when
      the system prefers it, else light. */
  function InitialTheme(stored: Option<string>, prefersDark: bool): (t: string)
    ensures Truthy(stored) ==> t == stored.value
    ensures !Truthy(stored) && prefersDark ==> t == "dark"
    ensures !Truthy(stored) && !prefersDark ==> t == "light"
  {
    if Truthy(stored) then stored.value else if prefersDark then "dark" else "light"
  }

  /** `applyTheme`: the class is there exactly for the dark theme. */
  function Apply(theme: string): (darkClass: bool)
    ensures darkClass <==> theme == "dark"
  {
    theme == "dark"
  }

  /** The mount effect: choose the theme and apply it; storage is only read. */
  function Mount(stored: Option<string>, prefersDark: bool): (st: ThemeState)
    ensures st.theme == InitialTheme(stored, prefersDark)
    ensures st.darkClass <==> st.theme == "dark"
    ensures st.stored == stored
  {
    var t := InitialTheme(stored, prefersDark);
    ThemeState(t, Apply(t), stored)
  }

  /** `toggleTheme`: light becomes dark and anything else light; the new theme is
      applied and stored. */
  function Toggle(st: ThemeState): (r: ThemeState)
    ensures st.theme == "light" ==> r.theme == "dark"
    ensures st.theme != "light" ==> r.theme == "light"
    ensures r.darkClass <==> r.theme == "dark"
    ensures r.stored == Some(r.theme)
  {
    var t := if st.theme == "light" then "dark" else "light";
    ThemeState(t, Apply(t), Some(t))
  }

  /** Toggling twice gives back a light or dark theme and its class. */
  lemma ToggleTwice(st: ThemeState)
    requires st.theme == "light" || st.theme == "dark"
    ensures Toggle(Toggle(st)).theme == st.theme
    ensures Toggle(Toggle(st)).darkClass <==> st.theme == "dark"
  {
  }

  /** `n` presses of the toggle. */
  function ToggleTimes(st: ThemeState, n: nat): ThemeState
    decreases n
  {
    if n == 0 then st else ToggleTimes(Toggle(st), n - 1)
  }

  /** After mount and any number of presses the root has the 'dark' class exactly
      for the dark theme; after at least one press the stored entry is the theme and
      the theme is light or dark, alternating with the parity of the presses. */
  lemma {:induction false} ToggleRun(stored: Option<string>, prefersDark: bool, n: nat)
    ensures var st := ToggleTimes(Mount(stored, prefersDark), n);
      st.darkClass <==> st.theme == "dark"
    ensures n > 0 ==> var st := ToggleTimes(Mount(stored, prefersDark), n);
      st.stored == Some(st.theme) && (st.theme == "light" || st.theme == "dark")
  {
    ToggleRunFrom(Mount(stored, prefersDark), n);
  }

  lemma {:induction false} ToggleRunFrom(st: ThemeState, n: nat)
    requires st.darkClass <==> st.theme == "dark"
    ensures ToggleTimes(st, n).darkClass <==> ToggleTimes(st, n).theme == "dark"
    ensures n > 0 ==> ToggleTimes(st, n).stored == Some(ToggleTimes(st, n).theme)
    ensures n > 0 ==> ToggleTimes(st, n).theme in {"light", "dark"}
    decreases n
  {
    if n > 0 {
      ToggleRunFrom(Toggle(st), n - 1);
      if n - 1 == 0 {
        assert ToggleTimes(st, n) == Toggle(st);
      }
    }
  }

  /** A toggled theme survives a reload, whatever the system prefers. */
  lemma ToggleSurvivesReload(st: ThemeState, prefersDark: bool)
    ensures Mount(Toggle(st).stored, prefersDark).theme == Toggle(st).theme
    ensures Mount(Toggle(st).stored, prefersDark).darkClass == Toggle(st).darkClass
  {
  }
}
