/**
 * ThemeManager: the page's `data-theme` attribute on the body and the
 * "theme" entry of the browser's local storage. The attribute is "dark" for
 * the dark theme and absent for the light one; the stored entry is "dark" or
 * "light" once the user has chosen. Whether the system prefers a dark colour
 * scheme is an input.
 */
module Theme {
  import opened Wrappers

  const Dark := "dark"
  const Light := "light"

  /** The body's data-theme attribute (None: absent) and the stored "theme" entry (None: never set). */
  datatype ThemeState = ThemeState(dataTheme: Option<string>, savedTheme: Option<string>)

  predicate IsDark(st: ThemeState) {
    st.dataTheme == Some(Dark)
  }

  /** A stored value that JavaScript's `||` keeps: present and not the empty string. */
  predicate Truthy(stored: Option<string>) {
    stored.Some? && stored.value != ""
  }

  /** setDarkTheme(): set the attribute and remember the choice. */
  function DarkThemed(): ThemeState {
    ThemeState(Some(Dark), Some(Dark))
  }

  /** setLightTheme(): remove the attribute and remember the choice. */
  function LightThemed(): ThemeState {
    ThemeState(None, Some(Light))
  }

  /** toggleTheme(). */
  function Toggled(st: ThemeState): (r: ThemeState)
    ensures IsDark(r) == !IsDark(st)
    ensures r.savedTheme == Some(if IsDark(r) then Dark else Light)
    ensures r.dataTheme == Some(Dark) || r.dataTheme == None
  {
    if IsDark(st) then LightThemed() else DarkThemed()
  }

  /** The theme loadSavedTheme() looks for: the stored one, else the system preference. */
  function PreferredTheme(stored: Option<string>, systemPrefersDark: bool): string {
    if Truthy(stored) then stored.value else if systemPrefersDark then Dark else Light
  }

  /** loadSavedTheme(): switches to dark when the preferred theme is "dark"; never switches to light. */
  function Loaded(st: ThemeState, systemPrefersDark: bool): (r: ThemeState)
    ensures IsDark(r) <==> IsDark(st) || PreferredTheme(st.savedTheme, systemPrefersDark) == Dark
    ensures PreferredTheme(st.savedTheme, systemPrefersDark) != Dark ==> r == st
    ensures PreferredTheme(st.savedTheme, systemPrefersDark) == Dark ==> r.savedTheme == Some(Dark)
  {
    if PreferredTheme(st.savedTheme, systemPrefersDark) == Dark then DarkThemed() else st
  }

  /** The system colour-scheme listener: follows the system only while no theme is stored. */
  function SystemChanged(st: ThemeState, matchesDark: bool): (r: ThemeState)
    ensures Truthy(st.savedTheme) ==> r == st
    ensures !Truthy(st.savedTheme) ==> IsDark(r) == matchesDark && Truthy(r.savedTheme)
    ensures !Truthy(st.savedTheme) ==>
      r.savedTheme == Some(if matchesDark then Dark else Light) && (r.dataTheme == Some(Dark) || r.dataTheme == None)
  {
    if !Truthy(st.savedTheme) then
      if matchesDark then DarkThemed() else LightThemed()
    else st
  }

  /**
   * Toggling twice restores the attribute exactly when it was one the
   * manager writes itself (absent or "dark"); any other value is replaced.
   */
  lemma ToggleTwiceRestores(st: ThemeState)
    ensures Toggled(Toggled(st)).dataTheme == st.dataTheme <==>
            st.dataTheme == None || st.dataTheme == Some(Dark)
  {
  }

  /** After a toggle the stored preference says "dark" exactly when the attribute does. */
  lemma ToggleKeepsStorageInStep(st: ThemeState)
    ensures Toggled(st).savedTheme == Some(Dark) <==> Toggled(st).dataTheme == Some(Dark)
  {
  }

  /** Once the user has toggled, later system colour-scheme changes are ignored. */
  lemma ToggleOverridesSystem(st: ThemeState, matchesDark: bool)
    ensures SystemChanged(Toggled(st), matchesDark) == Toggled(st)
  {
  }

  /**
   * Why the choice is stored: a later page load, served without a data-theme
   * attribute, shows the theme the user last toggled to, whatever the system prefers.
   */
  lemma ReloadShowsToggledTheme(st: ThemeState, systemPrefersDark: bool)
    ensures IsDark(Loaded(ThemeState(None, Toggled(st).savedTheme), systemPrefersDark)) == IsDark(Toggled(st))
  {
  }

  class ThemeManager {
    var dataTheme: Option<string>
    var savedTheme: Option<string>

    function State(): ThemeState
      reads this
    {
      ThemeState(dataTheme, savedTheme)
    }

    /** The attribute the page was served with and the stored entry, then loadSavedTheme(). */
    constructor (dataTheme: Option<string>, savedTheme: Option<string>, systemPrefersDark: bool)
      ensures State() == Loaded(ThemeState(dataTheme, savedTheme), systemPrefersDark)
    {
      this.dataTheme := dataTheme;
      this.savedTheme := savedTheme;
      new;
      LoadSavedTheme(systemPrefersDark);
    }

    method ToggleTheme()
      modifies this
      ensures State() == Toggled(old(State()))
    {
      var isDark := dataTheme == Some(Dark);
      if isDark {
        SetLightTheme();
      } else {
        SetDarkTheme();
      }
    }

    method SetDarkTheme()
      modifies this
      ensures State() == DarkThemed()
    {
      dataTheme := Some(Dark);
      savedTheme := Some(Dark);
    }

    method SetLightTheme()
      modifies this
      ensures State() == LightThemed()
    {
      dataTheme := None;
      savedTheme := Some(Light);
    }

    method LoadSavedTheme(systemPrefersDark: bool)
      modifies this
      ensures State() == Loaded(old(State()), systemPrefersDark)
    {
      var preferred := if Truthy(savedTheme) then savedTheme.value
                       else if systemPrefersDark then Dark else Light;
      if preferred == Dark {
        SetDarkTheme();
      }
    }

    method OnSystemThemeChange(matchesDark: bool)
      modifies this
      ensures State() == SystemChanged(old(State()), matchesDark)
    {
      if !Truthy(savedTheme) {
        if matchesDark {
          SetDarkTheme();
        } else {
          SetLightTheme();
        }
      }
    }
  }
}
