/**
 * The theme state of `contexts/ThemeContext.tsx`: `light` until the mount
 * effect runs, then the saved theme or the system preference, and the toggle
 * between light and dark. The saved value is whatever text the browser's
 * storage held, so the theme is kept as a string.
 */
module Theme {
  import opened Wrappers
  import opened Text

  /** `savedTheme || (prefersDark ? 'dark' : 'light')`: a saved theme wins unless it is absent or empty. */
  function InitialTheme(savedTheme: Option<string>, prefersDark: bool): (theme: string)
    ensures theme != ""
    ensures Truthy(savedTheme) ==> theme == savedTheme.value
    ensures !Truthy(savedTheme) ==> (theme == "dark" <==> prefersDark)
    ensures !Truthy(savedTheme) ==> theme == "dark" || theme == "light"
  {
    Or(savedTheme, Some(if prefersDark then "dark" else "light")).value
  }

  /** `prevTheme === 'light' ? 'dark' : 'light'`. */
  function Toggled(theme: string): (r: string)
    ensures r == "dark" || r == "light"
    ensures r == "dark" <==> theme == "light"
  {
    if theme == "light" then "dark" else "light"
  }

  /** Toggling twice restores a light or dark theme; any other saved text becomes `light` after one toggle and stays in the cycle. */
  lemma ToggleTwice(theme: string)
    ensures theme == "light" || theme == "dark" ==> Toggled(Toggled(theme)) == theme
    ensures theme != "light" && theme != "dark" ==> Toggled(theme) == "light" && Toggled(Toggled(theme)) == "dark"
  {
  }

  /** When the storage only ever held a theme the app wrote, the theme is always light or dark. */
  lemma KnownThemesStayKnown(savedTheme: Option<string>, prefersDark: bool)
    requires savedTheme.Some? ==> savedTheme.value == "light" || savedTheme.value == "dark" || savedTheme.value == ""
    ensures InitialTheme(savedTheme, prefersDark) == "light" || InitialTheme(savedTheme, prefersDark) == "dark"
  {
  }

  /** The provider's state: the theme and whether the mount effect has run. */
  class ThemeState {
    var theme: string
    var isClient: bool

    /** Before the mount effect: `light`, and not yet in the browser. */
    constructor ()
      ensures theme == "light" && !isClient
    {
      theme := "light";
      isClient := false;
    }

    /**
     * The mount effect: the storage's saved theme and the system preference
     * are parameters; afterwards the provider is in the browser and the theme
     * is the initial choice.
     */
    method Mount(savedTheme: Option<string>, prefersDark: bool)
      modifies this
      ensures isClient
      ensures theme == InitialTheme(savedTheme, prefersDark)
    {
      isClient := true;
      var initialTheme := if Truthy(savedTheme) then savedTheme.value else if prefersDark then "dark" else "light";
      theme := initialTheme;
    }

    /** `toggleTheme`: light becomes dark, anything else becomes light. */
    method ToggleTheme()
      modifies this`theme
      ensures theme == Toggled(old(theme))
    {
      theme := if theme == "light" then "dark" else "light";
    }
  }
}
