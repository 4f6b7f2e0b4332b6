/** Theme toggle and icon choice (toggleTheme and updateThemeIcon in script.js). */
module Theme {
  import opened Wrappers

  const Dark: string := "dark"
  const Light: string := "light"

  /** The icon classes of the toggle button. */
  const SunIcon: string := "fas fa-sun"
  const MoonIcon: string := "fas fa-moon"

  /** updateThemeIcon: the sun for the dark theme, the moon for anything else. */
  function ThemeIcon(theme: string): (cls: string)
    ensures cls == SunIcon <==> theme == Dark
    ensures cls == MoonIcon <==> theme != Dark
  {
    if theme == Dark then SunIcon else MoonIcon
  }

  /** The theme chosen by toggleTheme from the body's data-theme attribute (None when unset). */
  function Toggled(current: Option<string>): (next: string)
    ensures next == Light <==> current == Some(Dark)
    ensures next == Dark <==> current != Some(Dark)
  {
    if current == Some(Dark) then Light else Dark
  }

  /** Toggling twice gives back "dark" or "light"; any other start ends on "light". */
  lemma ToggleTwice(current: Option<string>)
    ensures Toggled(Some(Toggled(current))) == if current == Some(Dark) then Dark else Light
    ensures Some(Toggled(Some(Toggled(current)))) == current <==> current == Some(Dark) || current == Some(Light)
  {
  }

  /** After a toggle the icon is the sun exactly when the theme was not dark before. */
  lemma ToggleIcon(current: Option<string>)
    ensures ThemeIcon(Toggled(current)) == SunIcon <==> current != Some(Dark)
  {
  }
}
