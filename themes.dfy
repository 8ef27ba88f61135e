/** The `--theme` option (netero.ts, index.ts and src/netero.ts) and the browser preferences it selects. */
module Themes {
  import opened Wrappers
  import opened Errors

  datatype Theme = Light | Dark

  function ThemeName(t: Theme): string {
    match t
    case Light => "light"
    case Dark => "dark"
  }

  /** The theme is accepted exactly when it is "light", "dark" or not given. */
  function ValidateTheme(arg: Option<string>): (r: Result<Option<Theme>>)
    ensures r.Ok? <==> arg.None? || arg.value == "light" || arg.value == "dark"
    ensures r.Ok? ==> (r.value.None? <==> arg.None?)
    ensures r.Ok? && arg.Some? ==> ThemeName(r.value.value) == arg.value
    ensures r.Err? ==> r.error == InvalidTheme(arg.value)
  {
    match arg
    case None => Ok(None)
    case Some(s) =>
      if s == "light" then Ok(Some(Light))
      else if s == "dark" then Ok(Some(Dark))
      else Err(InvalidTheme(s))
  }

  /** `browser.theme.color_scheme2` and the devtools "ui-theme" (a JSON-quoted string). */
  datatype Preferences = Preferences(colorScheme2: int, uiTheme: string)

  const DarkUiTheme := "\"dark\""
  const LightUiTheme := "\"light\""

  function Preference(theme: Option<Theme>): Preferences {
    if theme == Some(Dark) then Preferences(2, DarkUiTheme) else Preferences(1, LightUiTheme)
  }

  /**
   * "dark" selects color scheme 2 and the dark devtools theme; every other
   * accepted value, absence included, selects 1 and light; the two settings
   * always agree.
   */
  lemma PreferenceMapping(arg: Option<string>)
    requires ValidateTheme(arg).Ok?
    ensures var p := Preference(ValidateTheme(arg).value);
      (p.colorScheme2 == 2 <==> arg == Some("dark"))
      && (p.colorScheme2 == 1 <==> arg != Some("dark"))
      && (p.uiTheme == DarkUiTheme <==> p.colorScheme2 == 2)
      && (p.uiTheme == LightUiTheme <==> p.colorScheme2 == 1)
  {
    assert DarkUiTheme != LightUiTheme by { assert DarkUiTheme[1] != LightUiTheme[1]; }
  }
}
