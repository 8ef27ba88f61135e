/**
 * index.ts up to its reload loop: check the theme, compute the browser
 * preferences, load the cookies of cookie.txt into the browser line by line,
 * and open the tab's saved URL, which must exist. It runs no scenario and
 * saves nothing.
 */
module IndexMain {
  import opened Wrappers
  import opened Errors
  import opened JsString
  import opened Browser
  import opened Files
  import opened Themes
  import opened Session
  import opened CookieText

  datatype Opened = Opened(finish: Finish, prefs: Option<Preferences>)

  function Open(theme: Option<string>, state: string, web: Web, h: Host): Opened {
    match ValidateTheme(theme)
    case Err(e) => Opened(Finish(h, None, Some(e)), None)
    case Ok(t) =>
      match ReadText(h.files, ActiveBrowserPath(state))
      case Err(e) => Opened(Finish(h, None, Some(e)), None)
      case Ok(b) =>
        match ReadText(h.files, ActiveTabPath(state))
        case Err(e) => Opened(Finish(h, None, Some(e)), None)
        case Ok(tab) =>
          var prefs := Some(Preference(t));
          match ReadText(h.files, CookieTextPath(state, b))
          case Err(e) => Opened(Finish(h, None, Some(e)), prefs)
          case Ok(text) =>
            var parsed := ParseLines(Split(text, '\n'));
            var loaded := h.(cookies := h.cookies + parsed.state);
            if parsed.error.Some? then Opened(Finish(loaded, None, parsed.error), prefs)
            else
              match ReadText(h.files, UrlPath(state, b, tab))
              case Err(e) => Opened(Finish(loaded, None, Some(e)), prefs)
              case Ok(url) => Opened(Finish(loaded, Some(Navigate(Blank, web, url)), None), prefs)
  }

  /**
   * index.ts changes no file, ends on no error exactly when everything it
   * reads is there and parses, and then shows the saved URL of the tab.
   */
  lemma OpenShowsSavedUrl(theme: Option<string>, state: string, web: Web, h: Host)
    ensures var r := Open(theme, state, web, h).finish;
      r.host.files == h.files && r.host.jars == h.jars
      && (r.error.None? <==>
            ValidateTheme(theme).Ok?
            && ActiveBrowserPath(state) in h.files && ActiveTabPath(state) in h.files
            && (var b := h.files[ActiveBrowserPath(state)];
                CookieTextPath(state, b) in h.files
                && ParseLines(Split(h.files[CookieTextPath(state, b)], '\n')).error.None?
                && UrlPath(state, b, h.files[ActiveTabPath(state)]) in h.files))
      && (r.error.None? ==>
            var url := h.files[UrlPath(state, h.files[ActiveBrowserPath(state)], h.files[ActiveTabPath(state)])];
            r.page == Some(PageState(url, web(url), [])))
  {
  }

  /** The preferences written for the browser follow the accepted theme. */
  lemma OpenPreferences(theme: Option<string>, state: string, web: Web, h: Host)
    requires Open(theme, state, web, h).prefs.Some?
    ensures ValidateTheme(theme).Ok?
    ensures var p := Open(theme, state, web, h).prefs.value;
      (p.colorScheme2 == 2 <==> theme == Some("dark")) && (p.uiTheme == DarkUiTheme <==> theme == Some("dark"))
  {
    PreferenceMapping(theme);
  }

  /** index.ts after its options are parsed; `ctx` is the launched browser. */
  method OpenBrowser(theme: Option<string>, state: string, web: Web, disk: Disk, ctx: Context)
    returns (page: Page?, prefs: Option<Preferences>, err: Option<Error>)
    modifies ctx
    ensures page != null ==> fresh(page)
    ensures disk.files == old(disk.files) && disk.jars == old(disk.jars)
    ensures Opened(Finish(Host(disk.files, disk.jars, ctx.cookies), if page == null then None else Some(page.State()), err), prefs)
         == Open(theme, state, web, old(Host(disk.files, disk.jars, ctx.cookies)))
  {
    page, prefs := null, None;
    var t := ValidateTheme(theme);
    if t.Err? {
      err := Some(t.error);
      return;
    }
    var activeBrowser := disk.ReadFile(ActiveBrowserPath(state));
    if activeBrowser.Err? {
      err := Some(activeBrowser.error);
      return;
    }
    var activeTab := disk.ReadFile(ActiveTabPath(state));
    if activeTab.Err? {
      err := Some(activeTab.error);
      return;
    }
    prefs := Some(Preference(t.value));
    var cookieText := disk.ReadFile(CookieTextPath(state, activeBrowser.value));
    if cookieText.Err? {
      err := Some(cookieText.error);
      return;
    }
    err := LoadCookies(cookieText.value, ctx);
    if err.Some? {
      return;
    }
    var url := disk.ReadFile(UrlPath(state, activeBrowser.value, activeTab.value));
    if url.Err? {
      err := Some(url.error);
      return;
    }
    page := new Page();
    page.Goto(web, url.value);
  }
}
