/**
 * One run of src/netero.ts: check the theme, look the scenario up, restore
 * the saved cookies and URL of the active tab when they exist, walk the
 * scenario, and, only when every step succeeded, save the final URL and the
 * browser's cookies for the next run.
 */
module NeteroMain {
  import opened Wrappers
  import opened Errors
  import opened Browser
  import opened Files
  import opened Actions
  import opened Scenarios
  import opened Themes
  import opened Session

  /** The meaning of a run: from the host state before it, the state after it. */
  function Run(theme: Option<string>, cfg: Config, name: string, env: Env, h: Host): Finish {
    match ValidateTheme(theme)
    case Err(e) => Finish(h, None, Some(e))
    case Ok(_) =>
      match LookupScenario(cfg, name)
      case Err(e) => Finish(h, None, Some(e))
      case Ok(found) =>
        match ReadText(h.files, ActiveBrowserPath(env.state))
        case Err(e) => Finish(h, None, Some(e))
        case Ok(b) =>
          match ReadText(h.files, ActiveTabPath(env.state))
          case Err(e) => Finish(h, None, Some(e))
          case Ok(tab) =>
            var cookieFile := CookieJsonPath(env.state, b);
            var urlFile := UrlPath(env.state, b, tab);
            var cookies := if cookieFile in h.jars then h.cookies + h.jars[cookieFile] else h.cookies;
            var start := if urlFile in h.files then Navigate(Blank, env.web, h.files[urlFile]) else Blank;
            match found
            case None => Finish(Host(h.files, h.jars, cookies), Some(start), Some(StepsNotIterable))
            case Some(scenario) =>
              var walk := RunSteps(cfg, env, World(start, h.files), scenario.steps);
              if walk.error.Some? then
                Finish(Host(walk.world.files, h.jars, cookies), Some(walk.world.page), walk.error)
              else
                Finish(Host(walk.world.files[urlFile := walk.world.page.url], h.jars[cookieFile := cookies], cookies),
                       Some(walk.world.page), None)
  }

  /** An invalid theme is rejected before anything else happens. */
  lemma InvalidThemeFirst(theme: Option<string>, cfg: Config, name: string, env: Env, h: Host)
    requires ValidateTheme(theme).Err?
    ensures Run(theme, cfg, name, env, h) == Finish(h, None, Some(InvalidTheme(theme.value)))
  {
  }

  /**
   * A scenario name that is neither defined nor inherited fails naming it,
   * before any file of the state directory is read or any browser work.
   */
  lemma UnknownScenarioFirst(theme: Option<string>, cfg: Config, name: string, env: Env, h: Host)
    requires ValidateTheme(theme).Ok?
    requires name !in cfg.scenarios && name !in PrototypeKeys
    ensures Run(theme, cfg, name, env, h) == Finish(h, None, Some(ScenarioNotFound(name)))
  {
  }

  /**
   * A scenario name the configuration does not define but `Object.prototype`
   * does (say "constructor") passes the lookup: the address files are read,
   * the session is restored and the page opened, and only the loop over the
   * missing `steps` throws. No step runs and nothing is saved.
   */
  lemma InheritedScenarioFailsAfterRestore(theme: Option<string>, cfg: Config, name: string, env: Env, h: Host)
    requires ValidateTheme(theme).Ok?
    requires name !in cfg.scenarios && name in PrototypeKeys
    requires ActiveBrowserPath(env.state) in h.files && ActiveTabPath(env.state) in h.files
    ensures var b := h.files[ActiveBrowserPath(env.state)];
      var urlFile := UrlPath(env.state, b, h.files[ActiveTabPath(env.state)]);
      var cookieFile := CookieJsonPath(env.state, b);
      var start := if urlFile in h.files then PageState(h.files[urlFile], env.web(h.files[urlFile]), [])
                   else PageState("about:blank", map[], []);
      Run(theme, cfg, name, env, h)
      == Finish(Host(h.files, h.jars, h.cookies + (if cookieFile in h.jars then h.jars[cookieFile] else [])),
                Some(start), Some(StepsNotIterable))
  {
  }

  /**
   * Restoring is conditional and never an error: the cookies of cookie.json
   * are added only if that file exists, and the page starts at the saved URL
   * only if url.txt exists; the walk starts from that page.
   */
  lemma RestoreIsOptional(theme: Option<string>, cfg: Config, name: string, env: Env, h: Host)
    requires ValidateTheme(theme).Ok? && name in cfg.scenarios
    requires ActiveBrowserPath(env.state) in h.files && ActiveTabPath(env.state) in h.files
    ensures var b := h.files[ActiveBrowserPath(env.state)];
      var urlFile := UrlPath(env.state, b, h.files[ActiveTabPath(env.state)]);
      var cookieFile := CookieJsonPath(env.state, b);
      var start := if urlFile in h.files then PageState(h.files[urlFile], env.web(h.files[urlFile]), [])
                   else PageState("about:blank", map[], []);
      var walk := RunSteps(cfg, env, World(start, h.files), cfg.scenarios[name].steps);
      var r := Run(theme, cfg, name, env, h);
      r.error == walk.error && r.page == Some(walk.world.page)
      && r.host.cookies == h.cookies + (if cookieFile in h.jars then h.jars[cookieFile] else [])
  {
  }

  /**
   * A failed run saves nothing: cookie.json files are as before, and no file
   * but the time counter has changed.
   */
  lemma FailedRunSavesNothing(theme: Option<string>, cfg: Config, name: string, env: Env, h: Host)
    requires Run(theme, cfg, name, env, h).error.Some?
    ensures var r := Run(theme, cfg, name, env, h);
      r.host.jars == h.jars && FilesAgree(r.host.files, h.files, CounterPath(env.state))
  {
    if ValidateTheme(theme).Ok? && name in cfg.scenarios
       && ActiveBrowserPath(env.state) in h.files && ActiveTabPath(env.state) in h.files {
      var b := h.files[ActiveBrowserPath(env.state)];
      var urlFile := UrlPath(env.state, b, h.files[ActiveTabPath(env.state)]);
      var start := if urlFile in h.files then Navigate(Blank, env.web, h.files[urlFile]) else Blank;
      RunStepsFilesFrame(cfg, env, World(start, h.files), cfg.scenarios[name].steps);
    }
  }

  /**
   * A successful run saves the page's final URL in the tab's url.txt and the
   * browser's cookies in cookie.json, and changes no other file but the time
   * counter.
   */
  lemma SuccessfulRunSavesSession(theme: Option<string>, cfg: Config, name: string, env: Env, h: Host)
    requires Run(theme, cfg, name, env, h).error.None?
    ensures ActiveBrowserPath(env.state) in h.files && ActiveTabPath(env.state) in h.files
    ensures var b := h.files[ActiveBrowserPath(env.state)];
      var urlFile := UrlPath(env.state, b, h.files[ActiveTabPath(env.state)]);
      var cookieFile := CookieJsonPath(env.state, b);
      var r := Run(theme, cfg, name, env, h);
      r.page.Some?
      && r.host.files.Keys == h.files.Keys + {urlFile}
      && r.host.files[urlFile] == r.page.value.url
      && (forall p :: p in h.files && p != urlFile && p != CounterPath(env.state) ==> r.host.files[p] == h.files[p])
      && r.host.jars == h.jars[cookieFile := r.host.cookies]
  {
    var b := h.files[ActiveBrowserPath(env.state)];
    var urlFile := UrlPath(env.state, b, h.files[ActiveTabPath(env.state)]);
    var start := if urlFile in h.files then Navigate(Blank, env.web, h.files[urlFile]) else Blank;
    RunStepsFilesFrame(cfg, env, World(start, h.files), cfg.scenarios[name].steps);
  }

  /** src/netero.ts after its options are parsed: `disk` is the state directory, `ctx` the launched browser. */
  method RunScenario(theme: Option<string>, cfg: Config, name: string, env: Env, disk: Disk, ctx: Context)
    returns (page: Page?, err: Option<Error>)
    modifies disk, ctx
    ensures page != null ==> fresh(page)
    ensures Finish(Host(disk.files, disk.jars, ctx.cookies), if page == null then None else Some(page.State()), err)
         == Run(theme, cfg, name, env, old(Host(disk.files, disk.jars, ctx.cookies)))
  {
    page := null;
    var t := ValidateTheme(theme);
    if t.Err? {
      err := Some(t.error);
      return;
    }
    var s := LookupScenario(cfg, name);
    if s.Err? {
      err := Some(s.error);
      return;
    }
    var activeBrowser := disk.ReadFile(ActiveBrowserPath(env.state));
    if activeBrowser.Err? {
      err := Some(activeBrowser.error);
      return;
    }
    var activeTab := disk.ReadFile(ActiveTabPath(env.state));
    if activeTab.Err? {
      err := Some(activeTab.error);
      return;
    }
    var cookieFile := CookieJsonPath(env.state, activeBrowser.value);
    var urlFile := UrlPath(env.state, activeBrowser.value, activeTab.value);
    var hasCookies := disk.JarExists(cookieFile);
    if hasCookies {
      var cookies := disk.ReadJar(cookieFile);
      ctx.AddCookies(cookies);
    }
    page := new Page();
    var hasUrl := disk.FileExists(urlFile);
    if hasUrl {
      var url := disk.ReadFile(urlFile);
      page.Goto(env.web, url.value);
    }
    if s.value.None? {
      err := Some(StepsNotIterable);
      return;
    }
    var done;
    done, err := WalkSteps(cfg, env, page, disk, s.value.value.steps);
    if err.Some? {
      return;
    }
    var url := page.url;
    var cookies := ctx.cookies;
    disk.WriteFile(urlFile, url);
    disk.WriteJar(cookieFile, cookies);
  }
}
