/**
 * One run of netero.ts: check the theme, load the cookies of the active
 * browser's cookie.txt into the browser line by line, open a page, look the
 * scenario up and walk it. It saves nothing afterwards.
 */
module NeteroReplay {
  import opened Wrappers
  import opened Errors
  import opened JsString
  import opened Browser
  import opened Files
  import opened Actions
  import opened Scenarios
  import opened Themes
  import opened Session
  import opened CookieText

  function Replay(theme: Option<string>, cfg: Config, name: string, env: Env, h: Host): Finish {
    match ValidateTheme(theme)
    case Err(e) => Finish(h, None, Some(e))
    case Ok(_) =>
      match ReadText(h.files, ActiveBrowserPath(env.state))
      case Err(e) => Finish(h, None, Some(e))
      case Ok(b) =>
        match ReadText(h.files, ActiveTabPath(env.state))
        case Err(e) => Finish(h, None, Some(e))
        case Ok(_) =>
          match ReadText(h.files, CookieTextPath(env.state, b))
          case Err(e) => Finish(h, None, Some(e))
          case Ok(text) =>
            var parsed := ParseLines(Split(text, '\n'));
            var loaded := h.(cookies := h.cookies + parsed.state);
            if parsed.error.Some? then Finish(loaded, None, parsed.error)
            else
              match LookupScenario(cfg, name)
              case Err(e) => Finish(loaded, Some(Blank), Some(e))
              case Ok(None) => Finish(loaded, Some(Blank), Some(StepsNotIterable))
              case Ok(Some(scenario)) =>
                var walk := RunSteps(cfg, env, World(Blank, h.files), scenario.steps);
                Finish(loaded.(files := walk.world.files), Some(walk.world.page), walk.error)
  }

  /**
   * netero.ts never saves a session: whatever happens, cookie.json files are
   * as before and no file but the time counter changes.
   */
  lemma ReplaySavesNothing(theme: Option<string>, cfg: Config, name: string, env: Env, h: Host)
    ensures var r := Replay(theme, cfg, name, env, h);
      r.host.jars == h.jars && FilesAgree(r.host.files, h.files, CounterPath(env.state))
  {
    RunStepsFilesFrame(cfg, env, World(Blank, h.files), if name in cfg.scenarios then cfg.scenarios[name].steps else []);
  }

  /**
   * Unlike src/netero.ts, netero.ts loads the cookie file before it looks the
   * scenario up: an unknown scenario fails naming it, after the cookies are
   * in the browser, and a name inherited from `Object.prototype` fails in
   * the loop over its missing steps.
   */
  lemma CookiesLoadedBeforeLookup(theme: Option<string>, cfg: Config, name: string, env: Env, h: Host)
    requires ValidateTheme(theme).Ok?
    requires ActiveBrowserPath(env.state) in h.files && ActiveTabPath(env.state) in h.files
    requires CookieTextPath(env.state, h.files[ActiveBrowserPath(env.state)]) in h.files
    requires name !in cfg.scenarios
    ensures var text := h.files[CookieTextPath(env.state, h.files[ActiveBrowserPath(env.state)])];
      var parsed := ParseLines(Split(text, '\n'));
      var r := Replay(theme, cfg, name, env, h);
      r.host.cookies == h.cookies + parsed.state
      && r.error == (if parsed.error.Some? then parsed.error
                     else if name in PrototypeKeys then Some(StepsNotIterable)
                     else Some(ScenarioNotFound(name)))
  {
  }

  /** An invalid cookie line stops the run before a page is opened or any step runs. */
  lemma InvalidCookieLineStops(theme: Option<string>, cfg: Config, name: string, env: Env, h: Host)
    requires ValidateTheme(theme).Ok?
    requires ActiveBrowserPath(env.state) in h.files && ActiveTabPath(env.state) in h.files
    requires CookieTextPath(env.state, h.files[ActiveBrowserPath(env.state)]) in h.files
    requires ParseLines(Split(h.files[CookieTextPath(env.state, h.files[ActiveBrowserPath(env.state)])], '\n')).error.Some?
    ensures var r := Replay(theme, cfg, name, env, h);
      r.page.None? && r.error.Some? && r.error.value.InvalidCookieLine? && r.host.files == h.files
  {
    var lines := Split(h.files[CookieTextPath(env.state, h.files[ActiveBrowserPath(env.state)])], '\n');
    ParseLinesSucceedsIff(lines);
    var k :| 0 <= k < |lines| && !ParseLine(lines[k]).Ok?;
    FirstInvalid(lines, k);
  }

  lemma {:induction false} FirstInvalid(lines: seq<string>, k: nat)
    requires k < |lines| && !ParseLine(lines[k]).Ok?
    ensures ParseLines(lines).error.Some? && ParseLines(lines).error.value.InvalidCookieLine?
    decreases k
  {
    if j :| 0 <= j < k && !ParseLine(lines[j]).Ok? {
      FirstInvalid(lines, j);
    } else {
      FirstInvalidLineStops(lines, k);
    }
  }

  /** netero.ts after its options are parsed; `ctx` is the launched browser. */
  method Replayer(theme: Option<string>, cfg: Config, name: string, env: Env, disk: Disk, ctx: Context)
    returns (page: Page?, err: Option<Error>)
    modifies disk, ctx
    ensures page != null ==> fresh(page)
    ensures Finish(Host(disk.files, disk.jars, ctx.cookies), if page == null then None else Some(page.State()), err)
         == Replay(theme, cfg, name, env, old(Host(disk.files, disk.jars, ctx.cookies)))
  {
    page := null;
    var t := ValidateTheme(theme);
    if t.Err? {
      err := Some(t.error);
      return;
    }
    var activeBrowser := disk.ReadFile(ActiveBrowserPath(env.state));
    if activeBrowser.Err? {
      err := Some(activeBrowser.error);
      return;
    }
    var activeTab := disk.ReadFile(ActiveTabPath(env.state));
    if activeTab.Err? {
      err := Some(activeTab.error);
      return;
    }
    var cookieText := disk.ReadFile(CookieTextPath(env.state, activeBrowser.value));
    if cookieText.Err? {
      err := Some(cookieText.error);
      return;
    }
    err := LoadCookies(cookieText.value, ctx);
    if err.Some? {
      return;
    }
    page := new Page();
    var s := LookupScenario(cfg, name);
    if s.Err? {
      err := Some(s.error);
      return;
    }
    if s.value.None? {
      err := Some(StepsNotIterable);
      return;
    }
    var done;
    done, err := WalkSteps(cfg, env, page, disk, s.value.value.steps);
  }
}
