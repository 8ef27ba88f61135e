/**
 * The action vocabulary and its executor (src/action.ts).
 *
 * `Exec` is the meaning of one action: from the page and the files before
 * it, the page and files after it and the error it threw, if any.
 * `HandleAction` runs an action on a live `Page` and `Disk` and ends in
 * exactly the state `Exec` describes.
 */
module Actions {
  import opened Wrappers
  import opened Errors
  import opened JsNumber
  import opened Browser
  import opened Files

  datatype FormInput =
    | TextInput(value: string)
    | Radio(value: string)
    | Checkbox(checked: bool)

  /** The `data` of a submit action, in `Object.entries` order. */
  type FormData = seq<(string, FormInput)>

  datatype Action =
    | GotoUrl(url: string)
    | Goto(xpath: string)
    | Submit(button: Option<string>, data: Option<FormData>)
    | TimeAdvance(delta: int)
    | AssertUrl(expected: string)
    | AssertAttribute(xpath: string, attribute: string, expected: string)
    | AssertText(xpath: string, expected: string)

  datatype Scenario = Scenario(prev: string, steps: seq<string>)

  datatype Config = Config(steps: map<string, Action>, scenarios: map<string, Scenario>)

  /**
   * The properties of `Object.prototype`, which every object built by
   * `JSON.parse` inherits. Indexing `config.steps` or `config.scenarios`
   * with one of these names, when the configuration does not define it,
   * gives that inherited function or object rather than `undefined`.
   */
  const PrototypeKeys: set<string> := {
    "constructor", "__proto__", "toString", "toLocaleString", "valueOf",
    "hasOwnProperty", "isPrototypeOf", "propertyIsEnumerable",
    "__defineGetter__", "__defineSetter__", "__lookupGetter__", "__lookupSetter__"}

  /** `new RegExp(pattern).test(subject)`, supplied by the caller. */
  type Matcher = (string, string) -> bool

  /** What an action run depends on besides the page and the files. */
  datatype Env = Env(state: string, web: Web, matches: Matcher)

  /** The state one action reads and changes. */
  datatype World = World(page: PageState, files: map<string, string>)

  const FormSelector := "//form"
  const SubmitSelector := "//button[@type='submit' or @action='submit']"

  function InputSelector(name: string): string {
    "//input[@name='" + name + "']"
  }

  function RadioSelector(name: string, value: string): string {
    "//input[@name='" + name + "' and @value='" + value + "']"
  }

  /** The element `handleInput` operates on, inside `form`. */
  function InputTarget(form: Locator, name: string, input: FormInput): Locator {
    match input
    case Radio(v) => form + [RadioSelector(name, v)]
    case _ => form + [InputSelector(name)]
  }

  /** The button `submit` clicks once the inputs are filled. */
  function SubmitTarget(button: Option<string>): Locator {
    match button
    case Some(b) => [b]
    case None => [FormSelector, SubmitSelector]
  }

  /** `handleInput(form, name, input)` */
  function InputEffect(p: PageState, form: Locator, name: string, input: FormInput): Outcome<PageState> {
    match input
    case TextInput(v) => FillAt(p, InputTarget(form, name, input), v)
    case Checkbox(on) => SetCheckedAt(p, InputTarget(form, name, input), on)
    case Radio(_) => SetCheckedAt(p, InputTarget(form, name, input), true)
  }

  /**
   * The entries of `data` handed to `handleInput` one after the other, the
   * first failure ending the walk. The fills never navigate, never click and
   * never add or remove an element.
   */
  function FillForm(p: PageState, form: Locator, data: FormData): (r: Outcome<PageState>)
    ensures r.state.url == p.url && r.state.clicks == p.clicks
    ensures r.state.elements.Keys == p.elements.Keys
    decreases |data|
  {
    if data == [] then Outcome(p, None)
    else FillStep(FillForm(p, form, data[..|data| - 1]), form, data[|data| - 1])
  }

  /** One pass of the loop body of `submit`, unless an earlier entry failed. */
  function FillStep(prev: Outcome<PageState>, form: Locator, entry: (string, FormInput)): Outcome<PageState> {
    if prev.error.Some? then prev else InputEffect(prev.state, form, entry.0, entry.1)
  }

  /** The form entries are filled in order; the submit button is clicked only if all of them succeed. */
  function SubmitEffect(p: PageState, button: Option<string>, data: Option<FormData>): Outcome<PageState> {
    var filled := FillForm(p, [FormSelector], data.GetOr([]));
    if filled.error.Some? then filled
    else ClickAt(filled.state, SubmitTarget(button))
  }

  /** `handleAction(neteroState, page, action)` */
  function Exec(env: Env, w: World, a: Action): Outcome<World> {
    match a
    case GotoUrl(url) =>
      Outcome(w.(page := Navigate(w.page, env.web, url)), None)
    case Goto(xpath) =>
      var o := ClickAt(w.page, [xpath]);
      Outcome(w.(page := o.state), o.error)
    case Submit(button, data) =>
      var o := SubmitEffect(w.page, button, data);
      Outcome(w.(page := o.state), o.error)
    case TimeAdvance(delta) =>
      var path := CounterPath(env.state);
      (match ReadText(w.files, path)
       case Err(e) => Outcome(w, Some(e))
       case Ok(oldTime) =>
         Outcome(w.(files := w.files[path := ToString(Add(ParseInt(oldTime), delta))]), None))
    case AssertUrl(expected) =>
      if env.matches(expected, w.page.url) then Outcome(w, None)
      else Outcome(w, Some(UrlMismatch(w.page.url, expected)))
    case AssertAttribute(xpath, attribute, expected) =>
      (match AttributeAt(w.page, [xpath], attribute)
       case Err(e) => Outcome(w, Some(e))
       case Ok(None) => Outcome(w, Some(AttributeNotFound(attribute, xpath)))
       case Ok(Some(v)) =>
         if env.matches(expected, v) then Outcome(w, None)
         else Outcome(w, Some(AttributeMismatch(attribute, expected, v))))
    case AssertText(xpath, expected) =>
      (match TextAt(w.page, [xpath])
       case Err(e) => Outcome(w, Some(e))
       case Ok(None) => Outcome(w, Some(TextNotFound(xpath)))
       case Ok(Some(t)) =>
         if env.matches(expected, t) then Outcome(w, None)
         else Outcome(w, Some(TextMismatch(t, expected))))
  }

  /** The fills fail exactly when the element of some entry is missing. */
  lemma {:induction false} FillFormSucceedsIff(p: PageState, form: Locator, data: FormData)
    ensures FillForm(p, form, data).error.None? <==>
      forall k :: 0 <= k < |data| ==> InputTarget(form, data[k].0, data[k].1) in p.elements
    decreases |data|
  {
    if data != [] {
      var n := |data| - 1;
      FillFormSucceedsIff(p, form, data[..n]);
      assert forall k :: 0 <= k < n ==> data[..n][k] == data[k];
    }
  }

  method HandleInput(page: Page, form: Locator, name: string, input: FormInput) returns (err: Option<Error>)
    modifies page
    ensures Outcome(page.State(), err) == InputEffect(old(page.State()), form, name, input)
  {
    match input
    case TextInput(v) =>
      err := page.Fill(form + [InputSelector(name)], v);
    case Checkbox(on) =>
      if on {
        err := page.Check(form + [InputSelector(name)]);
      } else {
        err := page.Uncheck(form + [InputSelector(name)]);
      }
    case Radio(v) =>
      err := page.Check(form + [RadioSelector(name, v)]);
  }

  /** The `submit` branch of `handleAction`: one input per entry, then the click. */
  method SubmitForm(page: Page, button: Option<string>, data: Option<FormData>) returns (err: Option<Error>)
    modifies page
    ensures Outcome(page.State(), err) == SubmitEffect(old(page.State()), button, data)
  {
    var form := [FormSelector];
    var entries := data.GetOr([]);
    var i := 0;
    err := None;
    while i < |entries| && err.None?
      invariant 0 <= i <= |entries|
      invariant Outcome(page.State(), err) == FillForm(old(page.State()), form, entries[..i])
    {
      assert entries[..i + 1][..i] == entries[..i];
      err := HandleInput(page, form, entries[i].0, entries[i].1);
      i := i + 1;
    }
    if err.Some? {
      FillFormStopsAtFailure(old(page.State()), form, entries, i);
    } else {
      assert entries[..i] == entries;
      var target := if button.Some? then [button.value] else form + [SubmitSelector];
      assert target == SubmitTarget(button);
      err := page.Click(target);
    }
  }

  lemma {:induction false} FillFormStopsAtFailure(p: PageState, form: Locator, data: FormData, i: nat)
    requires i <= |data|
    requires FillForm(p, form, data[..i]).error.Some?
    ensures FillForm(p, form, data) == FillForm(p, form, data[..i])
    decreases |data| - i
  {
    if i < |data| {
      assert data[..i + 1][..i] == data[..i];
      FillFormStopsAtFailure(p, form, data, i + 1);
    } else {
      assert data[..i] == data;
    }
  }

  method HandleAction(env: Env, page: Page, disk: Disk, a: Action) returns (err: Option<Error>)
    modifies page, disk
    ensures Outcome(World(page.State(), disk.files), err)
         == Exec(env, World(old(page.State()), old(disk.files)), a)
    ensures disk.jars == old(disk.jars)
  {
    match a
    case GotoUrl(url) =>
      page.Goto(env.web, url);
      err := None;
    case Goto(xpath) =>
      err := page.Click([xpath]);
    case Submit(button, data) =>
      err := SubmitForm(page, button, data);
    case TimeAdvance(delta) =>
      var path := CounterPath(env.state);
      var r := disk.ReadFile(path);
      if r.Err? {
        err := Some(r.error);
      } else {
        var oldTime := ParseInt(r.value);
        var newTime := Add(oldTime, delta);
        disk.WriteFile(path, ToString(newTime));
        err := None;
      }
    case AssertUrl(expected) =>
      if !env.matches(expected, page.url) {
        err := Some(UrlMismatch(page.url, expected));
      } else {
        err := None;
      }
    case AssertAttribute(xpath, attribute, expected) =>
      var r := page.GetAttribute([xpath], attribute);
      if r.Err? {
        err := Some(r.error);
      } else if r.value.None? {
        err := Some(AttributeNotFound(attribute, xpath));
      } else if !env.matches(expected, r.value.value) {
        err := Some(AttributeMismatch(attribute, expected, r.value.value));
      } else {
        err := None;
      }
    case AssertText(xpath, expected) =>
      var r := page.TextContent([xpath]);
      if r.Err? {
        err := Some(r.error);
      } else if r.value.None? {
        err := Some(TextNotFound(xpath));
      } else if !env.matches(expected, r.value.value) {
        err := Some(TextMismatch(r.value.value, expected));
      } else {
        err := None;
      }
  }
}
