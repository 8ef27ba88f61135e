# netero: a verified model of the scenario runner

netero drives a Chromium browser through scripted *scenarios*. Each
scenario is a list of *step* names, and each step names an *action*. There
are seven kinds of action:

- `goto-url` and `goto`: navigate to a URL, or click an element;
- `submit`: fill a form and click its submit button;
- `time-advance`: move a fake clock kept in `now.txt`;
- three assertions: on the URL, on an element's attribute, and on an
  element's text.

Between runs the tool keeps a session in a state directory (`NETERO_STATE`).
The directory names the active browser and tab, and holds the URL and
cookies of each tab.

This project models four scripts:

- `src/action.ts`: the action interpreter.
- `src/netero.ts`: runs one scenario. It restores the saved session when one
  exists, and saves the session again only when every step succeeded.
- `netero.ts`: replays a scenario after loading cookies from a
  Netscape-format `cookie.txt`. It saves nothing.
- `index.ts`: opens the browser on the saved tab after loading the same
  `cookie.txt`.

The model is imperative where the scripts are.

- **Classes.** `Browser.Page` is a page whose URL, document and click log
  change in place. `Browser.Context` holds the browser's cookie jar.
  `Files.Disk` is the state directory.
- **Methods.** `Actions.HandleAction`, `Scenarios.WalkSteps`,
  `CookieText.LoadCookies`, `NeteroMain.RunScenario`,
  `NeteroReplay.Replayer` and `IndexMain.OpenBrowser` are methods with
  loops over those objects.
- **Meaning.** Each method is proved equal to a pure function of the state
  before it. The properties are then proved of those functions:
  `Actions.Exec`, `Scenarios.RunSteps`, `CookieText.ParseLines`,
  `NeteroMain.Run`, `NeteroReplay.Replay` and `IndexMain.Open`.

Modules and files:

- `wrappers.dfy`: `Option`.
- `errors.dfy`: the thrown errors and their message texts.
- `jsstring.dfy`: `split`, `join`, `startsWith` and the first-occurrence
  `replace`.
- `jsnumber.dfy`: `parseInt`, `+` and `toString` on integers and NaN.
- `browser.dfy`: pages, elements, cookies and the browser context.
- `files.dfy`: the state directory.
- `actions.dfy`: the action vocabulary and `handleInput`/`handleAction`.
- `actionfacts.dfy`: the per-action properties.
- `scenarios.dfy`: scenario lookup and the step loop.
- `cookietext.dfy`: the `cookie.txt` reader.
- `themes.dfy`: `--theme` and the browser preferences.
- `session.dfy`: the host state.
- `neteromain.dfy`, `neteroreplay.dfy`, `indexmain.dfy`: the three entry
  scripts.

The model takes the following as parameters, not as code:

- **Regular expressions.** Matching against `new RegExp(p)` is the `matches`
  function of the environment `Actions.Env`. Every property holds for
  every matcher.
- **The web.** `Env.web` gives the document that each URL serves.
- **The state directory.** Its path is `Env.state`.

Dispatch is exhaustive by construction. `Actions.Action` and
`Actions.FormInput` are closed datatypes, and the resolver checks that the
matches in `Actions.Exec`, `Actions.InputEffect` and `Actions.HandleInput`
cover every case. This is what `action satisfies never` and
`input satisfies never` promise.

## Model

| member | source | states |
|---|---|---|
| Browser.Page.constructor | src/netero.ts:86 | a new page shows `about:blank`, with an empty document and no clicks |
| Browser.Page.Goto | src/action.ts:98 | the URL becomes exactly the given one, the document becomes the one that URL serves, and the click log is kept |
| Browser.Page.Click | src/action.ts:103 | a click on a resolving locator is appended to the click log and nothing else changes; an unresolved locator fails, naming it, and the page stays as it was |
| Browser.Page.Fill | src/action.ts:68-69 | only the located element's value changes, to the given text; an unresolved locator fails and changes nothing |
| Browser.Page.Check | src/action.ts:75 | only the located element becomes checked; an unresolved locator fails and changes nothing |
| Browser.Page.Uncheck | src/action.ts:77 | only the located element becomes unchecked; an unresolved locator fails and changes nothing |
| Browser.Page.GetAttribute | src/action.ts:140-142 | null when the element lacks the attribute, otherwise its value; an error when the locator resolves to nothing |
| Browser.Page.TextContent | src/action.ts:157 | the element's text, or null, or an error when the locator resolves to nothing |
| Browser.Context.AddCookies | netero.ts:112-114 | the given cookies are appended to the jar in order |
| Files.Disk.ReadFile | src/action.ts:121-124 | the file's text, or a "no such file" error naming the path |
| Files.Disk.WriteFile | src/action.ts:127 | exactly that file now holds the text; every other file and every cookie.json stay the same |
| Files.Disk.FileExists | src/netero.ts:88 | true exactly when the file exists |
| Files.Disk.JarExists | src/netero.ts:80 | true exactly when the cookie.json file exists |
| Files.Disk.ReadJar | src/netero.ts:81-82 | the cookies stored in an existing cookie.json |
| Files.Disk.WriteJar | src/netero.ts:109-112 | exactly that cookie.json now holds the cookies; every text file stays the same |
| JsString.Split | netero.ts:94 | `split` with one separator character gives at least one piece, and no piece contains the separator |
| JsString.JoinSplit | netero.ts:94 | joining the pieces of a split with the separator gives back the original text |
| JsString.SplitJoin | netero.ts:100-101 | splitting pieces joined by a separator that none contains gives back exactly those pieces |
| JsString.SplitAtFirstSeparator | netero.ts:100-101 | the first separator ends the first field; the rest splits on its own |
| JsString.ReplaceFirst | netero.ts:108 | `replace` with a string pattern changes nothing when the pattern does not occur |
| JsString.ReplaceLeadingPrefix | netero.ts:108 | replacing a prefix the text starts with by "" strips exactly that prefix |
| JsString.StartsWithFirstField | netero.ts:107 | when the first field ends at a separator that the prefix does not contain, the line starts with the prefix exactly when the first field does |
| JsNumber.TrimStartRemovesLeadingSpace | src/action.ts:125 | the white space `parseInt` skips is removed: the result is a suffix of the input, everything dropped is white space, and the result does not start with white space |
| JsNumber.LeadingDigits | src/action.ts:125 | `parseInt` reads the longest prefix of decimal digits and stops at the first non-digit |
| JsNumber.Decimal | src/action.ts:127 | `toString` of a natural number is non-empty, all digits, has no leading zero, and denotes the number |
| JsNumber.ParseDecimal | src/action.ts:125-127 | parsing the decimal text of a natural number gives that number |
| JsNumber.ParseNegativeDecimal | src/action.ts:125-127 | parsing "-" followed by the digits of n gives -n |
| JsNumber.ParseToString | src/action.ts:125-127 | parsing the `toString` of any integer gives back the same integer |
| JsNumber.ParseNaN | src/action.ts:125-127 | a counter holding "NaN" parses back to NaN |
| Errors.UrlMismatchNamesBoth | src/action.ts:134 | the URL-mismatch message contains both the actual URL and the pattern |
| Errors.TextMismatchNamesBoth | src/action.ts:164-166 | the text-mismatch message contains both the actual text and the pattern |
| Errors.AttributeMismatchNamesAll | src/action.ts:149-151 | the attribute-mismatch message contains the attribute, the pattern and the value found |
| Errors.AttributeNotFoundIsNotMismatch | src/action.ts:143-151 | the "attribute not found" message never equals any mismatch message |
| Errors.LookupErrorsNameTheKey | src/netero.ts:54-57 | the missing-scenario and missing-step messages contain the name that was looked up |
| Actions.FillForm | src/action.ts:109-111 | filling entries never changes the URL, the clicks or the set of elements |
| Actions.FillFormSucceedsIff | src/action.ts:109-111 | the fills succeed exactly when the element of every entry exists |
| Actions.FillFormStopsAtFailure | src/action.ts:109-111 | once an entry has failed, the later entries change nothing |
| Actions.HandleInput | src/action.ts:62-90 | the page changes exactly as `handleInput` does for a text, checkbox or radio entry, and the error is the same |
| Actions.SubmitForm | src/action.ts:107-117 | the loop over the entries followed by the click leaves exactly the page and error of filling every entry in order and then clicking the submit target |
| Actions.HandleAction | src/action.ts:92-172 | every action changes the page and the state directory exactly as `Exec` says, and throws the same error; cookie.json files are never touched |
| ActionFacts.GotoUrlNavigates | src/action.ts:97-100 | `goto-url` sets the URL to exactly the given value and loads its document; the files and the click log stay the same, and it never fails |
| ActionFacts.GotoClicksExactly | src/action.ts:102-105 | `goto` succeeds exactly when the xpath resolves; it then clicks exactly that element and changes nothing else; otherwise it fails naming the locator and changes nothing |
| ActionFacts.AssertionsAreReadOnly | src/action.ts:131-169 | the three assertions never change the page or the files |
| ActionFacts.AssertUrlIff | src/action.ts:131-137 | `assert-url` succeeds exactly when the URL matches; a failure's message contains the URL and the pattern |
| ActionFacts.AbsentAttributeFails | src/action.ts:139-147 | an attribute the element lacks always fails with the "not found" error, whatever the matcher; that message differs from every mismatch message |
| ActionFacts.PresentAttributeIff | src/action.ts:148-153 | a present attribute passes exactly when its value matches; a failure reports the attribute, the pattern and the value |
| ActionFacts.AssertTextCases | src/action.ts:156-169 | null text fails with "Text content not found", whatever the matcher; present text passes exactly when it matches, and a failure reports the text and the pattern |
| ActionFacts.AssertOnMissingElement | src/action.ts:140-142 | both element assertions fail, naming the locator, when the xpath resolves to nothing |
| ActionFacts.TimeAdvanceAddsDelta | src/action.ts:120-128 | a counter holding the decimal text of n ends holding the decimal text of n + delta, for every integer delta, negative ones included; the page and the other files stay the same |
| ActionFacts.TimeAdvanceNeedsCounter | src/action.ts:121-124 | without `now.txt` the action fails, naming the file, and changes nothing |
| ActionFacts.TimeAdvanceTenByFive | src/action.ts:120-128 | a counter holding "10" advanced by 5 holds "15" |
| ActionFacts.FillFormAppend | src/action.ts:109-111 | entries are filled in order: filling `a + b` is filling `a`, then, unless that failed, `b` from where it stopped |
| ActionFacts.FillFormOne | src/action.ts:109-111 | one entry is exactly one `handleInput` call |
| ActionFacts.InputEffectTargets | src/action.ts:62-87 | a text entry fills `//input[@name='<name>']`; a checkbox checks or unchecks that input as `checked` says; a radio checks only `//input[@name='<name>' and @value='<value>']`; nothing else changes, and a missing element is the error |
| ActionFacts.LastTextEntryWins | src/action.ts:109-111 | after a successful fill, each text input holds the value of the last text entry that targets it |
| ActionFacts.SubmitFillsThenClicksOnce | src/action.ts:107-117 | `submit` fills every entry before making exactly one click, on `button` over the whole page or else on the form's submit button; a failed fill makes no click; it succeeds exactly when every input and the button exist |
| Scenarios.LookupScenario | src/netero.ts:54-57 | the lookup passes exactly when the configuration defines the name or `Object.prototype` has it; a defined name gives its scenario, an inherited one gives no scenario, and any other name fails with an error naming it |
| Scenarios.RunSteps | src/netero.ts:93-99 | a walk completes all its steps exactly when it throws nothing, and never completes more steps than it has |
| Scenarios.RunStepsAppend | src/netero.ts:93-99 | steps run in list order: walking `a + b` is walking `a`, then `b` from where it ended |
| Scenarios.FailureEndsWalk | src/netero.ts:93-99 | once a walk has failed, appending steps runs none of them |
| Scenarios.MissingStepStops | src/netero.ts:94-97 | a step name that is neither defined nor inherited ends the walk with an error that names it, after the steps before it; no later step runs |
| Scenarios.InheritedStepDoesNothing | src/netero.ts:94-98 | a step name only `Object.prototype` has (such as "toString") is no error: `handleAction` matches none of its branches, and the walk ends in the same state and with the same error as if the name were not listed |
| Scenarios.FailingActionStops | src/netero.ts:93-99 | a failing action ends the walk with its error and the state it left; no later step runs |
| Scenarios.RepeatedStepRunsTwice | src/netero.ts:93-99 | a name listed twice runs its action twice, the second time on the state the first one left |
| Scenarios.ExecFilesFrame | src/action.ts:120-128 | an action writes no file except the counter, and creates none |
| Scenarios.RunStepsFilesFrame | src/netero.ts:93-99 | a whole walk writes no file except the counter, and creates none |
| Scenarios.WalkSteps | src/netero.ts:93-99 | the loop leaves the page, the files, the count of completed steps and the error exactly as `RunSteps` says |
| CookieText.ParseLineCases | netero.ts:94-111 | a line is skipped exactly when it is empty or a comment other than `#HttpOnly_`. A kept line with fewer than seven fields is rejected, naming the line. Otherwise: path, secure, expires, name and value come from fields 3 to 7; field 2 and any field after the seventh are ignored; httpOnly holds exactly when field 1 starts with `#HttpOnly_`, which is then stripped to give the domain; secure holds exactly when field 4 is "TRUE" |
| CookieText.ParseJoinedFields | netero.ts:94-111 | a line written from seven or more tab-free fields reads back as the cookie those fields describe |
| CookieText.JoinedLineIsKept | netero.ts:95-98 | a line whose first field is not a comment is never skipped |
| CookieText.ParseLinesSucceedsIff | netero.ts:94-115 | the loop throws nothing exactly when every line parses |
| CookieText.OneCookiePerKeptLine | netero.ts:94-115 | without an error, exactly one cookie is added per kept line, in file order, each the cookie of its line |
| CookieText.FailurePersists | netero.ts:94-115 | once a line has failed, the later lines add nothing |
| CookieText.FirstInvalidLineStops | netero.ts:94-115 | the first invalid line ends the loop with an error naming it: the cookies of the earlier lines are in the jar, and none after it |
| CookieText.LoadCookies | index.ts:79-100 | the line loop appends to the browser's jar exactly the cookies `ParseLines` gives, and throws its error |
| Themes.ValidateTheme | netero.ts:26-36 | the theme is accepted exactly when it is "light", "dark" or absent; the accepted value is the one given; anything else is rejected, naming it |
| Themes.PreferenceMapping | index.ts:44-55 | "dark" gives color scheme 2 and ui-theme `"dark"`; every other accepted theme, absence included, gives 1 and `"light"` |
| NeteroMain.InvalidThemeFirst | src/netero.ts:26-36 | an invalid theme is rejected before anything else happens |
| NeteroMain.UnknownScenarioFirst | src/netero.ts:54-57 | a scenario name that is neither defined nor inherited fails, naming it, before any file of the state directory is read or any browser work is done |
| NeteroMain.InheritedScenarioFailsAfterRestore | src/netero.ts:54-93 | a scenario name only `Object.prototype` has (such as "constructor") passes the lookup; the session is restored and the page opened, and then the loop over its missing `steps` throws a TypeError; no step runs and nothing is saved |
| NeteroMain.RestoreIsOptional | src/netero.ts:80-91 | cookie.json is added to the jar only if it exists, and the page starts at the saved URL only if url.txt exists; neither absence is an error; the walk starts from that page |
| NeteroMain.FailedRunSavesNothing | src/netero.ts:101-113 | a run that throws leaves every cookie.json as it was, and no file but the counter changes |
| NeteroMain.SuccessfulRunSavesSession | src/netero.ts:101-113 | a successful run writes the page's final URL to the tab's url.txt and the browser's cookies to cookie.json; no other file but the counter changes |
| NeteroMain.RunScenario | src/netero.ts:26-113 | the script leaves the disk, the jar, the page and the error exactly as `Run` says |
| NeteroReplay.ReplaySavesNothing | netero.ts:94-133 | whatever happens, every cookie.json is as before and no file but the counter changes |
| NeteroReplay.CookiesLoadedBeforeLookup | netero.ts:94-127 | the cookies are in the jar before the scenario is looked up; an unknown scenario then fails, naming it, and an inherited name fails in the loop over its missing steps |
| NeteroReplay.InvalidCookieLineStops | netero.ts:94-117 | an invalid cookie line stops the run with "Invalid cookie line" before a page opens or any step runs |
| NeteroReplay.FirstInvalid | netero.ts:94-115 | a line that does not parse makes the loop fail with an "Invalid cookie line" error |
| NeteroReplay.Replayer | netero.ts:26-133 | the script leaves the disk, the jar, the page and the error exactly as `Replay` says |
| IndexMain.OpenShowsSavedUrl | index.ts:19-109 | no file changes. The run ends without error exactly when the theme is valid, the two address files and cookie.txt exist, every cookie line parses, and the tab's url.txt exists; the page then shows exactly that URL |
| IndexMain.OpenPreferences | index.ts:44-55 | the preferences follow the accepted theme: scheme 2 and the dark devtools theme exactly for "dark" |
| IndexMain.OpenBrowser | index.ts:19-109 | the script leaves the jar, the page, the preferences and the error exactly as `Open` says, and changes no file |

## Left out

- Browser lifecycle: the model leaves out `launchPersistentContext` and its options, the `close` handler, `process.exit` and `os.tmpdir`. They are process plumbing.
- Writing the `Preferences` file: `IndexMain.Open` returns the preferences object as a value. The same mapping in netero.ts (netero.ts:59-70) is not modelled again, because it is identical.
- Locator resolution: Playwright's XPath evaluation, strict mode and auto-waiting sit in a library whose code is not part of this model. A locator is a key of the page's element map, and a missing key is the failure. A located element never rejects `fill`, `check`, `uncheck` or `click` (Playwright's refusal to `check` a text input, for example, is not modelled).
- Navigation: a document comes only from `page.goto`, through `Env.web`. Clicks and submits do not navigate, so a URL changes only through `goto-url` or the restored URL.
- Redirects: `Browser.Navigate` sets the URL to exactly the one requested. Redirects and the browser's URL normalisation are not modelled, so the saved URL is the last one requested rather than the one the browser shows.
- Navigation errors: `page.goto` never fails in the model.
- Regular expressions: they are the parameter `Env.matches`, not an engine.
- Invalid patterns: `Env.matches` is total. The SyntaxError that `new RegExp` throws for an invalid pattern in the three assertions (src/action.ts:133, 148, 163) is not modelled.
- JSON: `JSON.parse` of the configuration and of cookie.json, and `JSON.stringify` of the cookies, are left out. The configuration is a given `Actions.Config`, and each cookie.json is kept as the cookie list it encodes.
- Option parsing: the model leaves out `--config`, `--scenario` and `NETERO_STATE`, including the checks that they are given. The theme is an `Option<string>`, and the state directory is `Env.state`.
- Numbers: the model leaves out JavaScript's floating-point precision, exponent notation of large numbers, and non-integer `time-advance` values. `JsNumber` works on unbounded integers and NaN.
- Form data typing: the `submit` data record is typed as text inputs only, but `handleInput` also handles radio and checkbox inputs. The model allows all three.
- `Object.entries` order: the model takes the entries as a list in iteration order. JavaScript puts integer-like keys first, and the model does not reorder them.
- The cookie jar: it is modelled as the list of cookies added, in order. Playwright's replacement of a cookie with the same name, domain and path is not modelled.
- NeteroMain.SuccessfulRunSavesSession: the jar saved to cookie.json is the jar the run started with plus the restored cookies. That is because pages never set cookies in the model. In the browser, `browser.cookies()` (src/netero.ts:102) also returns the cookies that pages set during the walk. The cookie conjunct of `NeteroMain.RestoreIsOptional` rests on the same simplification.
- Failing `addCookies`: `browser.addCookies` never fails in the model. Playwright's rejection of a cookie it considers invalid is not modelled. An example is an `expires` that `parseInt` turned into NaN. As a result, the "exactly when" of `IndexMain.OpenShowsSavedUrl` and the success cases of `CookieText.LoadCookies` take every parsed cookie as accepted.
- Empty pages and the reload loop: closing the initial empty pages and the FIFO reload loop of index.ts (index.ts:102-118) are left out.
- The final writes of src/netero.ts: they run concurrently and are modelled as one atomic update.
- Files.Disk.WriteFile: a write never fails. A missing parent directory (such as `browser/<b>/tab/<t>/` on a first run without url.txt) or a permission error, which makes `fs.promises.writeFile` reject, is not modelled. So the time-advance write of `Actions.Exec` and the final url.txt write of `NeteroMain.Run` and `NeteroMain.RunScenario` always succeed.
- Files.Disk.WriteJar: a write never fails, for the same reasons. So the final cookie.json write always succeeds, and a walk that succeeds always ends in a successful run.
- Unknown action kinds: the model cannot express an action whose `action` field is outside the seven known values, because the datatype is closed. In the source such an action does nothing and raises no error. The one such value that the model does cover is a step name inherited from `Object.prototype`; `Scenarios.RunStep` runs it as an action that does nothing.
- Unknown input kinds: for the same reason, the `Unknown input type` error of `handleInput` (src/action.ts:88-89) has no counterpart. `Actions.FormInput` is closed, so every entry is a text, radio or checkbox input.

## Notes on the source

- Missing steps: a step name missing from `config.steps` raises `Action "<step>" not found in config.`. The message names the step but not the scenario. `Errors.Message` reproduces that text.
- Unknown action kinds: the `action satisfies never` check holds only for the TypeScript types. A configuration step with any other discriminant falls through and does nothing. The model's `Action` datatype is closed, so this case does not arise in it.
- Inherited names: `config.steps` and `config.scenarios` are plain objects built by `JSON.parse`, and the lookup tests only `=== undefined`. So a name that `Object.prototype` has passes the lookup even when the configuration does not define it. The model covers both cases with `Actions.PrototypeKeys`:
  - An inherited step name, such as "toString", runs as an action that does nothing (`Scenarios.InheritedStepDoesNothing`).
  - An inherited scenario name, such as "constructor", fails only at the loop over its `steps` (`NeteroMain.InheritedScenarioFailsAfterRestore`). The failure is a TypeError, which `Errors.StepsNotIterable` gives with the text V8 uses.
- Lookup order: netero.ts looks the scenario up only after it has loaded every cookie line and opened the page. src/netero.ts looks it up first. `NeteroReplay.CookiesLoadedBeforeLookup` and `NeteroMain.UnknownScenarioFirst` state the two orders.
- `parseInt`: the counter and the expiry field are parsed in full. The parse skips leading white space, takes an optional sign and the longest run of digits, and gives NaN when there are no digits. NaN then survives `+` and is written back as `"NaN"`, which `JsNumber.ParseNaN` shows.
