/**
 * The errors the scripts throw, with the message text each one carries.
 * `ElementNotFound` and `FileNotFound` stand for the errors thrown by the
 * browser library (a locator that resolves to no element) and by Node's
 * file system (a read of a missing file); `StepsNotIterable` is the
 * TypeError of a `for ... of` loop over a value that has no `steps` list,
 * with the text V8 gives it; the others are thrown by the scripts
 * themselves.
 */
module Errors {
  import opened Wrappers
  import opened JsString

  datatype Error =
    | ElementNotFound(locator: seq<string>)
    | FileNotFound(path: string)
    | UrlMismatch(url: string, expected: string)
    | AttributeNotFound(attribute: string, xpath: string)
    | AttributeMismatch(attribute: string, expected: string, got: string)
    | TextNotFound(xpath: string)
    | TextMismatch(text: string, expected: string)
    | ScenarioNotFound(scenario: string)
    | StepNotFound(step: string)
    | StepsNotIterable
    | InvalidTheme(theme: string)
    | InvalidCookieLine(line: string)

  /** The value of an operation that either returns or throws. */
  datatype Result<+T> = Ok(value: T) | Err(error: Error)

  /** The state an operation leaves behind, and the error it threw, if any. */
  datatype Outcome<+S> = Outcome(state: S, error: Option<Error>)

  function Chain(locator: seq<string>): string {
    if locator == [] then ""
    else if |locator| == 1 then locator[0]
    else locator[0] + " >> " + Chain(locator[1..])
  }

  /** The text of each error. */
  function Message(e: Error): string {
    match e
    case ElementNotFound(loc) => "locator not resolved: " + Chain(loc)
    case FileNotFound(p) => "ENOENT: no such file or directory, open '" + p + "'"
    case UrlMismatch(url, expected) =>
      "Expected URL " + url + " to match " + expected
    case AttributeNotFound(attribute, xpath) =>
      "Attribute \"" + attribute + "\" not found for element at \"" + xpath + "\""
    case AttributeMismatch(attribute, expected, got) =>
      "Expected attribute \"" + attribute + "\" to match \"" + expected + "\", but got \"" + got + "\""
    case TextNotFound(xpath) =>
      "Text content not found for element at \"" + xpath + "\""
    case TextMismatch(text, expected) =>
      "Expected text content \"" + text + "\" to match \"" + expected + "\""
    case ScenarioNotFound(name) => "Scenario \"" + name + "\" not found in config."
    case StepNotFound(step) => "Action \"" + step + "\" not found in config."
    case StepsNotIterable => "scenario.steps is not iterable"
    case InvalidTheme(theme) =>
      "Invalid theme: " + theme + ". Must be \"light\", \"dark\", or undefined."
    case InvalidCookieLine(line) => "Invalid cookie line: " + line
  }

  /** A failed URL assertion reports both the actual URL and the pattern. */
  lemma UrlMismatchNamesBoth(url: string, expected: string)
    ensures Contains(Message(UrlMismatch(url, expected)), url)
    ensures Contains(Message(UrlMismatch(url, expected)), expected)
  {
    ContainsMiddle("Expected URL ", url, " to match ");
    ContainsExtendRight("Expected URL " + url + " to match ", url, expected);
    ContainsMiddle("Expected URL " + url + " to match ", expected, "");
    assert "Expected URL " + url + " to match " + expected + "" == Message(UrlMismatch(url, expected));
  }

  /** A failed text assertion reports the actual text and the pattern. */
  lemma TextMismatchNamesBoth(text: string, expected: string)
    ensures Contains(Message(TextMismatch(text, expected)), text)
    ensures Contains(Message(TextMismatch(text, expected)), expected)
  {
    var a := "Expected text content \"" + text;
    ContainsMiddle("Expected text content \"", text, "");
    assert "Expected text content \"" + text + "" == a;
    ContainsExtendRight(a, text, "\" to match \"");
    ContainsExtendRight(a + "\" to match \"", text, expected);
    ContainsExtendRight(a + "\" to match \"" + expected, text, "\"");
    ContainsMiddle(a + "\" to match \"", expected, "\"");
  }

  /** A failed attribute assertion reports the attribute, the pattern and the actual value. */
  lemma AttributeMismatchNamesAll(attribute: string, expected: string, got: string)
    ensures Contains(Message(AttributeMismatch(attribute, expected, got)), attribute)
    ensures Contains(Message(AttributeMismatch(attribute, expected, got)), expected)
    ensures Contains(Message(AttributeMismatch(attribute, expected, got)), got)
  {
    var a := "Expected attribute \"" + attribute;
    var b := a + "\" to match \"";
    var c := b + expected;
    var d := c + "\", but got \"";
    var e := d + got;
    var m := e + "\"";
    assert m == Message(AttributeMismatch(attribute, expected, got));
    ContainsMiddle("Expected attribute \"", attribute, "");
    assert "Expected attribute \"" + attribute + "" == a;
    ContainsExtendRight(a, attribute, "\" to match \"");
    ContainsExtendRight(b, attribute, expected);
    ContainsExtendRight(c, attribute, "\", but got \"");
    ContainsExtendRight(d, attribute, got);
    ContainsExtendRight(e, attribute, "\"");
    ContainsMiddle(b, expected, "");
    assert b + expected + "" == c;
    ContainsExtendRight(c, expected, "\", but got \"");
    ContainsExtendRight(d, expected, got);
    ContainsExtendRight(e, expected, "\"");
    ContainsMiddle(d, got, "\"");
  }

  /** The "not found" text of an attribute never reads like a mismatch. */
  lemma AttributeNotFoundIsNotMismatch(attribute: string, xpath: string, a: string, expected: string, got: string)
    ensures Message(AttributeNotFound(attribute, xpath)) != Message(AttributeMismatch(a, expected, got))
  {
    assert Message(AttributeNotFound(attribute, xpath))[0] == 'A';
    assert Message(AttributeMismatch(a, expected, got))[0] == 'E';
  }

  /** A missing scenario or step is named in the error. */
  lemma LookupErrorsNameTheKey(name: string)
    ensures Contains(Message(ScenarioNotFound(name)), name)
    ensures Contains(Message(StepNotFound(name)), name)
  {
    ContainsMiddle("Scenario \"", name, "\" not found in config.");
    ContainsMiddle("Action \"", name, "\" not found in config.");
  }
}
