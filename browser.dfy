/**
 * The browser as the scripts see it through the automation library: a page
 * with a URL and a document, located elements, and a context holding the
 * cookie jar.
 *
 * A locator is the chain of selector strings it was built from:
 * `page.locator(a)` is `[a]` and `page.locator(a).locator(b)` is `[a, b]`.
 * The document maps each locator that resolves to its element; a locator
 * missing from the map resolves to nothing, and every operation on it fails.
 */
module Browser {
  import opened Wrappers
  import opened Errors
  import JsNumber

  type Locator = seq<string>

  /** What the scripts can observe of one element. */
  datatype Element = Element(
    attributes: map<string, string>,
    text: Option<string>,
    value: string,
    checked: bool)

  type Document = map<Locator, Element>

  /** The document each URL serves when the page navigates to it. */
  type Web = string -> Document

  /** The observable state of a page: its URL, its document and every click made on it so far. */
  datatype PageState = PageState(url: string, elements: Document, clicks: seq<Locator>)

  /** A page just opened with `newPage()`. */
  const Blank := PageState("about:blank", map[], [])

  datatype Cookie = Cookie(
    name: string,
    value: string,
    domain: string,
    path: string,
    expires: JsNumber.Num,
    httpOnly: bool,
    secure: bool)

  /** `page.goto(url)` */
  function Navigate(p: PageState, web: Web, url: string): PageState {
    PageState(url, web(url), p.clicks)
  }

  /** `locator.click()` */
  function ClickAt(p: PageState, loc: Locator): Outcome<PageState> {
    if loc in p.elements then Outcome(p.(clicks := p.clicks + [loc]), None)
    else Outcome(p, Some(ElementNotFound(loc)))
  }

  /** `locator.fill(value)` */
  function FillAt(p: PageState, loc: Locator, value: string): Outcome<PageState> {
    if loc in p.elements then
      Outcome(p.(elements := p.elements[loc := p.elements[loc].(value := value)]), None)
    else Outcome(p, Some(ElementNotFound(loc)))
  }

  /** `locator.check()` when `on`, `locator.uncheck()` otherwise */
  function SetCheckedAt(p: PageState, loc: Locator, on: bool): Outcome<PageState> {
    if loc in p.elements then
      Outcome(p.(elements := p.elements[loc := p.elements[loc].(checked := on)]), None)
    else Outcome(p, Some(ElementNotFound(loc)))
  }

  /** `locator.getAttribute(name)`: null when the element lacks the attribute. */
  function AttributeAt(p: PageState, loc: Locator, name: string): Result<Option<string>> {
    if loc !in p.elements then Err(ElementNotFound(loc))
    else if name in p.elements[loc].attributes then Ok(Some(p.elements[loc].attributes[name]))
    else Ok(None)
  }

  /** `locator.textContent()`: null when the element has no text content. */
  function TextAt(p: PageState, loc: Locator): Result<Option<string>> {
    if loc in p.elements then Ok(p.elements[loc].text) else Err(ElementNotFound(loc))
  }

  class Page {
    var url: string
    var elements: Document
    var clicks: seq<Locator>

    function State(): PageState
      reads this
    {
      PageState(url, elements, clicks)
    }

    constructor ()
      ensures State() == Blank
    {
      url, elements, clicks := "about:blank", map[], [];
    }

    method Goto(web: Web, u: string)
      modifies this
      ensures State() == Navigate(old(State()), web, u)
    {
      url, elements := u, web(u);
    }

    method Click(loc: Locator) returns (err: Option<Error>)
      modifies this
      ensures Outcome(State(), err) == ClickAt(old(State()), loc)
    {
      if loc in elements {
        clicks, err := clicks + [loc], None;
      } else {
        err := Some(ElementNotFound(loc));
      }
    }

    method Fill(loc: Locator, value: string) returns (err: Option<Error>)
      modifies this
      ensures Outcome(State(), err) == FillAt(old(State()), loc, value)
    {
      if loc in elements {
        elements, err := elements[loc := elements[loc].(value := value)], None;
      } else {
        err := Some(ElementNotFound(loc));
      }
    }

    method Check(loc: Locator) returns (err: Option<Error>)
      modifies this
      ensures Outcome(State(), err) == SetCheckedAt(old(State()), loc, true)
    {
      if loc in elements {
        elements, err := elements[loc := elements[loc].(checked := true)], None;
      } else {
        err := Some(ElementNotFound(loc));
      }
    }

    method Uncheck(loc: Locator) returns (err: Option<Error>)
      modifies this
      ensures Outcome(State(), err) == SetCheckedAt(old(State()), loc, false)
    {
      if loc in elements {
        elements, err := elements[loc := elements[loc].(checked := false)], None;
      } else {
        err := Some(ElementNotFound(loc));
      }
    }

    method GetAttribute(loc: Locator, name: string) returns (r: Result<Option<string>>)
      ensures r == AttributeAt(State(), loc, name)
    {
      if loc !in elements {
        r := Err(ElementNotFound(loc));
      } else if name in elements[loc].attributes {
        r := Ok(Some(elements[loc].attributes[name]));
      } else {
        r := Ok(None);
      }
    }

    method TextContent(loc: Locator) returns (r: Result<Option<string>>)
      ensures r == TextAt(State(), loc)
    {
      if loc in elements {
        r := Ok(elements[loc].text);
      } else {
        r := Err(ElementNotFound(loc));
      }
    }
  }

  /** The persistent browser context: it owns the cookie jar. */
  class Context {
    var cookies: seq<Cookie>

    constructor (initial: seq<Cookie>)
      ensures cookies == initial
    {
      cookies := initial;
    }

    /** `browser.addCookies(cs)`: the jar is modelled as the list of cookies added, in order. */
    method AddCookies(cs: seq<Cookie>)
      modifies this
      ensures cookies == old(cookies) + cs
    {
      cookies := cookies + cs;
    }
  }
}
