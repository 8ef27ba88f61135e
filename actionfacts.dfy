/** What each action does, stated over `Actions.Exec` and proved for every input. */
module ActionFacts {
  import opened Wrappers
  import opened Errors
  import opened JsString
  import opened JsNumber
  import opened Browser
  import opened Files
  import opened Actions

  /** `goto-url` navigates to exactly the given URL and touches nothing else. */
  lemma GotoUrlNavigates(env: Env, w: World, url: string)
    ensures Exec(env, w, GotoUrl(url)).error == None
    ensures Exec(env, w, GotoUrl(url)).state
         == w.(page := PageState(url, env.web(url), w.page.clicks))
  {
  }

  /** `goto` clicks exactly the element at the xpath, or fails naming it and changes nothing. */
  lemma GotoClicksExactly(env: Env, w: World, xpath: string)
    ensures var r := Exec(env, w, Goto(xpath));
      (r.error.None? <==> [xpath] in w.page.elements)
      && (r.error.None? ==> r.state == w.(page := w.page.(clicks := w.page.clicks + [[xpath]])))
      && (r.error.Some? ==> r.state == w && r.error == Some(ElementNotFound([xpath])))
  {
  }

  /** The three assertions never change the page or the files. */
  lemma AssertionsAreReadOnly(env: Env, w: World, a: Action)
    requires a.AssertUrl? || a.AssertAttribute? || a.AssertText?
    ensures Exec(env, w, a).state == w
  {
  }

  /** `assert-url` passes exactly when the URL matches; a failure names both URL and pattern. */
  lemma AssertUrlIff(env: Env, w: World, expected: string)
    ensures var r := Exec(env, w, AssertUrl(expected));
      (r.error.None? <==> env.matches(expected, w.page.url))
      && (r.error.Some? ==>
            r.error == Some(UrlMismatch(w.page.url, expected))
            && Contains(Message(r.error.value), w.page.url)
            && Contains(Message(r.error.value), expected))
  {
    UrlMismatchNamesBoth(w.page.url, expected);
  }

  /**
   * An attribute the element lacks always fails with the "not found" error,
   * whose text differs from every mismatch text, whatever the matcher says:
   * no regular expression is tried.
   */
  lemma AbsentAttributeFails(env: Env, other: Matcher, w: World, xpath: string, attribute: string, expected: string)
    requires [xpath] in w.page.elements
    requires attribute !in w.page.elements[[xpath]].attributes
    ensures var r := Exec(env, w, AssertAttribute(xpath, attribute, expected));
      r == Outcome(w, Some(AttributeNotFound(attribute, xpath)))
      && r == Exec(env.(matches := other), w, AssertAttribute(xpath, attribute, expected))
      && forall a, e, g :: Message(r.error.value) != Message(AttributeMismatch(a, e, g))
  {
    forall a, e, g ensures Message(AttributeNotFound(attribute, xpath)) != Message(AttributeMismatch(a, e, g)) {
      AttributeNotFoundIsNotMismatch(attribute, xpath, a, e, g);
    }
  }

  /** A present attribute passes exactly when it matches; a failure reports the value it got. */
  lemma PresentAttributeIff(env: Env, w: World, xpath: string, attribute: string, expected: string)
    requires [xpath] in w.page.elements
    requires attribute in w.page.elements[[xpath]].attributes
    ensures var v := w.page.elements[[xpath]].attributes[attribute];
      var r := Exec(env, w, AssertAttribute(xpath, attribute, expected));
      (r.error.None? <==> env.matches(expected, v))
      && (r.error.Some? ==>
            r.error == Some(AttributeMismatch(attribute, expected, v))
            && Contains(Message(r.error.value), v)
            && Contains(Message(r.error.value), expected))
  {
    var v := w.page.elements[[xpath]].attributes[attribute];
    AttributeMismatchNamesAll(attribute, expected, v);
  }

  /**
   * `assert-text`: null text fails with "Text content not found" whatever the
   * matcher says; present text passes exactly when it matches, and a failure
   * reports the text.
   */
  lemma AssertTextCases(env: Env, other: Matcher, w: World, xpath: string, expected: string)
    requires [xpath] in w.page.elements
    ensures var r := Exec(env, w, AssertText(xpath, expected));
      match w.page.elements[[xpath]].text
      case None =>
        r == Outcome(w, Some(TextNotFound(xpath)))
        && r == Exec(env.(matches := other), w, AssertText(xpath, expected))
      case Some(t) =>
        (r.error.None? <==> env.matches(expected, t))
        && (r.error.Some? ==>
              r.error == Some(TextMismatch(t, expected))
              && Contains(Message(r.error.value), t)
              && Contains(Message(r.error.value), expected))
  {
    match w.page.elements[[xpath]].text
    case None =>
    case Some(t) => TextMismatchNamesBoth(t, expected);
  }

  /** Both element assertions fail, naming the locator, when the xpath resolves to nothing. */
  lemma AssertOnMissingElement(env: Env, w: World, xpath: string, attribute: string, expected: string)
    requires [xpath] !in w.page.elements
    ensures Exec(env, w, AssertAttribute(xpath, attribute, expected)) == Outcome(w, Some(ElementNotFound([xpath])))
    ensures Exec(env, w, AssertText(xpath, expected)) == Outcome(w, Some(ElementNotFound([xpath])))
  {
  }

  /**
   * `time-advance` on a counter holding the decimal text of `n` leaves the
   * decimal text of `n + delta`, for every delta, negative ones included;
   * the page is untouched.
   */
  lemma TimeAdvanceAddsDelta(env: Env, w: World, n: int, delta: int)
    requires CounterPath(env.state) in w.files
    requires w.files[CounterPath(env.state)] == ToString(Int(n))
    ensures Exec(env, w, TimeAdvance(delta))
         == Outcome(w.(files := w.files[CounterPath(env.state) := ToString(Int(n + delta))]), None)
  {
    ParseToString(n);
  }

  /** `time-advance` without a counter file fails and changes nothing. */
  lemma TimeAdvanceNeedsCounter(env: Env, w: World, delta: int)
    requires CounterPath(env.state) !in w.files
    ensures Exec(env, w, TimeAdvance(delta)) == Outcome(w, Some(FileNotFound(CounterPath(env.state))))
  {
  }

  /** A counter holding "10" advanced by 5 holds "15". */
  lemma TimeAdvanceTenByFive(env: Env, w: World)
    requires CounterPath(env.state) in w.files
    requires w.files[CounterPath(env.state)] == "10"
    ensures Exec(env, w, TimeAdvance(5)).state.files[CounterPath(env.state)] == "15"
  {
    assert Decimal(1) == "1";
    assert Decimal(10) == Decimal(1) + [DigitChar(0)] == "10";
    assert Decimal(15) == Decimal(1) + [DigitChar(5)] == "15";
    TimeAdvanceAddsDelta(env, w, 10, 5);
  }

  /** Filling `a + b` is filling `a`, then, unless that failed, filling `b` from where it left off. */
  lemma {:induction false} FillFormAppend(p: PageState, form: Locator, a: FormData, b: FormData)
    ensures FillForm(p, form, a + b)
         == (var o := FillForm(p, form, a); if o.error.Some? then o else FillForm(o.state, form, b))
    decreases |b|
  {
    if b == [] {
      assert a + b == a;
    } else {
      var n := |b| - 1;
      assert (a + b)[..|a| + n] == a + b[..n];
      assert (a + b)[|a| + n] == b[n];
      assert FillForm(p, form, a + b) == FillStep(FillForm(p, form, a + b[..n]), form, b[n]);
      FillFormAppend(p, form, a, b[..n]);
      var o := FillForm(p, form, a);
      if o.error.None? {
        assert FillForm(o.state, form, b) == FillStep(FillForm(o.state, form, b[..n]), form, b[n]);
      }
    }
  }

  /** One entry is exactly one `handleInput` call. */
  lemma FillFormOne(p: PageState, form: Locator, name: string, input: FormInput)
    ensures FillForm(p, form, [(name, input)]) == InputEffect(p, form, name, input)
  {
    assert [(name, input)][..0] == [];
  }

  /**
   * `handleInput`: a text input fills `//input[@name='<name>']`, a checkbox
   * checks or unchecks that same input as `checked` says, a radio button
   * checks `//input[@name='<name>' and @value='<value>']`; nothing else on
   * the page changes, and a missing element is the error.
   */
  lemma InputEffectTargets(p: PageState, form: Locator, name: string, input: FormInput)
    ensures var t := InputTarget(form, name, input);
      var r := InputEffect(p, form, name, input);
      t == form + [match input case Radio(v) => RadioSelector(name, v) case _ => InputSelector(name)]
      && (t !in p.elements ==> r == Outcome(p, Some(ElementNotFound(t))))
      && (t in p.elements ==>
            r.error.None? && r.state.url == p.url && r.state.clicks == p.clicks
            && r.state.elements == p.elements[t := match input
                 case TextInput(v) => p.elements[t].(value := v)
                 case Checkbox(on) => p.elements[t].(checked := on)
                 case Radio(_) => p.elements[t].(checked := true)])
  {
  }

  /**
   * After a successful fill, an element filled by a text entry holds that
   * entry's value unless a later text entry filled the same element.
   */
  lemma {:induction false} LastTextEntryWins(p: PageState, form: Locator, data: FormData, k: nat)
    requires k < |data| && data[k].1.TextInput?
    requires FillForm(p, form, data).error.None?
    requires forall j :: k < j < |data| && data[j].1.TextInput? ==>
               InputTarget(form, data[j].0, data[j].1) != InputTarget(form, data[k].0, data[k].1)
    ensures var t := InputTarget(form, data[k].0, data[k].1);
      t in FillForm(p, form, data).state.elements
      && FillForm(p, form, data).state.elements[t].value == data[k].1.value
    decreases |data|
  {
    var n := |data| - 1;
    var prev := FillForm(p, form, data[..n]);
    assert forall j :: 0 <= j < n ==> data[..n][j] == data[j];
    if k < n {
      LastTextEntryWins(p, form, data[..n], k);
    }
  }

  /**
   * `submit` fills every entry of its data in order and then clicks once: the
   * button it names, searched on the whole page, or else the first submit
   * button inside the form. A fill that fails ends the action before any
   * click. It succeeds exactly when every input and the button exist.
   */
  lemma SubmitFillsThenClicksOnce(env: Env, w: World, button: Option<string>, data: Option<FormData>)
    ensures var entries := data.GetOr([]);
      var filled := FillForm(w.page, [FormSelector], entries);
      var r := Exec(env, w, Submit(button, data));
      SubmitTarget(button) == (if button.Some? then [button.value] else [FormSelector, SubmitSelector])
      && r.state.files == w.files && r.state.page.url == w.page.url
      && (filled.error.Some? ==>
            r == Outcome(w.(page := filled.state), filled.error) && r.state.page.clicks == w.page.clicks)
      && (r.error.None? <==>
            (forall k :: 0 <= k < |entries| ==> InputTarget([FormSelector], entries[k].0, entries[k].1) in w.page.elements)
            && SubmitTarget(button) in w.page.elements)
      && (r.error.None? ==> r.state.page == filled.state.(clicks := w.page.clicks + [SubmitTarget(button)]))
  {
    FillFormSucceedsIff(w.page, [FormSelector], data.GetOr([]));
  }
}
