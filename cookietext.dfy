/**
 * The Netscape-style `cookie.txt` reader of netero.ts and index.ts (the two
 * copies are identical). Lines are separated by "\n" and fields by tabs:
 * domain, (ignored), path, secure, expires, name, value. A domain written
 * with the `#HttpOnly_` prefix marks an HTTP-only cookie; every other line
 * starting with "#" is a comment.
 */
module CookieText {
  import opened Wrappers
  import opened Errors
  import opened JsString
  import opened JsNumber
  import opened Browser

  const HttpOnlyPrefix := "#HttpOnly_"

  /** Empty lines and comments are skipped. */
  predicate IsSkipped(line: string) {
    (StartsWith(line, "#") && !StartsWith(line, HttpOnlyPrefix)) || line == ""
  }

  /**
   * The cookie of a line that is not skipped. `split` always yields a first
   * field, so the "undefined" test of the source fails exactly when the name
   * (sixth field) or the value (seventh) is missing: fewer than seven fields.
   */
  function ParseFields(line: string): Result<Cookie> {
    var f := Split(line, '\t');
    if |f| < 7 then Err(InvalidCookieLine(line))
    else
      var httpOnly := StartsWith(f[0], HttpOnlyPrefix);
      Ok(Cookie(
        name := f[5],
        value := f[6],
        domain := if httpOnly then ReplaceFirst(f[0], HttpOnlyPrefix, "") else f[0],
        path := f[2],
        expires := ParseInt(f[4]),
        httpOnly := httpOnly,
        secure := f[3] == "TRUE"))
  }

  /** One iteration of the loop: nothing for a skipped line, else its cookie or the error. */
  function ParseLine(line: string): Result<Option<Cookie>> {
    if IsSkipped(line) then Ok(None)
    else match ParseFields(line)
      case Ok(c) => Ok(Some(c))
      case Err(e) => Err(e)
  }

  /** The lines that are not skipped, in file order. */
  function Kept(lines: seq<string>): seq<string> {
    if lines == [] then []
    else Kept(lines[..|lines| - 1]) + (if IsSkipped(lines[|lines| - 1]) then [] else [lines[|lines| - 1]])
  }

  /** One pass of the loop body, after the cookies `prev` and unless an earlier line failed. */
  function AddLine(prev: Outcome<seq<Cookie>>, line: string): Outcome<seq<Cookie>> {
    if prev.error.Some? then prev
    else match ParseLine(line)
      case Err(e) => Outcome(prev.state, Some(e))
      case Ok(None) => prev
      case Ok(Some(c)) => Outcome(prev.state + [c], None)
  }

  /** The loop over the lines: the cookies added, in order, and the error that ended it. */
  function ParseLines(lines: seq<string>): Outcome<seq<Cookie>>
    decreases |lines|
  {
    if lines == [] then Outcome([], None)
    else AddLine(ParseLines(lines[..|lines| - 1]), lines[|lines| - 1])
  }

  lemma ParseLinesStep(lines: seq<string>, n: nat)
    requires n < |lines|
    ensures ParseLines(lines[..n + 1]) == AddLine(ParseLines(lines[..n]), lines[n])
  {
    assert lines[..n + 1][..n] == lines[..n];
  }

  /**
   * A line is skipped exactly when it is empty or a comment; a kept line
   * with fewer than seven fields is rejected naming the line; otherwise
   * the cookie takes path, secure, expires, name and value from fields 3
   * to 7 (the second is ignored, so are fields past the seventh), and is
   * HTTP-only exactly when the first field carries the `#HttpOnly_` prefix,
   * which is then stripped to give the domain.
   */
  lemma ParseLineCases(line: string)
    ensures var f := Split(line, '\t');
      var r := ParseLine(line);
      (r == Ok(None) <==> IsSkipped(line))
      && (r.Err? <==> !IsSkipped(line) && |f| < 7)
      && (r.Err? ==> r.error == InvalidCookieLine(line))
      && (r.Ok? && r.value.Some? ==>
            var c := r.value.value;
            |f| >= 7
            && (c.httpOnly <==> StartsWith(f[0], HttpOnlyPrefix))
            && c.domain == (if c.httpOnly then f[0][|HttpOnlyPrefix|..] else f[0])
            && (c.secure <==> f[3] == "TRUE")
            && c.path == f[2] && c.name == f[5] && c.value == f[6]
            && c.expires == ParseInt(f[4]))
  {
    var f := Split(line, '\t');
    if !IsSkipped(line) && |f| >= 7 && StartsWith(f[0], HttpOnlyPrefix) {
      ReplaceLeadingPrefix(f[0], HttpOnlyPrefix);
    }
  }

  /**
   * The line written from seven or more tab-free fields, whose first field is
   * not a comment, reads back as the cookie those fields describe.
   */
  lemma ParseJoinedFields(fields: seq<string>)
    requires |fields| >= 7
    requires forall k :: 0 <= k < |fields| ==> '\t' !in fields[k]
    requires !StartsWith(fields[0], "#") || StartsWith(fields[0], HttpOnlyPrefix)
    ensures var h := StartsWith(fields[0], HttpOnlyPrefix);
      ParseLine(Join(fields, '\t'))
      == Ok(Some(Cookie(fields[5], fields[6], if h then fields[0][|HttpOnlyPrefix|..] else fields[0],
                        fields[2], ParseInt(fields[4]), h, fields[3] == "TRUE")))
  {
    var line := Join(fields, '\t');
    JoinedLineIsKept(fields);
    SplitJoin(fields, '\t');
    if StartsWith(fields[0], HttpOnlyPrefix) {
      ReplaceLeadingPrefix(fields[0], HttpOnlyPrefix);
    }
  }

  /** A line joined from tab-free fields is skipped exactly when its first field is a comment. */
  lemma JoinedLineIsKept(fields: seq<string>)
    requires |fields| >= 2
    requires forall k :: 0 <= k < |fields| ==> '\t' !in fields[k]
    requires !StartsWith(fields[0], "#") || StartsWith(fields[0], HttpOnlyPrefix)
    ensures !IsSkipped(Join(fields, '\t'))
  {
    var rest := Join(fields[1..], '\t');
    assert Join(fields, '\t') == fields[0] + ['\t'] + rest;
    StartsWithFirstField(fields[0], rest, '\t', "#");
    StartsWithFirstField(fields[0], rest, '\t', HttpOnlyPrefix);
  }

  /** The loop throws nothing exactly when every line parses. */
  lemma {:induction false} ParseLinesSucceedsIff(lines: seq<string>)
    ensures ParseLines(lines).error.None? <==> forall k :: 0 <= k < |lines| ==> ParseLine(lines[k]).Ok?
    decreases |lines|
  {
    if lines != [] {
      var n := |lines| - 1;
      var init := lines[..n];
      ParseLinesSucceedsIff(init);
      assert ParseLines(lines) == AddLine(ParseLines(init), lines[n]);
      assert forall k :: 0 <= k < n ==> init[k] == lines[k];
      assert (forall k :: 0 <= k < |lines| ==> ParseLine(lines[k]).Ok?)
        <==> (forall k :: 0 <= k < n ==> ParseLine(init[k]).Ok?) && ParseLine(lines[n]).Ok?;
    }
  }

  /** Without an error, exactly one cookie is added per kept line, in file order. */
  lemma {:induction false} OneCookiePerKeptLine(lines: seq<string>)
    requires ParseLines(lines).error.None?
    ensures var cs := ParseLines(lines).state;
      |cs| == |Kept(lines)|
      && forall j :: 0 <= j < |cs| ==> ParseFields(Kept(lines)[j]) == Ok(cs[j])
    decreases |lines|
  {
    if lines != [] {
      var n := |lines| - 1;
      OneCookiePerKeptLine(lines[..n]);
    }
  }

  lemma {:induction false} FailurePersists(lines: seq<string>, i: nat)
    requires i <= |lines|
    requires ParseLines(lines[..i]).error.Some?
    ensures ParseLines(lines) == ParseLines(lines[..i])
    decreases |lines| - i
  {
    if i < |lines| {
      ParseLinesStep(lines, i);
      FailurePersists(lines, i + 1);
    } else {
      assert lines[..i] == lines;
    }
  }

  lemma FailingLine(pre: Outcome<seq<Cookie>>, line: string, e: Error)
    requires pre.error.None?
    requires ParseLine(line) == Err(e)
    ensures AddLine(pre, line) == Outcome(pre.state, Some(e))
  {
  }

  lemma {:induction false} StopsAt(lines: seq<string>, k: nat, e: Error)
    requires k < |lines|
    requires ParseLines(lines[..k]).error.None?
    requires ParseLine(lines[k]) == Err(e)
    ensures ParseLines(lines) == Outcome(ParseLines(lines[..k]).state, Some(e))
    decreases |lines|
  {
    var n := |lines| - 1;
    var init := lines[..n];
    assert ParseLines(lines) == AddLine(ParseLines(init), lines[n]);
    if n == k {
      FailingLine(ParseLines(init), lines[k], e);
    } else {
      assert init[..k] == lines[..k];
      assert init[k] == lines[k];
      StopsAt(init, k, e);
    }
  }

  lemma PrefixSucceeds(lines: seq<string>, k: nat)
    requires k <= |lines|
    requires forall j :: 0 <= j < k ==> ParseLine(lines[j]).Ok?
    ensures ParseLines(lines[..k]).error.None?
  {
    assert forall j :: 0 <= j < k ==> lines[..k][j] == lines[j];
    ParseLinesSucceedsIff(lines[..k]);
  }

  /**
   * The first invalid line ends the loop with an error naming it; the cookies
   * of the lines before it have already been added, none after it are.
   */
  lemma FirstInvalidLineStops(lines: seq<string>, k: nat)
    requires k < |lines|
    requires forall j :: 0 <= j < k ==> ParseLine(lines[j]).Ok?
    requires ParseLine(lines[k]).Err?
    ensures ParseLines(lines) == Outcome(ParseLines(lines[..k]).state, Some(InvalidCookieLine(lines[k])))
  {
    PrefixSucceeds(lines, k);
    ParseLineCases(lines[k]);
    StopsAt(lines, k, InvalidCookieLine(lines[k]));
  }

  /** The loop of netero.ts:94-115 and index.ts:79-100, adding each cookie to the browser as it is read. */
  method LoadCookies(text: string, ctx: Context) returns (err: Option<Error>)
    modifies ctx
    ensures ctx.cookies == old(ctx.cookies) + ParseLines(Split(text, '\n')).state
    ensures err == ParseLines(Split(text, '\n')).error
  {
    var lines := Split(text, '\n');
    var i := 0;
    while i < |lines|
      invariant i <= |lines|
      invariant ParseLines(lines[..i]).error.None?
      invariant ctx.cookies == old(ctx.cookies) + ParseLines(lines[..i]).state
    {
      ParseLinesStep(lines, i);
      var line := lines[i];
      if !IsSkipped(line) {
        var r := ParseFields(line);
        if r.Err? {
          err := Some(r.error);
          FailurePersists(lines, i + 1);
          return;
        }
        ctx.AddCookies([r.value]);
      }
      i := i + 1;
    }
    assert lines[..i] == lines;
    err := None;
  }
}
