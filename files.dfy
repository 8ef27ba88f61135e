/**
 * The state directory (`NETERO_STATE`) and the files the scripts keep in it.
 * Text files hold their contents; the `cookie.json` files, which the scripts
 * only ever write with `JSON.stringify` and read with `JSON.parse`, are kept
 * as the cookie lists they encode.
 */
module Files {
  import opened Errors
  import opened Browser

  function CounterPath(state: string): string { state + "/now.txt" }
  function ActiveBrowserPath(state: string): string { state + "/active-browser.txt" }
  function ActiveTabPath(state: string): string { state + "/active-tab.txt" }
  function CookieTextPath(state: string, b: string): string { state + "/browser/" + b + "/cookie.txt" }
  function CookieJsonPath(state: string, b: string): string { state + "/browser/" + b + "/cookie.json" }
  function UrlPath(state: string, b: string, tab: string): string {
    state + "/browser/" + b + "/tab/" + tab + "/url.txt"
  }

  /** `fs.readFileSync(path, "utf-8")` on the text files `files`. */
  function ReadText(files: map<string, string>, path: string): Result<string> {
    if path in files then Ok(files[path]) else Err(FileNotFound(path))
  }

  class Disk {
    var files: map<string, string>
    var jars: map<string, seq<Cookie>>

    constructor (files0: map<string, string>, jars0: map<string, seq<Cookie>>)
      ensures files == files0 && jars == jars0
    {
      files, jars := files0, jars0;
    }

    method ReadFile(path: string) returns (r: Result<string>)
      ensures r == ReadText(files, path)
    {
      if path in files {
        r := Ok(files[path]);
      } else {
        r := Err(FileNotFound(path));
      }
    }

    method WriteFile(path: string, content: string)
      modifies this
      ensures files == old(files)[path := content] && jars == old(jars)
    {
      files := files[path := content];
    }

    method FileExists(path: string) returns (b: bool)
      ensures b == (path in files)
    {
      b := path in files;
    }

    method JarExists(path: string) returns (b: bool)
      ensures b == (path in jars)
    {
      b := path in jars;
    }

    method ReadJar(path: string) returns (cs: seq<Cookie>)
      requires path in jars
      ensures cs == jars[path]
    {
      cs := jars[path];
    }

    method WriteJar(path: string, cs: seq<Cookie>)
      modifies this
      ensures jars == old(jars)[path := cs] && files == old(files)
    {
      jars := jars[path := cs];
    }
  }
}
