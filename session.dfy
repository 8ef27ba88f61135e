/**
 * The state a script run starts from and leaves behind: the files of the
 * state directory, the cookie.json files, and the browser's cookie jar.
 */
module Session {
  import opened Wrappers
  import opened Errors
  import opened Browser

  datatype Host = Host(files: map<string, string>, jars: map<string, seq<Cookie>>, cookies: seq<Cookie>)

  /** How a run ended: the host state, the page if one was opened, and the error it threw. */
  datatype Finish = Finish(host: Host, page: Option<PageState>, error: Option<Error>)
}
