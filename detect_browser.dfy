/**
 * DetectBrowserAttribute (TestUnium.Selenium): the browser named after the
 * browser flag on the command line replaces the test's browser. The
 * argument vector, the flag, Enum.TryParse and Browser.ToString are
 * parameters.
 */
module BrowserDetection {
  import opened Base
  import opened CommandLine
  import opened Browsing

  /** Enum.TryParse with its result ignored: an unparseable text gives default(Browser), 0. */
  function TryParseBrowser(parse: string -> Option<Browser>, text: string): (b: Browser)
    ensures parse(text).None? ==> b == 0
    ensures parse(text).Some? ==> b == parse(text).value
  {
    parse(text).GetOr(0)
  }

  /**
   * The browser Customize leaves: the argument after the flag when the
   * flag is present and not last, otherwise the current browser's name,
   * parsed.
   */
  function DetectedBrowser(args: seq<string>, browserCmdArg: string, current: Browser,
                           parse: string -> Option<Browser>, name: Browser -> string): Browser
  {
    TryParseBrowser(parse, ArgAfter(args, browserCmdArg).GetOr(name(current)))
  }

  /** A browser named after the flag is the one detected, when its name parses back to it. */
  lemma FlagSelectsBrowser(args: seq<string>, browserCmdArg: string, current: Browser, b: Browser, i: nat,
                           parse: string -> Option<Browser>, name: Browser -> string)
    requires i < |args| - 1 && args[i] == browserCmdArg && browserCmdArg !in args[..i]
    requires parse(args[i + 1]) == Some(b)
    ensures DetectedBrowser(args, browserCmdArg, current, parse, name) == b
  {
  }

  /** Without a flag before the last argument, a browser whose name parses back to it stays as it was. */
  lemma NoFlagKeepsBrowser(args: seq<string>, browserCmdArg: string, current: Browser,
                           parse: string -> Option<Browser>, name: Browser -> string)
    requires forall i :: 0 <= i < |args| - 1 ==> args[i] != browserCmdArg
    requires parse(name(current)) == Some(current)
    ensures DetectedBrowser(args, browserCmdArg, current, parse, name) == current
  {
  }

  /** An argument after the flag that does not parse leaves default(Browser), whatever the browser was. */
  lemma UnparseableArgumentGivesDefault(args: seq<string>, browserCmdArg: string, current: Browser, i: nat,
                                        parse: string -> Option<Browser>, name: Browser -> string)
    requires i < |args| - 1 && args[i] == browserCmdArg && browserCmdArg !in args[..i]
    requires parse(args[i + 1]).None?
    ensures DetectedBrowser(args, browserCmdArg, current, parse, name) == 0
  {
  }

  /** DetectBrowserAttribute.Customize: only the browser is written. */
  method CustomizeDetectBrowser(context: WebDriverContext, args: seq<string>, browserCmdArg: string,
                                parse: string -> Option<Browser>, name: Browser -> string)
    modifies context`browser
    ensures context.browser == DetectedBrowser(args, browserCmdArg, old(context.browser), parse, name)
  {
    var pos := IndexOf(args, browserCmdArg);
    var text := if pos != -1 && pos < |args| - 1 then args[pos + 1] else name(context.browser);
    var browser := TryParseBrowser(parse, text);
    context.browser := browser;
  }
}
