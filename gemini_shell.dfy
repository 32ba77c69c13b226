/** The Gemini search shell: two settings fields that a `search` command line may
    change for that one search and that are reset afterwards, and a `config` command
    that changes them until the next search. */
module GeminiShell {
  import opened PyText
  import opened Json
  import opened ContentExtractor
  import opened ContextFormat
  import opened GeminiWebWrapper
  import opened ShellCommands

  /** What one `search` command does, given the backends: decide on a query and
      settings, gather the context with them, print it when asked, and answer. */
  function Search(arg: string, tokens: Option<seq<string>>, s: Settings,
                  search: (string, int) -> UrlSearch, titleFetch: string -> TitleFetch,
                  fetch: string -> PageFetch, post: Json -> PostOutcome): SearchOutcome
  {
    match DecideSearch(Gemini, arg, tokens, s)
    case NoQuery => Prompted
    case Refused(lit) => Failed(lit)
    case Run(req) => Answer(req, search, titleFetch, fetch, post)
  }

  /** A search that runs: the context for the query with the requested number of
      results, shown when asked for, and Gemini's answer. */
  function Answer(req: Request, search: (string, int) -> UrlSearch, titleFetch: string -> TitleFetch,
                  fetch: string -> PageFetch, post: Json -> PostOutcome): SearchOutcome
  {
    var context := GeminiContext(Hits(search(req.query, req.settings.numResults), titleFetch), fetch);
    Answered(req, if req.settings.showContext then Some(context) else None, QueryGemini(req.query, context, post))
  }

  class SearchShell {
    var showContext: bool
    var numResults: int

    constructor ()
      ensures Current() == Defaults(Gemini)
    {
      showContext := false;
      numResults := DefaultResults;
    }

    /** The settings the fields hold; the model is fixed. */
    function Current(): Settings
      reads this
    {
      Settings(showContext, numResults, GeminiModel)
    }

    /** The `finally` clause of `do_search`. */
    method Reset()
      modifies this
      ensures Current() == Defaults(Gemini)
    {
      showContext := false;
      numResults := DefaultResults;
    }

    /** The token loop of `do_search`: each flag sets its field as it is read, and the
        first results value `int()` refuses stops the loop. */
    method ScanTokens(args: seq<string>) returns (scan: Scan)
      modifies this
      ensures scan == ScanFrom(Gemini, args, 0, old(Current()), [])
      ensures scan.Scanned? ==> Current() == scan.settings
    {
      var queryParts: seq<string> := [];
      var i := 0;
      while i < |args|
        invariant 0 <= i <= |args|
        invariant ScanFrom(Gemini, args, i, Current(), queryParts) == ScanFrom(Gemini, args, 0, old(Current()), [])
        decreases |args| - i
      {
        var bad: Option<string>;
        i, queryParts, bad := ReadToken(args, i, queryParts);
        if bad.Some? {
          return BadNumber(bad.value);
        }
      }
      scan := Scanned(Current(), queryParts);
    }

    /** One turn of the token loop: the token at `i` sets a field, or sets one from
        the token after it, or is a query word. Gives the position of the next token
        and the query words so far, or the literal `int()` refused. */
    method ReadToken(args: seq<string>, i: nat, queryParts: seq<string>)
      returns (next: nat, parts: seq<string>, bad: Option<string>)
      requires i < |args|
      modifies this
      ensures i < next <= |args|
      ensures bad.Some? ==> ScanFrom(Gemini, args, i, old(Current()), queryParts) == BadNumber(bad.value)
      ensures bad.None? ==>
        ScanFrom(Gemini, args, i, old(Current()), queryParts) == ScanFrom(Gemini, args, next, Current(), parts)
    {
      var a := args[i];
      next, parts, bad := i + 1, queryParts, None;
      if StartsWith(a, "--") {
        if a == "--show-context" {
          ScanShowTurn(Gemini, args, i, Current(), queryParts);
          showContext := true;
        } else if StartsWith(a, "--results=") {
          ScanResultsJoinedTurn(Gemini, args, i, Current(), queryParts);
          var n := ParseInt(Segment(a));
          if n.None? {
            bad := Some(Segment(a));
            return;
          }
          numResults := n.value;
        } else if a == "--results" && i + 1 < |args| {
          ScanResultsTurn(Gemini, args, i, Current(), queryParts);
          var n := ParseInt(args[i + 1]);
          if n.None? {
            bad := Some(args[i + 1]);
            return;
          }
          numResults := n.value;
          next := i + 2;
        } else {
          ScanWordTurn(Gemini, args, i, Current(), queryParts);
          parts := queryParts + [a];
        }
      } else {
        ScanWordTurn(Gemini, args, i, Current(), queryParts);
        parts := queryParts + [a];
      }
    }

    /** The first part of `do_search`: a blank argument asks for a query; otherwise
        the tokens are read (or the whole argument is the query when `shlex` failed)
        and the query words are joined. A search runs with the fields as they then are. */
    method ReadCommand(arg: string, tokens: Option<seq<string>>) returns (decision: Decision)
      modifies this
      ensures decision == DecideSearch(Gemini, arg, tokens, old(Current()))
      ensures decision.Run? ==> Current() == decision.request.settings
    {
      if IsBlank(arg) {
        return NoQuery;
      }
      var queryParts: seq<string> := [];
      match tokens {
        case None =>
          queryParts := [arg];
        case Some(args) =>
          var scan := ScanTokens(args);
          if scan.BadNumber? {
            return Refused(scan.literal);
          }
          queryParts := scan.words;
      }
      var query := Join(" ", queryParts);
      if query == [] {
        return NoQuery;
      }
      decision := Run(Request(query, Current()));
    }

    /** `do_search`: the flags of the command line change the fields while the tokens
        are read, the search runs with the fields as they then are, and whatever
        happens the fields return to their defaults. */
    method DoSearch(arg: string, tokens: Option<seq<string>>,
                    search: (string, int) -> UrlSearch, titleFetch: string -> TitleFetch,
                    fetch: string -> PageFetch, post: Json -> PostOutcome)
      returns (outcome: SearchOutcome)
      modifies this
      ensures outcome == Search(arg, tokens, old(Current()), search, titleFetch, fetch, post)
      ensures Current() == Defaults(Gemini)
    {
      var decision := ReadCommand(arg, tokens);
      match decision {
        case NoQuery =>
          outcome := Prompted;
        case Refused(lit) =>
          outcome := Failed(lit);
        case Run(req) =>
          outcome := RunSearch(req, search, titleFetch, fetch, post);
      }
      Reset();
    }

    /** The rest of `do_search` once the query is known: the context is gathered with
        the shell's number of results, printed when the shell says so, and answered. */
    method RunSearch(req: Request, search: (string, int) -> UrlSearch, titleFetch: string -> TitleFetch,
                     fetch: string -> PageFetch, post: Json -> PostOutcome)
      returns (outcome: SearchOutcome)
      requires Current() == req.settings
      ensures outcome == Answer(req, search, titleFetch, fetch, post)
    {
      var context := GenerateContext(req.query, numResults, search, titleFetch, fetch);
      var shown := if showContext then Some(context) else None;
      var reply := QueryGemini(req.query, context, post);
      outcome := Answered(req, shown, reply);
    }

    /** `do_config`. The outcome says what was printed; an update is kept until the
        next search resets it. */
    method DoConfig(tokens: Option<seq<string>>) returns (outcome: ConfigOutcome)
      modifies this
      ensures outcome == Config(Gemini, tokens, old(Current()))
      ensures Current() == SettingsAfter(outcome, old(Current()))
    {
      outcome := Config(Gemini, tokens, Current());
      if outcome.Updated? {
        showContext := outcome.settings.showContext;
        numResults := outcome.settings.numResults;
      }
    }
  }

  /** A blank argument asks for a query whatever the backends would do. */
  lemma SearchBlank(arg: string, tokens: Option<seq<string>>, s: Settings,
                    search: (string, int) -> UrlSearch, titleFetch: string -> TitleFetch,
                    fetch: string -> PageFetch, post: Json -> PostOutcome)
    requires IsBlank(arg)
    ensures Search(arg, tokens, s, search, titleFetch, fetch, post) == Prompted
  {
    DecideSearchCases(Gemini, arg, tokens, s);
  }

  /** A search that runs uses the query words, prints the context exactly when asked,
      and answers with the advisory when the search found nothing. */
  lemma SearchRuns(arg: string, tokens: Option<seq<string>>, s: Settings,
                   search: (string, int) -> UrlSearch, titleFetch: string -> TitleFetch,
                   fetch: string -> PageFetch, post: Json -> PostOutcome)
    requires DecideSearch(Gemini, arg, tokens, s).Run?
    ensures var req := DecideSearch(Gemini, arg, tokens, s).request;
      var o := Search(arg, tokens, s, search, titleFetch, fetch, post);
      var hits := Hits(search(req.query, req.settings.numResults), titleFetch);
      && o.Answered? && o.request == req && req.query != []
      && (o.shown.Some? <==> req.settings.showContext)
      && (hits == [] ==> o.reply == Text(Advisory))
      && (o.shown.Some? && hits != [] ==> !IsBlank(o.shown.value))
  {
    var req := DecideSearch(Gemini, arg, tokens, s).request;
    DecideSearchCases(Gemini, arg, tokens, s);
    var hits := Hits(search(req.query, req.settings.numResults), titleFetch);
    GeminiContextBlank(hits, fetch);
    assert Search(arg, tokens, s, search, titleFetch, fetch, post) == Answer(req, search, titleFetch, fetch, post);
  }

  /** The Gemini shell has no model flag: no token changes the settings' model field.
      The request itself names no model; the endpoint fixes it. */
  lemma SearchModel(arg: string, tokens: Option<seq<string>>, s: Settings)
    requires DecideSearch(Gemini, arg, tokens, s).Run?
    ensures DecideSearch(Gemini, arg, tokens, s).request.settings.model == s.model
  {
    match tokens
    case None =>
    case Some(args) => ScanSummary(Gemini, args, s);
  }

  /** A results value `int()` refuses fails the search before any backend is asked. */
  lemma SearchRefused(arg: string, args: seq<string>, s: Settings,
                      search: (string, int) -> UrlSearch, titleFetch: string -> TitleFetch,
                      fetch: string -> PageFetch, post: Json -> PostOutcome)
    requires !IsBlank(arg)
    requires exists k :: Refuses(Lex(Gemini, args), k)
    ensures Search(arg, Some(args), s, search, titleFetch, fetch, post).Failed?
  {
    ScanSummary(Gemini, args, s);
  }
}
