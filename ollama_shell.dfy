/** The Ollama search shell: three settings fields that a `search` command line may
    change for that one search and that are reset afterwards, a `config` command that
    changes them until the next search, and the wrapper whose model name each search
    overwrites with the shell's model. */
module OllamaShell {
  import opened PyText
  import opened Json
  import opened ContentExtractor
  import opened ContextFormat
  import opened OllamaWebWrapper
  import opened ShellCommands

  /** What one `search` command does, given the backends: decide on a query and
      settings, gather the context with them, print it when asked, and ask the model
      the settings name. */
  function Search(arg: string, tokens: Option<seq<string>>, s: Settings,
                  search: (string, int) -> SearchReply, fetch: string -> PageFetch,
                  chat: (string, Json) -> ChatOutcome): SearchOutcome
  {
    match DecideSearch(Ollama, arg, tokens, s)
    case NoQuery => Prompted
    case Refused(lit) => Failed(lit)
    case Run(req) => Answer(req, search, fetch, chat)
  }

  /** A search that runs: the context for the query with the requested number of
      results, shown when asked for, and the answer of the requested model. */
  function Answer(req: Request, search: (string, int) -> SearchReply, fetch: string -> PageFetch,
                  chat: (string, Json) -> ChatOutcome): SearchOutcome
  {
    var context := OllamaContext(SearchWeb(search(req.query, req.settings.numResults)), fetch);
    Answered(req, if req.settings.showContext then Some(context) else None,
             QueryOllama(req.settings.model, req.query, context, chat))
  }

  class SearchShell {
    var showContext: bool
    var numResults: int
    var model: string
    const wrapper: WebWrapper

    constructor ()
      ensures Current() == Defaults(Ollama)
      ensures fresh(wrapper) && wrapper.modelName == DefaultModel
    {
      showContext := false;
      numResults := DefaultResults;
      model := OllamaDefaultModel;
      wrapper := new WebWrapper(DefaultModel);
    }

    function Current(): Settings
      reads this
    {
      Settings(showContext, numResults, model)
    }

    /** The `finally` clause of `do_search`. */
    method Reset()
      modifies this
      ensures Current() == Defaults(Ollama)
    {
      showContext := false;
      numResults := DefaultResults;
      model := OllamaDefaultModel;
    }

    /** The token loop of `do_search`: each flag sets its field as it is read, and the
        first results value `int()` refuses stops the loop. */
    method ScanTokens(args: seq<string>) returns (scan: Scan)
      modifies this
      ensures scan == ScanFrom(Ollama, args, 0, old(Current()), [])
      ensures scan.Scanned? ==> Current() == scan.settings
    {
      var queryParts: seq<string> := [];
      var i := 0;
      while i < |args|
        invariant 0 <= i <= |args|
        invariant ScanFrom(Ollama, args, i, Current(), queryParts) == ScanFrom(Ollama, args, 0, old(Current()), [])
        decreases |args| - i
      {
        var bad: Option<string>;
        i, queryParts, bad := ReadToken(args, i, queryParts);
        if bad.Some? {
          return BadNumber(bad.value);
        }
      }
      scan := Scanned(Current(), queryParts);
    }

    /** One turn of the token loop: the token at `i` sets a field, or sets one from
        the token after it, or is a query word. Gives the position of the next token
        and the query words so far, or the literal `int()` refused. */
    method ReadToken(args: seq<string>, i: nat, queryParts: seq<string>)
      returns (next: nat, parts: seq<string>, bad: Option<string>)
      requires i < |args|
      modifies this
      ensures i < next <= |args|
      ensures bad.Some? ==> ScanFrom(Ollama, args, i, old(Current()), queryParts) == BadNumber(bad.value)
      ensures bad.None? ==>
        ScanFrom(Ollama, args, i, old(Current()), queryParts) == ScanFrom(Ollama, args, next, Current(), parts)
    {
      var a := args[i];
      next, parts, bad := i + 1, queryParts, None;
      if StartsWith(a, "--") {
        if a == "--show-context" {
          ScanShowTurn(Ollama, args, i, Current(), queryParts);
          showContext := true;
        } else if StartsWith(a, "--results=") {
          ScanResultsJoinedTurn(Ollama, args, i, Current(), queryParts);
          var n := ParseInt(Segment(a));
          if n.None? {
            bad := Some(Segment(a));
            return;
          }
          numResults := n.value;
        } else if StartsWith(a, "--model=") {
          ScanModelJoinedTurn(args, i, Current(), queryParts);
          model := Segment(a);
        } else if a == "--results" && i + 1 < |args| {
          ScanResultsTurn(Ollama, args, i, Current(), queryParts);
          var n := ParseInt(args[i + 1]);
          if n.None? {
            bad := Some(args[i + 1]);
            return;
          }
          numResults := n.value;
          next := i + 2;
        } else if a == "--model" && i + 1 < |args| {
          ScanModelTurn(args, i, Current(), queryParts);
          model := args[i + 1];
          next := i + 2;
        } else {
          ScanWordTurn(Ollama, args, i, Current(), queryParts);
          parts := queryParts + [a];
        }
      } else {
        ScanWordTurn(Ollama, args, i, Current(), queryParts);
        parts := queryParts + [a];
      }
    }

    /** The first part of `do_search`: a blank argument asks for a query; otherwise
        the tokens are read (or the whole argument is the query when `shlex` failed)
        and the query words are joined. A search runs with the fields as they then are. */
    method ReadCommand(arg: string, tokens: Option<seq<string>>) returns (decision: Decision)
      modifies this
      ensures decision == DecideSearch(Ollama, arg, tokens, old(Current()))
      ensures decision.Run? ==> Current() == decision.request.settings
    {
      if IsBlank(arg) {
        return NoQuery;
      }
      var queryParts: seq<string> := [];
      match tokens {
        case None =>
          queryParts := [arg];
        case Some(args) =>
          var scan := ScanTokens(args);
          if scan.BadNumber? {
            return Refused(scan.literal);
          }
          queryParts := scan.words;
      }
      var query := Join(" ", queryParts);
      if query == [] {
        return NoQuery;
      }
      decision := Run(Request(query, Current()));
    }

    /** `do_search`: the flags of the command line change the fields while the tokens
        are read; a search that runs first hands the shell's model to the wrapper, which
        asks that model; whatever happens the fields return to their defaults. The
        wrapper keeps the model it was given. */
    method DoSearch(arg: string, tokens: Option<seq<string>>,
                    search: (string, int) -> SearchReply, fetch: string -> PageFetch,
                    chat: (string, Json) -> ChatOutcome)
      returns (outcome: SearchOutcome)
      modifies this, wrapper
      ensures outcome == Search(arg, tokens, old(Current()), search, fetch, chat)
      ensures Current() == Defaults(Ollama)
      ensures wrapper.modelName == if outcome.Answered? then outcome.request.settings.model else old(wrapper.modelName)
    {
      var decision := ReadCommand(arg, tokens);
      match decision {
        case NoQuery =>
          outcome := Prompted;
        case Refused(lit) =>
          outcome := Failed(lit);
        case Run(req) =>
          outcome := RunSearch(req, search, fetch, chat);
      }
      Reset();
    }

    /** The rest of `do_search` once the query is known: the shell's model goes to the
        wrapper, the context is gathered with the shell's number of results, and the
        wrapper's model answers. */
    method RunSearch(req: Request, search: (string, int) -> SearchReply, fetch: string -> PageFetch,
                     chat: (string, Json) -> ChatOutcome)
      returns (outcome: SearchOutcome)
      requires Current() == req.settings
      modifies wrapper
      ensures outcome == Answer(req, search, fetch, chat)
      ensures wrapper.modelName == req.settings.model
    {
      wrapper.modelName := model;
      var context := GenerateContext(req.query, numResults, search, fetch);
      var shown := if showContext then Some(context) else None;
      var reply := QueryOllama(wrapper.modelName, req.query, context, chat);
      outcome := Answered(req, shown, reply);
    }

    /** `do_config`. The outcome says what was printed; an update is kept until the
        next search resets it. */
    method DoConfig(tokens: Option<seq<string>>) returns (outcome: ConfigOutcome)
      modifies this
      ensures outcome == Config(Ollama, tokens, old(Current()))
      ensures Current() == SettingsAfter(outcome, old(Current()))
    {
      outcome := Config(Ollama, tokens, Current());
      if outcome.Updated? {
        showContext := outcome.settings.showContext;
        numResults := outcome.settings.numResults;
        model := outcome.settings.model;
      }
    }
  }

  /** A blank argument asks for a query whatever the backends would do. */
  lemma SearchBlank(arg: string, tokens: Option<seq<string>>, s: Settings,
                    search: (string, int) -> SearchReply, fetch: string -> PageFetch,
                    chat: (string, Json) -> ChatOutcome)
    requires IsBlank(arg)
    ensures Search(arg, tokens, s, search, fetch, chat) == Prompted
  {
    DecideSearchCases(Ollama, arg, tokens, s);
  }

  /** A search that runs uses the query words, prints the context exactly when asked,
      and answers with the advisory when no record had a URL. */
  lemma SearchRuns(arg: string, tokens: Option<seq<string>>, s: Settings,
                   search: (string, int) -> SearchReply, fetch: string -> PageFetch,
                   chat: (string, Json) -> ChatOutcome)
    requires DecideSearch(Ollama, arg, tokens, s).Run?
    ensures var req := DecideSearch(Ollama, arg, tokens, s).request;
      var o := Search(arg, tokens, s, search, fetch, chat);
      var results := SearchWeb(search(req.query, req.settings.numResults));
      && o.Answered? && o.request == req && req.query != []
      && (o.shown.Some? <==> req.settings.showContext)
      && (WithUrl(results) == [] ==> o.reply == Text(Advisory))
      && (o.shown.Some? ==> (IsBlank(o.shown.value) <==> WithUrl(results) == []))
  {
    var req := DecideSearch(Ollama, arg, tokens, s).request;
    DecideSearchCases(Ollama, arg, tokens, s);
    OllamaContextBlank(SearchWeb(search(req.query, req.settings.numResults)), fetch);
    assert Search(arg, tokens, s, search, fetch, chat) == Answer(req, search, fetch, chat);
  }

  /** The model a search asks is the one the last `--model` flag named, or the
      shell's model when there is none. */
  lemma SearchModel(arg: string, args: seq<string>, s: Settings)
    requires DecideSearch(Ollama, arg, Some(args), s).Run?
    ensures var model := DecideSearch(Ollama, arg, Some(args), s).request.settings.model;
      var items := Lex(Ollama, args);
      && ((forall k :: 0 <= k < |items| ==> !IsModelFlag(items[k])) ==> model == s.model)
      && (forall k :: 0 <= k < |items| && IsModelFlag(items[k]) ==>
            (forall j :: k < j < |items| ==> !IsModelFlag(items[j])) ==> model == items[k].effect.name)
  {
    assert args[0..] == args;
    ScanIsApplyLex(Ollama, args, 0, s, []);
    ApplyLastModel(Lex(Ollama, args), s, []);
  }

  /** A results value `int()` refuses fails the search before any backend is asked. */
  lemma SearchRefused(arg: string, args: seq<string>, s: Settings,
                      search: (string, int) -> SearchReply, fetch: string -> PageFetch,
                      chat: (string, Json) -> ChatOutcome)
    requires !IsBlank(arg)
    requires exists k :: Refuses(Lex(Ollama, args), k)
    ensures Search(arg, Some(args), s, search, fetch, chat).Failed?
  {
    ScanSummary(Ollama, args, s);
  }
}
