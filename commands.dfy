/** What the shell's `search` and `config` commands do to the shell's settings, for
    both shells: the Gemini shell (fields `show_context` and `num_results`) and the
    Ollama shell (those and `model`, with `--model` flags). The token loop of
    `do_search` is `ScanFrom`; `Lex` and `Apply` are an independent reading of the same
    command line, first into flags and words, then flag by flag. */
module ShellCommands {
  import opened PyText
  import opened Json

  datatype Dialect = Gemini | Ollama

  /** The settings a search runs with. The Gemini shell has no model field: its model
      is fixed by the API URL. */
  datatype Settings = Settings(showContext: bool, numResults: int, model: string)

  const GeminiModel: string := "gemini-1.5-flash-8b"
  const OllamaDefaultModel: string := "granite3-moe:3b-instruct-q8_0"
  const DefaultResults: int := 3

  /** The settings at start-up, and again after every search. */
  function Defaults(d: Dialect): Settings {
    Settings(false, DefaultResults, if d == Gemini then GeminiModel else OllamaDefaultModel)
  }

  /** `tok.split('=')[1]`: the text between the first and the second `=`. */
  function Segment(tok: string): string
    requires '=' in tok
  {
    var parts := Split(tok, '=');
    assert Count(tok, '=') > 0;
    parts[1]
  }

  /** Where a token loop ends: the settings and query words it collected, or the
      literal `int()` refused (the `ValueError` that ends the search). */
  datatype Scan = Scanned(settings: Settings, words: seq<string>) | BadNumber(literal: string)

  lemma FlagHasEquals(a: string, p: string)
    requires StartsWith(a, p) && '=' in p
    ensures '=' in a
  {
    var k :| 0 <= k < |p| && p[k] == '=';
    assert a[k] == a[..|p|][k];
  }

  lemma StartsWithTrans(a: string, p: string, q: string)
    requires StartsWith(a, p) && StartsWith(p, q)
    ensures StartsWith(a, q)
  {
    assert a[..|q|] == a[..|p|][..|q|];
  }

  /** The `while i < len(args)` loop of `do_search` from position `i`, with the
      settings `s` and the query words `words` collected so far: checks in the source's
      order, a flag with a separate value only when a value follows, and every other
      token a query word. */
  function ScanFrom(d: Dialect, args: seq<string>, i: nat, s: Settings, words: seq<string>): Scan
    decreases |args| - i
  {
    if i >= |args| then Scanned(s, words)
    else
      var a := args[i];
      if StartsWith(a, "--") then
        if a == "--show-context" then ScanFrom(d, args, i + 1, s.(showContext := true), words)
        else if StartsWith(a, "--results=") then
          FlagHasEquals(a, "--results=");
          match ParseInt(Segment(a))
          case None => BadNumber(Segment(a))
          case Some(n) => ScanFrom(d, args, i + 1, s.(numResults := n), words)
        else if d == Ollama && StartsWith(a, "--model=") then
          FlagHasEquals(a, "--model=");
          ScanFrom(d, args, i + 1, s.(model := Segment(a)), words)
        else if a == "--results" && i + 1 < |args| then
          match ParseInt(args[i + 1])
          case None => BadNumber(args[i + 1])
          case Some(n) => ScanFrom(d, args, i + 2, s.(numResults := n), words)
        else if d == Ollama && a == "--model" && i + 1 < |args| then
          ScanFrom(d, args, i + 2, s.(model := args[i + 1]), words)
        else ScanFrom(d, args, i + 1, s, words + [a])
      else ScanFrom(d, args, i + 1, s, words + [a])
  }

  // One turn of the token loop, branch by branch, with the conditions under which the
  // loop takes that branch.

  lemma ScanShowTurn(d: Dialect, args: seq<string>, i: nat, s: Settings, words: seq<string>)
    requires i < |args| && StartsWith(args[i], "--") && args[i] == "--show-context"
    ensures ScanFrom(d, args, i, s, words) == ScanFrom(d, args, i + 1, s.(showContext := true), words)
  {
  }

  lemma ScanResultsJoinedTurn(d: Dialect, args: seq<string>, i: nat, s: Settings, words: seq<string>)
    requires i < |args| && StartsWith(args[i], "--") && args[i] != "--show-context"
    requires StartsWith(args[i], "--results=")
    ensures '=' in args[i]
    ensures ParseInt(Segment(args[i])).None? ==> ScanFrom(d, args, i, s, words) == BadNumber(Segment(args[i]))
    ensures ParseInt(Segment(args[i])).Some? ==>
      ScanFrom(d, args, i, s, words) == ScanFrom(d, args, i + 1, s.(numResults := ParseInt(Segment(args[i])).value), words)
  {
    FlagHasEquals(args[i], "--results=");
  }

  lemma ScanModelJoinedTurn(args: seq<string>, i: nat, s: Settings, words: seq<string>)
    requires i < |args| && StartsWith(args[i], "--") && args[i] != "--show-context"
    requires !StartsWith(args[i], "--results=") && StartsWith(args[i], "--model=")
    ensures '=' in args[i]
    ensures ScanFrom(Ollama, args, i, s, words) == ScanFrom(Ollama, args, i + 1, s.(model := Segment(args[i])), words)
  {
    FlagHasEquals(args[i], "--model=");
  }

  lemma ScanResultsTurn(d: Dialect, args: seq<string>, i: nat, s: Settings, words: seq<string>)
    requires i + 1 < |args| && StartsWith(args[i], "--") && args[i] != "--show-context"
    requires !StartsWith(args[i], "--results=") && !(d == Ollama && StartsWith(args[i], "--model="))
    requires args[i] == "--results"
    ensures ParseInt(args[i + 1]).None? ==> ScanFrom(d, args, i, s, words) == BadNumber(args[i + 1])
    ensures ParseInt(args[i + 1]).Some? ==>
      ScanFrom(d, args, i, s, words) == ScanFrom(d, args, i + 2, s.(numResults := ParseInt(args[i + 1]).value), words)
  {
  }

  lemma ScanModelTurn(args: seq<string>, i: nat, s: Settings, words: seq<string>)
    requires i + 1 < |args| && StartsWith(args[i], "--") && args[i] != "--show-context"
    requires !StartsWith(args[i], "--results=") && !StartsWith(args[i], "--model=")
    requires args[i] != "--results" && args[i] == "--model"
    ensures ScanFrom(Ollama, args, i, s, words) == ScanFrom(Ollama, args, i + 2, s.(model := args[i + 1]), words)
  {
  }

  lemma ScanWordTurn(d: Dialect, args: seq<string>, i: nat, s: Settings, words: seq<string>)
    requires i < |args|
    requires StartsWith(args[i], "--") ==>
      && args[i] != "--show-context" && !StartsWith(args[i], "--results=")
      && !(d == Ollama && StartsWith(args[i], "--model="))
      && !(args[i] == "--results" && i + 1 < |args|)
      && !(d == Ollama && args[i] == "--model" && i + 1 < |args|)
    ensures ScanFrom(d, args, i, s, words) == ScanFrom(d, args, i + 1, s, words + [args[i]])
  {
  }

  // ---- the reference reading: flags and words ------------------------------------

  datatype Effect = ShowContext | SetResults(literal: string) | SetModel(name: string)

  /** A flag with the tokens it consumed and what it sets, or a query word. */
  datatype Item = Flag(tokens: seq<string>, effect: Effect) | Word(w: string)

  function Tokens(it: Item): seq<string> {
    match it
    case Word(w) => [w]
    case Flag(ts, _) => ts
  }

  /** The first item of a command line and the number of tokens it takes. */
  function Head(d: Dialect, args: seq<string>): (h: (Item, nat))
    requires args != []
    ensures 1 <= h.1 <= 2 && h.1 <= |args| && Tokens(h.0) == args[..h.1]
  {
    var a := args[0];
    if a == "--show-context" then (Flag([a], ShowContext), 1)
    else if StartsWith(a, "--results=") then
      FlagHasEquals(a, "--results=");
      (Flag([a], SetResults(Segment(a))), 1)
    else if d == Ollama && StartsWith(a, "--model=") then
      FlagHasEquals(a, "--model=");
      (Flag([a], SetModel(Segment(a))), 1)
    else if a == "--results" && |args| > 1 then (Flag(args[..2], SetResults(args[1])), 2)
    else if d == Ollama && a == "--model" && |args| > 1 then (Flag(args[..2], SetModel(args[1])), 2)
    else (Word(a), 1)
  }

  /** The command line read into items, front to back. */
  function Lex(d: Dialect, args: seq<string>): seq<Item>
    decreases |args|
  {
    if args == [] then []
    else
      var h := Head(d, args);
      [h.0] + Lex(d, args[h.1..])
  }

  /** The settings after one item, `None` when `int()` refuses a results value. */
  function Effected(it: Item, s: Settings): (r: Option<Settings>)
    ensures r.None? <==> IsResultsFlag(it) && ParseInt(it.effect.literal).None?
  {
    match it
    case Word(_) => Some(s)
    case Flag(_, ShowContext) => Some(s.(showContext := true))
    case Flag(_, SetModel(m)) => Some(s.(model := m))
    case Flag(_, SetResults(lit)) =>
      match ParseInt(lit)
      case None => None
      case Some(n) => Some(s.(numResults := n))
  }

  /** The words an item adds to the query. */
  function WordOf(it: Item): seq<string> {
    if it.Word? then [it.w] else []
  }

  /** The items' effects applied in order to `s`, the words collected after `words`;
      the first results value `int()` refuses ends it. */
  function Apply(items: seq<Item>, s: Settings, words: seq<string>): Scan
    decreases |items|
  {
    if items == [] then Scanned(s, words)
    else
      match Effected(items[0], s)
      case None => BadNumber(items[0].effect.literal)
      case Some(s') => Apply(items[1..], s', words + WordOf(items[0]))
  }

  function Flatten(items: seq<Item>): seq<string>
    decreases |items|
  {
    if items == [] then [] else Tokens(items[0]) + Flatten(items[1..])
  }

  function WordsOf(items: seq<Item>): seq<string>
    decreases |items|
  {
    if items == [] then []
    else WordOf(items[0]) + WordsOf(items[1..])
  }

  predicate IsResultsFlag(it: Item) {
    it.Flag? && it.effect.SetResults?
  }

  predicate IsModelFlag(it: Item) {
    it.Flag? && it.effect.SetModel?
  }

  predicate IsShowFlag(it: Item) {
    it.Flag? && it.effect.ShowContext?
  }

  /** One turn of the loop reads the first item of what is left. */
  lemma ScanStep(d: Dialect, args: seq<string>, i: nat, s: Settings, words: seq<string>)
    requires i < |args|
    ensures TakesHead(d, args, i, s, words)
  {
    var a := args[i];
    if a == "--show-context" {
      StepShow(d, args, i, s, words);
    } else if StartsWith(a, "--results=") {
      StepResultsJoined(d, args, i, s, words);
    } else if d == Ollama && StartsWith(a, "--model=") {
      StepModelJoined(args, i, s, words);
    } else if a == "--results" && i + 1 < |args| {
      StepResults(d, args, i, s, words);
    } else if d == Ollama && a == "--model" && i + 1 < |args| {
      StepModel(args, i, s, words);
    } else {
      StepWord(d, args, i, s, words);
    }
  }

  /** The loop's turn at `i` does what the reference does with the first item of
      `args[i..]`. */
  predicate TakesHead(d: Dialect, args: seq<string>, i: nat, s: Settings, words: seq<string>)
    requires i < |args|
  {
    var h := Head(d, args[i..]);
    ScanFrom(d, args, i, s, words) ==
      match Effected(h.0, s)
      case None => BadNumber(h.0.effect.literal)
      case Some(s') => ScanFrom(d, args, i + h.1, s', words + WordOf(h.0))
  }

  lemma StepShow(d: Dialect, args: seq<string>, i: nat, s: Settings, words: seq<string>)
    requires i < |args| && args[i] == "--show-context"
    ensures TakesHead(d, args, i, s, words)
  {
    var rest := args[i..];
    assert rest[0] == args[i];
    assert StartsWith(args[i], "--");
    ScanShowTurn(d, args, i, s, words);
    assert Head(d, rest) == (Flag([args[i]], ShowContext), 1);
    assert words + [] == words;
  }

  lemma StepResultsJoined(d: Dialect, args: seq<string>, i: nat, s: Settings, words: seq<string>)
    requires i < |args| && args[i] != "--show-context" && StartsWith(args[i], "--results=")
    ensures TakesHead(d, args, i, s, words)
  {
    var a := args[i];
    var rest := args[i..];
    assert rest[0] == a;
    StartsWithTrans(a, "--results=", "--");
    ScanResultsJoinedTurn(d, args, i, s, words);
    assert Head(d, rest) == (Flag([a], SetResults(Segment(a))), 1);
    assert words + [] == words;
  }

  lemma StepModelJoined(args: seq<string>, i: nat, s: Settings, words: seq<string>)
    requires i < |args| && args[i] != "--show-context" && !StartsWith(args[i], "--results=")
    requires StartsWith(args[i], "--model=")
    ensures TakesHead(Ollama, args, i, s, words)
  {
    var a := args[i];
    var rest := args[i..];
    assert rest[0] == a;
    StartsWithTrans(a, "--model=", "--");
    ScanModelJoinedTurn(args, i, s, words);
    assert Head(Ollama, rest) == (Flag([a], SetModel(Segment(a))), 1);
    assert words + [] == words;
  }

  lemma StepResults(d: Dialect, args: seq<string>, i: nat, s: Settings, words: seq<string>)
    requires i + 1 < |args| && args[i] != "--show-context" && !StartsWith(args[i], "--results=")
    requires !(d == Ollama && StartsWith(args[i], "--model=")) && args[i] == "--results"
    ensures TakesHead(d, args, i, s, words)
  {
    var rest := args[i..];
    assert rest[0] == args[i] && rest[1] == args[i + 1] && |rest| > 1;
    assert StartsWith(args[i], "--");
    ScanResultsTurn(d, args, i, s, words);
    assert Head(d, rest) == (Flag(rest[..2], SetResults(args[i + 1])), 2);
    assert words + [] == words;
  }

  lemma StepModel(args: seq<string>, i: nat, s: Settings, words: seq<string>)
    requires i + 1 < |args| && args[i] != "--show-context" && !StartsWith(args[i], "--results=")
    requires !StartsWith(args[i], "--model=") && args[i] == "--model"
    ensures TakesHead(Ollama, args, i, s, words)
  {
    var rest := args[i..];
    assert rest[0] == args[i] && rest[1] == args[i + 1] && |rest| > 1;
    assert StartsWith(args[i], "--");
    ScanModelTurn(args, i, s, words);
    assert Head(Ollama, rest) == (Flag(rest[..2], SetModel(args[i + 1])), 2);
    assert words + [] == words;
  }

  lemma StepWord(d: Dialect, args: seq<string>, i: nat, s: Settings, words: seq<string>)
    requires i < |args| && args[i] != "--show-context" && !StartsWith(args[i], "--results=")
    requires !(d == Ollama && StartsWith(args[i], "--model="))
    requires !(args[i] == "--results" && i + 1 < |args|)
    requires !(d == Ollama && args[i] == "--model" && i + 1 < |args|)
    ensures TakesHead(d, args, i, s, words)
  {
    var rest := args[i..];
    assert rest[0] == args[i] && (|rest| > 1 <==> i + 1 < |args|);
    ScanWordTurn(d, args, i, s, words);
    assert Head(d, rest) == (Word(args[i]), 1);
  }

  /** The loop and the reference agree from every position. */
  lemma {:induction false} ScanIsApplyLex(d: Dialect, args: seq<string>, i: nat, s: Settings, words: seq<string>)
    requires i <= |args|
    ensures ScanFrom(d, args, i, s, words) == Apply(Lex(d, args[i..]), s, words)
    decreases |args| - i
  {
    if i < |args| {
      var rest := args[i..];
      var h := Head(d, rest);
      var it, n := h.0, h.1;
      ScanStep(d, args, i, s, words);
      DropDrop(args, i, n);
      var tail := Lex(d, args[i + n..]);
      assert Lex(d, rest) == [it] + tail;
      ApplyCons(it, tail, s, words);
      var e := Effected(it, s);
      if e.Some? {
        assert ScanFrom(d, args, i, s, words) == ScanFrom(d, args, i + n, e.value, words + WordOf(it));
        assert Apply(Lex(d, rest), s, words) == Apply(tail, e.value, words + WordOf(it));
        ScanIsApplyLex(d, args, i + n, e.value, words + WordOf(it));
      } else {
        assert ScanFrom(d, args, i, s, words) == BadNumber(it.effect.literal);
        assert Apply(Lex(d, rest), s, words) == BadNumber(it.effect.literal);
      }
    } else {
      assert args[i..] == [];
    }
  }

  /** The reference applies the first item, then the rest. */
  lemma ApplyCons(it: Item, tail: seq<Item>, s: Settings, words: seq<string>)
    ensures Apply([it] + tail, s, words) ==
      match Effected(it, s)
      case None => BadNumber(it.effect.literal)
      case Some(s') => Apply(tail, s', words + WordOf(it))
  {
    var items := [it] + tail;
    assert items[0] == it && items[1..] == tail;
  }

  /** Reading into items loses, adds and reorders no token. */
  lemma {:induction false} LexCovers(d: Dialect, args: seq<string>)
    ensures Flatten(Lex(d, args)) == args
    decreases |args|
  {
    if args != [] {
      var h := Head(d, args);
      var tail := Lex(d, args[h.1..]);
      assert Lex(d, args) == [h.0] + tail;
      LexCovers(d, args[h.1..]);
      FlattenCons(h.0, tail);
      SplitAtTake(args, h.1);
    }
  }

  lemma DropDrop(a: seq<string>, i: nat, n: nat)
    requires i + n <= |a|
    ensures a[i..][n..] == a[i + n..]
  {
  }

  lemma SplitAtTake(a: seq<string>, n: nat)
    requires n <= |a|
    ensures a == a[..n] + a[n..]
  {
  }

  lemma FlattenCons(it: Item, tail: seq<Item>)
    ensures Flatten([it] + tail) == Tokens(it) + Flatten(tail)
  {
    var items := [it] + tail;
    assert items[0] == it && items[1..] == tail;
  }

  /** A successful application collects exactly the word items, in order. */
  lemma {:induction false} ApplyWords(items: seq<Item>, s: Settings, words: seq<string>)
    requires Apply(items, s, words).Scanned?
    ensures Apply(items, s, words).words == words + WordsOf(items)
    decreases |items|
  {
    if items != [] {
      ApplyWords(items[1..], Effected(items[0], s).value, words + WordOf(items[0]));
      assert words + WordOf(items[0]) + WordsOf(items[1..]) == words + WordsOf(items);
    } else {
      assert words + [] == words;
    }
  }

  /** A position of a results value `int()` refuses. */
  predicate Refuses(items: seq<Item>, k: int) {
    0 <= k < |items| && IsResultsFlag(items[k]) && ParseInt(items[k].effect.literal).None?
  }

  /** An application fails exactly when some results value is not an integer literal. */
  lemma {:induction false} ApplyFails(items: seq<Item>, s: Settings, words: seq<string>)
    ensures Apply(items, s, words).BadNumber? <==> exists k :: Refuses(items, k)
    decreases |items|
  {
    if items != [] {
      var rest := items[1..];
      if Effected(items[0], s).None? {
        assert Refuses(items, 0);
      } else {
        ApplyFails(rest, Effected(items[0], s).value, words + WordOf(items[0]));
        assert !Refuses(items, 0);
        if exists k :: Refuses(items, k) {
          var k :| Refuses(items, k);
          assert rest[k - 1] == items[k];
          assert Refuses(rest, k - 1);
        }
        if exists k :: Refuses(rest, k) {
          var k :| Refuses(rest, k);
          assert rest[k] == items[k + 1];
          assert Refuses(items, k + 1);
        }
      }
    }
  }

  /** After a successful application the context is shown exactly when it was on
      before or some `--show-context` flag was given. */
  lemma {:induction false} ApplyShow(items: seq<Item>, s: Settings, words: seq<string>)
    requires Apply(items, s, words).Scanned?
    ensures Apply(items, s, words).settings.showContext <==>
      s.showContext || exists k :: 0 <= k < |items| && IsShowFlag(items[k])
    decreases |items|
  {
    if items != [] {
      var rest := items[1..];
      var s' := Effected(items[0], s).value;
      ApplyShow(rest, s', words + WordOf(items[0]));
      assert s'.showContext <==> s.showContext || IsShowFlag(items[0]);
      assert forall k :: 0 <= k < |rest| ==> rest[k] == items[k + 1];
      if exists k :: 0 <= k < |items| && IsShowFlag(items[k]) {
        var k :| 0 <= k < |items| && IsShowFlag(items[k]);
        if k > 0 {
          assert IsShowFlag(rest[k - 1]);
        }
      }
    }
  }

  /** The last results flag wins; without one the number of results is unchanged. */
  lemma {:induction false} ApplyLastResults(items: seq<Item>, s: Settings, words: seq<string>)
    requires Apply(items, s, words).Scanned?
    ensures (forall k :: 0 <= k < |items| ==> !IsResultsFlag(items[k])) ==>
      Apply(items, s, words).settings.numResults == s.numResults
    ensures forall k :: 0 <= k < |items| && IsResultsFlag(items[k]) ==>
      (forall j :: k < j < |items| ==> !IsResultsFlag(items[j])) ==>
      ParseInt(items[k].effect.literal) == Some(Apply(items, s, words).settings.numResults)
    decreases |items|
  {
    if items != [] {
      var rest := items[1..];
      var r := Apply(items, s, words);
      var s' := Effected(items[0], s).value;
      assert forall j :: 0 <= j < |rest| ==> rest[j] == items[j + 1];
      ApplyLastResults(rest, s', words + WordOf(items[0]));
      assert !IsResultsFlag(items[0]) ==> s'.numResults == s.numResults;
      assert IsResultsFlag(items[0]) ==> ParseInt(items[0].effect.literal) == Some(s'.numResults);
      forall k | 0 <= k < |items| && IsResultsFlag(items[k]) && (forall j :: k < j < |items| ==> !IsResultsFlag(items[j]))
        ensures ParseInt(items[k].effect.literal) == Some(r.settings.numResults)
      {
        if k > 0 {
          assert rest[k - 1] == items[k];
          assert forall j :: k - 1 < j < |rest| ==> !IsResultsFlag(rest[j]);
        } else {
          assert forall j :: 0 <= j < |rest| ==> !IsResultsFlag(rest[j]);
        }
      }
    }
  }

  /** The last model flag wins; without one the model is unchanged. */
  lemma {:induction false} ApplyLastModel(items: seq<Item>, s: Settings, words: seq<string>)
    requires Apply(items, s, words).Scanned?
    ensures (forall k :: 0 <= k < |items| ==> !IsModelFlag(items[k])) ==>
      Apply(items, s, words).settings.model == s.model
    ensures forall k :: 0 <= k < |items| && IsModelFlag(items[k]) ==>
      (forall j :: k < j < |items| ==> !IsModelFlag(items[j])) ==>
      items[k].effect.name == Apply(items, s, words).settings.model
    decreases |items|
  {
    if items != [] {
      var rest := items[1..];
      var r := Apply(items, s, words);
      var s' := Effected(items[0], s).value;
      assert forall j :: 0 <= j < |rest| ==> rest[j] == items[j + 1];
      ApplyLastModel(rest, s', words + WordOf(items[0]));
      assert !IsModelFlag(items[0]) ==> s'.model == s.model;
      assert IsModelFlag(items[0]) ==> items[0].effect.name == s'.model;
      forall k | 0 <= k < |items| && IsModelFlag(items[k]) && (forall j :: k < j < |items| ==> !IsModelFlag(items[j]))
        ensures items[k].effect.name == r.settings.model
      {
        if k > 0 {
          assert rest[k - 1] == items[k];
          assert forall j :: k - 1 < j < |rest| ==> !IsModelFlag(rest[j]);
        } else {
          assert forall j :: 0 <= j < |rest| ==> !IsModelFlag(rest[j]);
        }
      }
    }
  }

  /** The Gemini shell reads no model flag: `--model` tokens are query words there. */
  lemma {:induction false} GeminiLexHasNoModel(args: seq<string>)
    ensures forall k :: 0 <= k < |Lex(Gemini, args)| ==> !IsModelFlag(Lex(Gemini, args)[k])
    decreases |args|
  {
    if args != [] {
      var h := Head(Gemini, args);
      var it, n := h.0, h.1;
      var items := Lex(Gemini, args);
      GeminiLexHasNoModel(args[n..]);
      assert items[0] == it && !IsModelFlag(it);
      assert forall k :: 1 <= k < |items| ==> items[k] == Lex(Gemini, args[n..])[k - 1];
    }
  }

  /** What a whole `do_search` token loop produces, in terms of the reference: it fails
      exactly when a results value is not an integer literal; otherwise its words are
      the word items, the context is shown when asked for, and the Gemini shell keeps
      its model. */
  lemma ScanSummary(d: Dialect, args: seq<string>, s: Settings)
    ensures ScanFrom(d, args, 0, s, []).BadNumber? <==> exists k :: Refuses(Lex(d, args), k)
    ensures ScanFrom(d, args, 0, s, []).Scanned? ==>
      && ScanFrom(d, args, 0, s, []).words == WordsOf(Lex(d, args))
      && (ScanFrom(d, args, 0, s, []).settings.showContext <==>
            s.showContext || exists k :: 0 <= k < |Lex(d, args)| && IsShowFlag(Lex(d, args)[k]))
      && (d == Gemini ==> ScanFrom(d, args, 0, s, []).settings.model == s.model)
  {
    assert args[0..] == args;
    ScanIsApplyLex(d, args, 0, s, []);
    var items := Lex(d, args);
    ApplyFails(items, s, []);
    if Apply(items, s, []).Scanned? {
      ApplyWords(items, s, []);
      assert [] + WordsOf(items) == WordsOf(items);
      ApplyShow(items, s, []);
      if d == Gemini {
        GeminiLexHasNoModel(args);
        ApplyLastModel(items, s, []);
      }
    }
  }

  /** A command line without `--` tokens is all query: nothing changes. */
  lemma {:induction false} ScanPlain(d: Dialect, args: seq<string>, i: nat, s: Settings, words: seq<string>)
    requires i <= |args|
    requires forall k :: 0 <= k < |args| ==> !StartsWith(args[k], "--")
    ensures ScanFrom(d, args, i, s, words) == Scanned(s, words + args[i..])
    decreases |args| - i
  {
    if i < |args| {
      ScanPlain(d, args, i + 1, s, words + [args[i]]);
      assert words + [args[i]] + args[i + 1..] == words + args[i..];
    } else {
      assert words + args[i..] == words;
    }
  }

  lemma DiffersAt(a: string, p: string, k: nat)
    requires k < |p| && (k >= |a| || a[k] != p[k])
    ensures !StartsWith(a, p)
  {
    if |p| <= |a| {
      assert a[..|p|][k] == a[k];
    }
  }

  /** A value flag that the loop reaches as the last token (it is not itself the
      value of the flag before it) has nothing to read, so it is a query word. */
  lemma TrailingFlagIsWord(d: Dialect, args: seq<string>, s: Settings, words: seq<string>)
    requires |args| > 0 && (args[|args| - 1] == "--results" || args[|args| - 1] == "--model")
    ensures ScanFrom(d, args, |args| - 1, s, words) == Scanned(s, words + [args[|args| - 1]])
  {
    var i, flag := |args| - 1, args[|args| - 1];
    DiffersAt(flag, "--results=", if flag == "--results" then 9 else 2);
    DiffersAt(flag, "--model=", if flag == "--results" then 2 else 7);
    ScanWordTurn(d, args, i, s, words);
  }

  /** The token after `--model` is its value even when it is a flag itself. */
  lemma ModelTakesFlagAsValue(s: Settings)
    ensures ScanFrom(Ollama, ["--model", "--results"], 0, s, []) == Scanned(s.(model := "--results"), [])
  {
    var args := ["--model", "--results"];
    DiffersAt("--model", "--results=", 2);
    DiffersAt("--model", "--model=", 7);
    assert args[0] == "--model" && args[1] == "--results";
    ScanModelTurn(args, 0, s, []);
  }

  /** The value of an `=` flag is the text between its first and its second `=`. */
  lemma {:induction false} SegmentOfFlag(name: string, x: string, r: string)
    requires '=' !in name && '=' !in x
    ensures Segment(name + "=" + x) == x
    ensures Segment(name + "=" + x + "=" + r) == x
  {
    SegmentBetween(name, x, []);
    assert name + "=" + x + [] == name + "=" + x;
    SegmentBetween(name, x, "=" + r);
    assert name + "=" + x + ("=" + r) == name + "=" + x + "=" + r;
  }

  /** The segment of `name=x` followed by nothing or by another `=`. */
  lemma {:induction false} SegmentBetween(name: string, x: string, t: string)
    requires '=' !in name && '=' !in x
    requires t == [] || t[0] == '='
    ensures '=' in name + "=" + x + t
    ensures Segment(name + "=" + x + t) == x
  {
    var tok := name + "=" + x + t;
    assert tok[|name|] == '=';
    assert tok == name + ("=" + (x + t));
    SplitAfterPlain(name, "=" + (x + t), '=');
    assert ("=" + (x + t))[0] == '=' && ("=" + (x + t))[1..] == x + t;
    assert Split("=" + (x + t), '=') == [[]] + Split(x + t, '=');
    SplitAfterPlain(x, t, '=');
    assert Split(t, '=')[0] == [];
    assert x + [] == x;
  }

  /** In `--results=5=9` only `5` is the value: whatever follows a second `=` is
      ignored, and a value `int()` refuses ends the search. */
  lemma ResultsValueStopsAtEquals(d: Dialect, s: Settings, x: string, r: string)
    requires '=' !in x
    ensures ScanFrom(d, ["--results=" + x + "=" + r], 0, s, []) ==
      match ParseInt(x)
      case None => BadNumber(x)
      case Some(n) => Scanned(s.(numResults := n), [])
  {
    var tok := "--results=" + x + "=" + r;
    assert tok == "--results" + "=" + x + "=" + r;
    assert '=' !in "--results";
    SegmentOfFlag("--results", x, r);
    assert tok[..|"--results="|] == "--results=";
    assert StartsWith(tok, "--results=");
    StartsWithTrans(tok, "--results=", "--");
    assert tok != "--show-context" by {
      assert "--show-context"[2] != tok[2];
    }
  }

  /** In the Gemini shell a `--model=` token is a query word, wherever the loop
      meets it. */
  lemma GeminiModelFlagIsWord(args: seq<string>, i: nat, s: Settings, words: seq<string>)
    requires i < |args| && StartsWith(args[i], "--model=")
    ensures ScanFrom(Gemini, args, i, s, words) == ScanFrom(Gemini, args, i + 1, s, words + [args[i]])
  {
    var a := args[i];
    assert a[2] == 'm' by {
      assert a[..8][2] == a[2];
    }
    StartsWithTrans(a, "--model=", "--");
    DiffersAt(a, "--results=", 2);
    ScanWordTurn(Gemini, args, i, s, words);
  }

  /** A separate results value that is not a number ends the search, wherever the
      loop meets it. */
  lemma BadResultsValue(d: Dialect, args: seq<string>, i: nat, s: Settings, words: seq<string>)
    requires i + 1 < |args| && args[i] == "--results"
    requires ParseInt(args[i + 1]).None?
    ensures ScanFrom(d, args, i, s, words) == BadNumber(args[i + 1])
  {
    DiffersAt("--results", "--results=", 9);
    DiffersAt("--results", "--model=", 2);
    assert StartsWith("--results", "--");
    ScanResultsTurn(d, args, i, s, words);
  }

  // ---- the search command -------------------------------------------------------

  datatype Request = Request(query: string, settings: Settings)

  /** What `do_search` decides before any backend is called: it asks for a query, it
      fails on a results value `int()` refuses, or it runs a search. `tokens` is what
      `shlex.split(arg)` gave, `None` when it raised. */
  datatype Decision = NoQuery | Refused(literal: string) | Run(request: Request)

  function DecideSearch(d: Dialect, arg: string, tokens: Option<seq<string>>, s: Settings): Decision {
    if IsBlank(arg) then NoQuery
    else
      match tokens
      case None => Run(Request(arg, s))
      case Some(args) =>
        match ScanFrom(d, args, 0, s, [])
        case BadNumber(lit) => Refused(lit)
        case Scanned(s', words) =>
          var query := Join(" ", words);
          if query == [] then NoQuery else Run(Request(query, s'))
  }

  /** A blank argument never runs a search; a command line `shlex` cannot read is
      taken whole as the query with the settings as they are; otherwise every search
      that runs has a non-empty query made of the query words. */
  lemma DecideSearchCases(d: Dialect, arg: string, tokens: Option<seq<string>>, s: Settings)
    ensures IsBlank(arg) ==> DecideSearch(d, arg, tokens, s) == NoQuery
    ensures !IsBlank(arg) && tokens.None? ==> DecideSearch(d, arg, tokens, s) == Run(Request(arg, s))
    ensures DecideSearch(d, arg, tokens, s).Run? ==> DecideSearch(d, arg, tokens, s).request.query != []
    ensures !IsBlank(arg) && tokens.Some? && ScanFrom(d, tokens.value, 0, s, []).Scanned? ==>
      var words := ScanFrom(d, tokens.value, 0, s, []).words;
      (DecideSearch(d, arg, tokens, s).NoQuery? <==> |words| <= 1 && forall k :: 0 <= k < |words| ==> words[k] == [])
  {
    if !IsBlank(arg) && tokens.None? {
      assert arg != [];
    }
    if !IsBlank(arg) && tokens.Some? && ScanFrom(d, tokens.value, 0, s, []).Scanned? {
      JoinEmpty(" ", ScanFrom(d, tokens.value, 0, s, []).words);
    }
  }

  /** What the shell reports for one `search`: the prompt for a query, the failure of
      `int()`, or the search that ran, the context it printed (only when asked) and
      the answer. */
  datatype SearchOutcome =
    | Prompted
    | Failed(literal: string)
    | Answered(request: Request, shown: Option<string>, reply: Reply)

  // ---- the config command -------------------------------------------------------

  /** What `do_config` does: shows the settings, updates one (an unknown parameter
      changes nothing but is still reported as updated), rejects the command, or
      raises out of the shell (`shlex` or `int()` failed; neither is caught there). */
  datatype ConfigOutcome =
    | Shown(current: Settings)
    | Updated(param: string, value: string, settings: Settings)
    | InvalidConfig
    | Unreadable
    | ConfigBadNumber(literal: string)

  function Config(d: Dialect, tokens: Option<seq<string>>, s: Settings): ConfigOutcome {
    match tokens
    case None => Unreadable
    case Some(args) =>
      if args == [] || args[0] == "show" then Shown(s)
      else if args[0] == "set" && |args| >= 3 then
        var param := args[1];
        var value := args[2];
        if d == Ollama && param == "model" then Updated(param, value, s.(model := value))
        else if param == "results" then
          match ParseInt(value)
          case None => ConfigBadNumber(value)
          case Some(n) => Updated(param, value, s.(numResults := n))
        else if param == "show_context" then Updated(param, value, s.(showContext := LowerIsTrue(value)))
        else Updated(param, value, s)
      else InvalidConfig
  }

  /** The settings after a config command: only an update changes them. */
  function SettingsAfter(o: ConfigOutcome, s: Settings): Settings {
    if o.Updated? then o.settings else s
  }

  /** `config set` changes at most the one named setting, ignores extra arguments,
      and leaves everything as it is for a parameter it does not know (in the Gemini
      shell that includes `model`). */
  lemma ConfigSetChanges(d: Dialect, param: string, value: string, extra: seq<string>, s: Settings)
    ensures var o := Config(d, Some(["set", param, value] + extra), s);
      && (param == "results" ==>
            (ParseInt(value).None? <==> o == ConfigBadNumber(value)) &&
            (ParseInt(value).Some? ==> o == Updated(param, value, s.(numResults := ParseInt(value).value))))
      && (param == "show_context" ==> o == Updated(param, value, s.(showContext := LowerIsTrue(value))))
      && (param == "model" ==> o == Updated(param, value, if d == Ollama then s.(model := value) else s))
      && (param !in {"results", "show_context", "model"} ==> o == Updated(param, value, s))
      && (o.Updated? ==> o.param == param && o.value == value)
  {
    var args := ["set", param, value] + extra;
    assert args[0] == "set" && args[1] == param && args[2] == value;
  }

  /** `config` and `config show ...` change nothing; `config set` with fewer than two
      arguments and any other sub-command are rejected. */
  lemma ConfigOtherCommands(d: Dialect, args: seq<string>, s: Settings)
    ensures args == [] || args[0] == "show" ==> Config(d, Some(args), s) == Shown(s)
    ensures args != [] && args[0] != "show" && (args[0] != "set" || |args| < 3) ==>
      Config(d, Some(args), s) == InvalidConfig
    ensures SettingsAfter(Config(d, Some(args), s), s) != s ==> Config(d, Some(args), s).Updated?
  {
  }

  /** Setting the number of results to a printed integer stores that integer. */
  lemma ConfigResults(d: Dialect, n: int, s: Settings)
    ensures Config(d, Some(["set", "results", IntToString(n)]), s) ==
      Updated("results", IntToString(n), s.(numResults := n))
  {
    IntRoundTrip(n);
    ConfigSetChanges(d, "results", IntToString(n), [], s);
    assert ["set", "results", IntToString(n)] + [] == ["set", "results", IntToString(n)];
  }

  /** A search without flags after `config set results n` runs with `n` results. */
  lemma ConfigResultsThenSearch(d: Dialect, n: int, arg: string, args: seq<string>, s: Settings)
    requires !IsBlank(arg)
    requires forall k :: 0 <= k < |args| ==> !StartsWith(args[k], "--")
    requires Join(" ", args) != []
    ensures DecideSearch(d, arg, Some(args), SettingsAfter(Config(d, Some(["set", "results", IntToString(n)]), s), s)) ==
      Run(Request(Join(" ", args), s.(numResults := n)))
  {
    ConfigResults(d, n, s);
    ScanPlain(d, args, 0, s.(numResults := n), []);
    WholeTail(args);
  }

  lemma WholeTail(a: seq<string>)
    ensures [] + a[0..] == a
  {
  }
}
