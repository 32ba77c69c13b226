/** `extract_content`: the text of a fetched page, reduced to its primary region,
    cleaned line by line and cut to a fixed number of characters. */
module ContentExtractor {
  import opened PyText

  /** The hard character cut applied to the cleaned text. */
  const MaxContentLength: nat := 2000

  /** A parsed page after its script, style, nav, header, footer, iframe and noscript
      elements are gone, seen through the lookups the extractor makes: for each
      candidate region (`main`, `article`, a `div` whose class is one of `content`,
      `main`, `article`) the text `get_text(separator='\n', strip=True)` gives for the
      first such element, `None` when there is none, and the same text for the whole
      document. */
  datatype Page = Page(main: Option<string>, article: Option<string>, contentDiv: Option<string>, document: string)

  /** Fetching a page: any failure (transport, timeout, non-success status, parsing),
      or the parsed page. */
  datatype PageFetch = FetchFailed(reason: string) | Fetched(page: Page)

  /** The first candidate that is present, or `fallback` when none is: Python's
      `a or b or c` over lookups that return an element or `None`. */
  function FirstPresent(candidates: seq<Option<string>>, fallback: string): (r: string)
    ensures (forall k :: 0 <= k < |candidates| ==> candidates[k].None?) ==> r == fallback
    ensures forall k :: 0 <= k < |candidates| && candidates[k].Some? ==>
      (forall j :: 0 <= j < k ==> candidates[j].None?) ==> r == candidates[k].value
  {
    if candidates == [] then fallback
    else if candidates[0].Some? then candidates[0].value
    else FirstPresent(candidates[1..], fallback)
  }

  /** The text of the region the extractor reads: `main`, else `article`, else the
      content `div`, else the whole document. */
  function RegionText(p: Page): string {
    FirstPresent([p.main, p.article, p.contentDiv], p.document)
  }

  /** The region choice, case by case. */
  lemma RegionOrder(p: Page)
    ensures p.main.Some? ==> RegionText(p) == p.main.value
    ensures p.main.None? && p.article.Some? ==> RegionText(p) == p.article.value
    ensures p.main.None? && p.article.None? && p.contentDiv.Some? ==> RegionText(p) == p.contentDiv.value
    ensures p.main.None? && p.article.None? && p.contentDiv.None? ==> RegionText(p) == p.document
  {
    var cs := [p.main, p.article, p.contentDiv];
    assert cs[0] == p.main && cs[1] == p.article && cs[2] == p.contentDiv;
  }

  /** `[line.strip() for line in lines if line.strip()]` */
  function CleanLines(lines: seq<string>): (r: seq<string>)
    ensures |r| <= |lines|
    ensures forall k :: 0 <= k < |r| ==> r[k] != [] && Strip(r[k]) == r[k]
  {
    if lines == [] then []
    else
      var l := Strip(lines[0]);
      var rest := CleanLines(lines[1..]);
      StripIdempotent(lines[0]);
      if l != [] then [l] + rest else rest
  }

  /** Cleaning never brings in a newline that no input line had. */
  lemma {:induction false} CleanLinesNoNewline(lines: seq<string>)
    requires forall k :: 0 <= k < |lines| ==> '\n' !in lines[k]
    ensures forall k :: 0 <= k < |CleanLines(lines)| ==> '\n' !in CleanLines(lines)[k]
  {
    if lines != [] {
      StripKeepsOut(lines[0], '\n');
      CleanLinesNoNewline(lines[1..]);
    }
  }

  /** Lines that are already clean stay as they are. */
  lemma {:induction false} CleanLinesOfClean(lines: seq<string>)
    requires forall k :: 0 <= k < |lines| ==> lines[k] != [] && Strip(lines[k]) == lines[k]
    ensures CleanLines(lines) == lines
  {
    if lines != [] {
      var rest := lines[1..];
      assert forall k :: 0 <= k < |rest| ==> rest[k] == lines[k + 1];
      CleanLinesOfClean(rest);
      assert Strip(lines[0]) == lines[0] != [];
      assert CleanLines(lines) == [lines[0]] + CleanLines(rest);
      assert lines == [lines[0]] + rest;
    }
  }

  /** A cleaned line set is empty exactly when every input line is blank. */
  lemma {:induction false} CleanLinesEmpty(lines: seq<string>)
    ensures CleanLines(lines) == [] <==> AllBlank(lines)
  {
    if lines != [] {
      var rest := lines[1..];
      CleanLinesEmpty(rest);
      assert forall k :: 0 <= k < |rest| ==> rest[k] == lines[k + 1];
      if Strip(lines[0]) == [] {
        assert CleanLines(lines) == CleanLines(rest);
        assert AllBlank(lines) <==> AllBlank(rest) by {
          if AllBlank(rest) {
            forall k | 0 <= k < |lines| ensures IsBlank(lines[k]) {
              if k > 0 { assert lines[k] == rest[k - 1]; }
            }
          }
        }
      } else {
        assert CleanLines(lines) != [];
        assert !IsBlank(lines[0]);
      }
    }
  }

  /** The normalisation: split on newlines, strip every line, drop the blank ones,
      and rejoin with newlines. */
  function Normalise(text: string): string {
    Join("\n", CleanLines(Split(text, '\n')))
  }

  /** The lines of normalised text are exactly the cleaned lines: each non-empty and
      equal to its own strip (the empty text has no lines at all). */
  lemma NormalisedLines(text: string)
    ensures Normalise(text) == [] || Split(Normalise(text), '\n') == CleanLines(Split(text, '\n'))
    ensures Normalise(text) == [] ||
      forall k :: 0 <= k < |Split(Normalise(text), '\n')| ==>
        Split(Normalise(text), '\n')[k] != [] && Strip(Split(Normalise(text), '\n')[k]) == Split(Normalise(text), '\n')[k]
  {
    var lines := CleanLines(Split(text, '\n'));
    if lines != [] {
      CleanLinesNoNewline(Split(text, '\n'));
      SplitJoin(lines, '\n');
    }
  }

  /** Normalising twice is normalising once. */
  lemma NormaliseIdempotent(text: string)
    ensures Normalise(Normalise(text)) == Normalise(text)
  {
    var lines := CleanLines(Split(text, '\n'));
    if lines == [] {
      assert Split([], '\n') == [[]];
      assert CleanLines([[]]) == [];
    } else {
      NormalisedLines(text);
      CleanLinesOfClean(lines);
    }
  }

  /** Normalised text is empty exactly when the text has no non-blank line. */
  lemma NormaliseEmpty(text: string)
    ensures Normalise(text) == [] <==> AllBlank(Split(text, '\n'))
  {
    var parts := Split(text, '\n');
    var lines := CleanLines(parts);
    CleanLinesEmpty(parts);
    if lines != [] {
      JoinEmpty("\n", lines);
      assert lines[0] != [];
    }
  }

  predicate AllBlank(lines: seq<string>) {
    forall k :: 0 <= k < |lines| ==> IsBlank(lines[k])
  }

  /** `extract_content` after the fetch: the empty string for any failure, otherwise
      the normalised region text cut to at most `MaxContentLength` characters; it is
      a prefix of the normalised text, and all of it when that text is short enough. */
  function ExtractContent(fetch: PageFetch): (r: string)
    ensures |r| <= MaxContentLength
    ensures fetch.FetchFailed? ==> r == []
    ensures fetch.Fetched? ==> r <= Normalise(RegionText(fetch.page))
    ensures fetch.Fetched? && |Normalise(RegionText(fetch.page))| <= MaxContentLength ==>
      r == Normalise(RegionText(fetch.page))
    ensures fetch.Fetched? && |Normalise(RegionText(fetch.page))| >= MaxContentLength ==>
      |r| == MaxContentLength
  {
    match fetch
    case FetchFailed(_) => []
    case Fetched(page) => Take(Normalise(RegionText(page)), MaxContentLength)
  }
}
