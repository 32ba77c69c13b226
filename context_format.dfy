/** The text layouts both wrappers share: context blocks, the no-context advisory and
    the opening of the prompt. A block is a few `prefix value` header lines, an optional
    content section and a separator line; `DecodeBlock` reads one back, which shows the
    layout loses nothing when the header values hold no newline. */
module ContextFormat {
  import opened PyText

  const SeparatorWidth: nat := 50

  /** `'=' * 50` */
  const Separator: string := Repeat('=', SeparatorWidth)

  /** What the query step answers, without calling any backend, when the context is
      empty or whitespace only. */
  const Advisory: string :=
    "No context was found from web searches. The model will provide a general response without current information."

  /** The opening both prompts share: the context, then the question. */
  function PromptHead(context: string, prompt: string): string {
    "Context from web searches:\n\n" + context + "\n\n" + "Question: " + prompt + "\n\n"
  }

  const AnswerInstruction: string := "Please provide a comprehensive answer based on the context above. "
  const RelevanceInstruction: string :=
    "If the context doesn't contain relevant information, please state that clearly."

  /** One header line: `prefix value` and a newline. */
  function Line(prefix: string, value: string): string {
    prefix + value + "\n"
  }

  /** The header lines for `labels[k]` and `values[k]`, in order. */
  function Header(labels: seq<string>, values: seq<string>): string
    requires |labels| == |values|
  {
    if labels == [] then [] else Line(labels[0], values[0]) + Header(labels[1..], values[1..])
  }

  const ContentLabel: string := "\nContent:\n"

  /** The content section: present only for non-empty content. */
  function ContentSection(content: string): string {
    if content == [] then [] else ContentLabel + content + "\n"
  }

  /** A context block: the header, the content section, the separator and a newline. */
  function Block(header: string, content: string): string {
    header + ContentSection(content) + Separator + "\n"
  }

  // ---- reading a block back --------------------------------------------------

  /** Position of the first `c` in `s`, or `|s|` when there is none. */
  function IndexOf(s: string, c: char): (n: nat)
    ensures n <= |s| && c !in s[..n]
    ensures n < |s| ==> s[n] == c
  {
    if s == [] then 0
    else if s[0] == c then 0
    else
      var n := IndexOf(s[1..], c) + 1;
      assert s[..n] == [s[0]] + s[1..][..n - 1];
      n
  }

  /** Reads `prefix value\n` from the front of `s`: the value and what follows it. */
  function ReadLine(prefix: string, s: string): Option<(string, string)> {
    if StartsWith(s, prefix) then
      var rest := s[|prefix|..];
      var n := IndexOf(rest, '\n');
      if n < |rest| then Some((rest[..n], rest[n + 1..])) else None
    else None
  }

  /** Reads one header line per prefix, in order. */
  function ReadHeader(labels: seq<string>, s: string): Option<(seq<string>, string)> {
    if labels == [] then Some(([], s))
    else
      match ReadLine(labels[0], s)
      case None => None
      case Some((v, rest)) =>
        match ReadHeader(labels[1..], rest)
        case None => None
        case Some((vs, tail)) => Some(([v] + vs, tail))
  }

  /** The content a content section holds, or `None` when `s` is not one. */
  function ReadSection(s: string): Option<string> {
    if s == [] then Some([])
    else if |s| > |ContentLabel| + 1 && s[..|ContentLabel|] == ContentLabel && s[|s| - 1] == '\n' then
      Some(s[|ContentLabel|..|s| - 1])
    else None
  }

  /** Reads a block laid out with the given header labels: its header values and its
      content (empty when the block has no content section). */
  function DecodeBlock(labels: seq<string>, b: string): Option<(seq<string>, string)> {
    var trailer := Separator + "\n";
    if |b| >= |trailer| && b[|b| - |trailer|..] == trailer then
      match ReadHeader(labels, b[..|b| - |trailer|])
      case None => None
      case Some((values, rest)) =>
        match ReadSection(rest)
        case None => None
        case Some(content) => Some((values, content))
    else None
  }

  lemma ReadLineOfLine(prefix: string, v: string, tail: string)
    requires '\n' !in v
    ensures ReadLine(prefix, Line(prefix, v) + tail) == Some((v, tail))
  {
    var s := Line(prefix, v) + tail;
    assert s[..|prefix|] == prefix;
    var rest := s[|prefix|..];
    assert rest == v + ("\n" + tail);
    var n := IndexOf(rest, '\n');
    assert rest[|v|] == '\n';
    assert n == |v|;
  }

  lemma {:induction false} ReadHeaderOfHeader(labels: seq<string>, values: seq<string>, tail: string)
    requires |labels| == |values|
    requires forall k :: 0 <= k < |values| ==> '\n' !in values[k]
    ensures ReadHeader(labels, Header(labels, values) + tail) == Some((values, tail))
  {
    if labels != [] {
      var rest := Header(labels[1..], values[1..]) + tail;
      assert Header(labels, values) + tail == Line(labels[0], values[0]) + rest;
      ReadLineOfLine(labels[0], values[0], rest);
      ReadHeaderOfHeader(labels[1..], values[1..], tail);
      assert [values[0]] + values[1..] == values;
    } else {
      assert Header(labels, values) + tail == tail;
    }
  }

  lemma ReadSectionOfSection(content: string)
    ensures ReadSection(ContentSection(content)) == Some(content)
  {
    if content != [] {
      var s := ContentSection(content);
      assert s[..|ContentLabel|] == ContentLabel;
      assert s[|ContentLabel|..|s| - 1] == content;
    }
  }

  /** Reading a block gives back exactly the header values and the content it was
      built from, as long as no header value holds a newline. In particular a block
      has a content section exactly when its content is non-empty. */
  lemma DecodeBlockRoundTrip(labels: seq<string>, values: seq<string>, content: string)
    requires |labels| == |values|
    requires forall k :: 0 <= k < |values| ==> '\n' !in values[k]
    ensures DecodeBlock(labels, Block(Header(labels, values), content)) == Some((values, content))
  {
    var trailer := Separator + "\n";
    var body := Header(labels, values) + ContentSection(content);
    var b := Block(Header(labels, values), content);
    assert b == body + trailer;
    assert b[|b| - |trailer|..] == trailer;
    assert b[..|b| - |trailer|] == body;
    ReadHeaderOfHeader(labels, values, ContentSection(content));
    ReadSectionOfSection(content);
  }
}
