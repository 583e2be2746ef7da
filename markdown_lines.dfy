/**
 * The line-by-line Markdown display the profile, position and interview screens share:
 * the text is split on `'\n'`, each line becomes one element chosen by its leading
 * marker, and the marker is dropped from the element's text.
 */
module MarkdownLines {
  import opened JsStrings

  /** One drawn element: a heading of a level (`h2`, `h3`, `h4`), a list item, a line
      shown as it is in a `div`, or a paragraph. */
  datatype Block = Heading(level: nat, text: string) | ListItem(text: string) | Verbatim(text: string) | Paragraph(text: string)

  /** `level` hash marks. */
  function Hashes(level: nat): (r: string)
    ensures |r| == level && forall i :: 0 <= i < |r| ==> r[i] == '#'
  {
    if level == 0 then "" else Hashes(level - 1) + "#"
  }

  /** The Markdown line an element is drawn from: the marker the screen strips, then the
      text. */
  function Markup(b: Block): (r: string) {
    match b
    case Heading(level, text) => Hashes(level) + " " + text
    case ListItem(text) => "- " + text
    case Verbatim(text) => text
    case Paragraph(text) => text
  }

  /** A line that starts with a marker is that marker followed by `line.slice(|marker|)`. */
  lemma MarkerThenRest(line: string, marker: string)
    requires StartsWith(line, marker)
    ensures marker + line[|marker|..] == line
  {
    assert line == line[..|marker|] + line[|marker|..];
  }

  /** A heading line read at its level gives the line back. */
  lemma HeadingLineRoundTrip(line: string, level: nat)
    requires StartsWith(line, Hashes(level) + " ")
    ensures Markup(Heading(level, line[level + 1..])) == line
  {
    MarkerThenRest(line, Hashes(level) + " ");
  }

  /** A list line read as an item gives the line back. */
  lemma ListLineRoundTrip(line: string)
    requires StartsWith(line, "- ")
    ensures Markup(ListItem(line[2..])) == line
  {
    MarkerThenRest(line, "- ");
  }

  /** `content.split('\n').map(classify)`: one element per line, in order. */
  function RenderLines(lines: seq<string>, classify: string -> Block): (r: seq<Block>)
    ensures |r| == |lines|
    ensures forall i :: 0 <= i < |lines| ==> r[i] == classify(lines[i])
  {
    seq(|lines|, i requires 0 <= i < |lines| => classify(lines[i]))
  }

  /** The Markdown lines of a list of elements. */
  function Markups(blocks: seq<Block>): (r: seq<string>)
    ensures |r| == |blocks|
    ensures forall i :: 0 <= i < |blocks| ==> r[i] == Markup(blocks[i])
  {
    seq(|blocks|, i requires 0 <= i < |blocks| => Markup(blocks[i]))
  }

  /** When a classifier loses nothing of a line, the drawn elements give back the whole
      text: joining their Markdown lines with `'\n'` is the original content. */
  lemma RenderLosesNothing(content: string, classify: string -> Block)
    requires forall line :: Markup(classify(line)) == line
    ensures Join(Markups(RenderLines(Split(content, '\n'), classify)), '\n') == content
  {
    var lines := Split(content, '\n');
    var back := Markups(RenderLines(lines, classify));
    assert back == lines;
    JoinSplit(content, '\n');
  }
}
