/**
  The line-oriented Markdown renderer and the copy guard of
  `components/prompt-display.tsx`.

  `formatMarkdown` splits the text at every line break, turns each line into
  one HTML fragment by looking only at how the line starts, and glues the
  fragments together with nothing in between. Nothing is escaped: the line's
  text is put into the fragment as it is. The clipboard write itself is left
  to the caller; the guard says what would be copied.
 */
module PromptDisplay {
  import opened Strings
  import opened PromptTemplate
  import PromptGenerator

  /** What one line becomes. */
  datatype Fragment =
    | H1(text: string)
    | H2(text: string)
    | H3(text: string)
    | Bullet(text: string)
    | Spacer
    | Paragraph(text: string)

  /** A line starts with at most one of the three heading markers. */
  lemma MarkersExclusive(line: string)
    ensures StartsWith(line, "# ") ==> !StartsWith(line, "## ") && !StartsWith(line, "### ")
    ensures StartsWith(line, "## ") ==> !StartsWith(line, "### ")
  {
    if StartsWith(line, "# ") {
      assert line[1] == line[..2][1] == ' ';
    }
    if StartsWith(line, "## ") {
      assert line[2] == line[..3][2] == ' ';
    }
    if StartsWith(line, "## ") || StartsWith(line, "### ") {
      assert line[1] == '#';
    }
    if StartsWith(line, "### ") {
      assert line[2] == line[..4][2] == '#';
    }
  }

  /**
    The classification, tried in the source's order: "# ", "## ", "### ",
    "- ", blank after trimming, anything else. Each heading or bullet drops
    exactly its marker.
   */
  function FormatLine(line: string): (f: Fragment)
    ensures f.H1? <==> StartsWith(line, "# ")
    ensures f.H2? <==> StartsWith(line, "## ")
    ensures f.H3? <==> StartsWith(line, "### ")
    ensures f.Bullet? <==> StartsWith(line, "- ")
    ensures f.Spacer? <==> !StartsWith(line, "- ") && !StartsWith(line, "#") && Trim(line) == ""
    ensures f.H1? ==> f.text == line[2..]
    ensures f.H2? ==> f.text == line[3..]
    ensures f.H3? ==> f.text == line[4..]
    ensures f.Bullet? ==> f.text == line[2..]
    ensures f.Paragraph? ==> f.text == line
  {
    MarkersExclusive(line);
    if StartsWith(line, "# ") then H1(line[2..])
    else if StartsWith(line, "## ") then H2(line[3..])
    else if StartsWith(line, "### ") then H3(line[4..])
    else if StartsWith(line, "- ") then Bullet(line[2..])
    else if Trim(line) == "" then (TrimEmptyIff(line); Spacer)
    else Paragraph(line)
  }

  /** The line a fragment was made from, for every fragment but the spacer. */
  function Source(f: Fragment): string {
    match f
    case H1(t) => "# " + t
    case H2(t) => "## " + t
    case H3(t) => "### " + t
    case Bullet(t) => "- " + t
    case Spacer => ""
    case Paragraph(t) => t
  }

  /**
    Nothing but the marker is lost: every line can be read back from its
    fragment, except a blank one, which is all whitespace.
   */
  lemma FormatLineRoundTrip(line: string)
    ensures FormatLine(line).Spacer? ==> AllWhitespace(line)
    ensures !FormatLine(line).Spacer? ==> Source(FormatLine(line)) == line
  {
    var f := FormatLine(line);
    match f
    case H1(t) => assert line == line[..2] + line[2..];
    case H2(t) => assert line == line[..3] + line[3..];
    case H3(t) => assert line == line[..4] + line[4..];
    case Bullet(t) => assert line == line[..2] + line[2..];
    case Spacer => TrimEmptyIff(line);
    case Paragraph(t) =>
  }

  /**
    A line that starts with "#" but with none of the three heading markers,
    such as "#### Note" or "#x", is an ordinary paragraph, kept whole.
   */
  lemma OtherHashLinesAreParagraphs(line: string)
    requires |line| > 0 && line[0] == '#'
    requires !StartsWith(line, "# ") && !StartsWith(line, "## ") && !StartsWith(line, "### ")
    ensures FormatLine(line) == Paragraph(line)
  {
    TrimEmptyIff(line);
    assert !IsWhitespace(line[0]);
  }

  /** Four hashes are one too many for a heading. */
  lemma FourHashes(rest: string)
    ensures FormatLine("####" + rest) == Paragraph("####" + rest)
  {
    var line := "####" + rest;
    assert line[..4][3] != "### "[3];
    assert line[..2][1] != "# "[1];
    assert line[..3][2] != "## "[2];
    OtherHashLinesAreParagraphs(line);
  }

  const BulletIndent: string := "                    "
  const BulletClose: string := "                  </div>"

  /** The HTML of one fragment, with the class lists of the component. */
  function Html(f: Fragment): string {
    match f
    case H1(t) => "<h1 class=\"text-lg font-bold text-blue-400 mt-4 mb-2\">" + t + "</h1>"
    case H2(t) => "<h2 class=\"text-md font-semibold text-blue-300 mt-3 mb-2\">" + t + "</h2>"
    case H3(t) => "<h3 class=\"text-sm font-medium text-blue-200 mt-2 mb-1\">" + t + "</h3>"
    case Bullet(t) =>
      "<div class=\"flex items-start my-1\">\n"
      + BulletIndent + "<span class=\"text-blue-400 mr-2\">\U{00E2}\U{20AC}\U{00A2}</span>\n"
      + BulletIndent + "<span>" + t + "</span>\n"
      + BulletClose
    case Spacer => "<div class=\"h-2\"></div>"
    case Paragraph(t) => "<p class=\"my-1\">" + t + "</p>"
  }

  /** No escaping: the text of every fragment appears verbatim in its HTML. */
  lemma HtmlKeepsText(f: Fragment)
    requires !f.Spacer?
    ensures Contains(Html(f), f.text)
  {
    match f
    case H1(t) => ContainsInfix("<h1 class=\"text-lg font-bold text-blue-400 mt-4 mb-2\">", t, "</h1>");
    case H2(t) => ContainsInfix("<h2 class=\"text-md font-semibold text-blue-300 mt-3 mb-2\">", t, "</h2>");
    case H3(t) => ContainsInfix("<h3 class=\"text-sm font-medium text-blue-200 mt-2 mb-1\">", t, "</h3>");
    case Bullet(t) =>
      var before := "<div class=\"flex items-start my-1\">\n"
        + BulletIndent + "<span class=\"text-blue-400 mr-2\">\U{00E2}\U{20AC}\U{00A2}</span>\n"
        + BulletIndent + "<span>";
      ContainsInfix(before, t, "</span>\n" + BulletClose);
      assert Html(f) == before + t + ("</span>\n" + BulletClose);
    case Paragraph(t) => ContainsInfix("<p class=\"my-1\">", t, "</p>");
  }

  /** The fragments of a list of lines, glued together in order. */
  function Render(lines: seq<string>): string {
    if |lines| == 0 then "" else Html(FormatLine(lines[0])) + Render(lines[1..])
  }

  lemma {:induction false} RenderAppend(a: seq<string>, b: seq<string>)
    ensures Render(a + b) == Render(a) + Render(b)
    decreases |a|
  {
    if |a| == 0 {
      assert a + b == b;
    } else {
      assert (a + b)[1..] == a[1..] + b;
      RenderAppend(a[1..], b);
    }
  }

  /** `formatMarkdown` */
  function FormatMarkdown(content: string): (html: string)
    ensures '\n' !in content ==> html == Html(FormatLine(content))
  {
    if '\n' !in content then
      SplitPrefix(content, "", '\n');
      assert content + "" == content;
      assert Split(content, '\n') == [content];
      assert Render([content]) == Html(FormatLine(content)) + Render([]);
      Render(Split(content, '\n'))
    else Render(Split(content, '\n'))
  }

  /**
    The output is built line by line: a first line followed by a line break
    contributes its own fragment, and the rest of the text renders on its own.
   */
  lemma FormatMarkdownLineBreak(first: string, rest: string)
    requires '\n' !in first
    ensures FormatMarkdown(first + "\n" + rest) == Html(FormatLine(first)) + FormatMarkdown(rest)
  {
    var t := "\n" + rest;
    SplitPrefix(first, t, '\n');
    assert t[1..] == rest;
    assert Split(t, '\n') == [""] + Split(rest, '\n');
    assert first + "" == first;
    assert first + "\n" + rest == first + t;
    assert Split(first + t, '\n') == [first] + Split(rest, '\n');
  }

  /** A text without line breaks is a single fragment. */
  lemma FormatMarkdownSingleLine(line: string)
    requires '\n' !in line
    ensures FormatMarkdown(line) == Html(FormatLine(line))
  {
    SplitPrefix(line, "", '\n');
    assert Split("", '\n') == [""];
    assert line + "" == line;
    assert Split(line, '\n') == [line];
    assert [line][1..] == [];
    assert Render([line]) == Html(FormatLine(line)) + Render([]);
  }

  /** Rendering a document's text renders its lines, title first. */
  lemma FormatDocument(d: Document)
    requires SingleLines(d)
    ensures FormatMarkdown(Text(d)) == Html(FormatLine(d.title)) + Render(Lines(d)[1..])
  {
    TextLines(d);
  }

  /** The generated specification's title line renders as the page's h1. */
  lemma GeneratedTitleIsH1(name: string)
    ensures FormatLine(PromptGenerator.TitlePrefix + name) == H1("UI Implementation Specification for " + name)
  {
    var rest := "UI Implementation Specification for " + name;
    assert PromptGenerator.TitlePrefix == "# " + "UI Implementation Specification for ";
    var line := PromptGenerator.TitlePrefix + name;
    assert line == "# " + rest;
    assert line[..2] == "# ";
    assert line[2..] == rest;
  }

  /**
    `handleCopy`: the text written to the clipboard, if any. It acts only when
    there is a prompt and its content is non-empty.
   */
  function HandleCopy(content: Option<string>): (copied: Option<string>)
    ensures copied.Some? <==> content.Some? && content.value != ""
    ensures copied.Some? ==> copied.value == content.value
  {
    if content.Some? && content.value != "" then content else None
  }

  /**
    Copying a generated specification always acts and puts its whole text on
    the clipboard: the text has at least the title and trailer lines, so it is
    never empty.
   */
  lemma CopyGeneratedDocument(d: Document)
    ensures HandleCopy(Some(Text(d))) == Some(Text(d))
  {
    var lines := Lines(d);
    assert Text(d) == lines[0] + ['\n'] + Join(lines[1..], '\n');
  }
}
