/**
 * The block renderer of the Python exporter (notion_to_md.py): the small
 * formatting handlers, the `handlers` dispatch table with its rich-text
 * fallback, and `handle_single_block`, which prefixes every line of a
 * handler's output with the indent. Downloads are the `Env.download`
 * oracle; the children listings they need come from `Env.notion`.
 */
module NotionRender {
  import opened Results
  import opened Text
  import opened Notion
  import opened Scheduler

  const DefaultIcon: string := "💡"

  /** `get_icon`: the emoji of an emoji icon, and the light bulb otherwise. */
  function GetIcon(b: Block): (icon: string)
    ensures icon == DefaultIcon || b.payload.icon == Some(EmojiIcon(Some(icon)))
    ensures b.payload.icon.None? || b.payload.icon.value.OtherIcon? || b.payload.icon.value.emoji.None? ==> icon == DefaultIcon
    ensures b.payload.icon.Some? && b.payload.icon.value.EmojiIcon? && b.payload.icon.value.emoji.Some? ==>
      icon == b.payload.icon.value.emoji.value
  {
    match b.payload.icon
    case Some(EmojiIcon(Some(e))) => e
    case _ => DefaultIcon
  }

  /** `block[type]["rich_text"]` read with `[]`: a missing key raises. */
  function RequiredText(b: Block): (r: Result<string>)
    ensures r.Err? <==> b.payload.richText.None?
    ensures r.Ok? ==> r.value == PlainText(b.payload.richText.value)
  {
    match b.payload.richText
    case None => Err(MissingKey("rich_text"))
    case Some(spans) => Ok(PlainText(spans))
  }

  // ---------- headings, paragraphs and list items ----------

  /**
   * `_handle_h1_block`, `_handle_h2_block` and `_handle_h3_block`, which
   * differ only in their marks (`##`, `###`, `####`): a line holding only
   * the indent, the heading line, then an empty line.
   */
  function HandleHeading(b: Block, indent: string, marks: string): (r: Result<string>)
    ensures r.Err? <==> b.payload.richText.None?
    ensures r.Ok? ==> var text := PlainText(b.payload.richText.value);
      '\n' !in indent + marks + text ==> SplitLines(r.value) == [indent, marks + " " + text, ""]
  {
    match RequiredText(b)
    case Err(e) => Err(e)
    case Ok(text) =>
      var line := marks + " " + text;
      assert '\n' !in indent + marks + text ==> '\n' !in line by {
        assert '\n' !in indent + marks + text ==> '\n' !in marks && '\n' !in text;
      }
      SplitLines3(indent, line, "");
      Ok(indent + "\n" + line + "\n" + "" + "\n")
  }

  /** The "back to top" link texts whose paragraphs are dropped. */
  const SkipKeywords: seq<string> := ["トップページに戻る", "トップページへ戻る", "TOPへ戻る", "目次へ戻る"]

  predicate HasSkipKeyword(text: string) {
    exists k :: 0 <= k < |SkipKeywords| && Contains(text, SkipKeywords[k])
  }

  /**
   * `_handle_paragraph_block`: nothing when the text contains one of the
   * skip keywords, otherwise the indented text followed by an empty line.
   */
  function HandleParagraph(b: Block, indent: string): (r: Result<string>)
    ensures r.Err? <==> b.payload.richText.None?
    ensures r.Ok? ==> (r.value == "" <==> HasSkipKeyword(PlainText(b.payload.richText.value)))
    ensures r.Ok? ==> var text := PlainText(b.payload.richText.value);
      !HasSkipKeyword(text) && '\n' !in indent + text ==> SplitLines(r.value) == [indent + text, ""]
  {
    match RequiredText(b)
    case Err(e) => Err(e)
    case Ok(text) =>
      if HasSkipKeyword(text) then Ok("")
      else
        var line := indent + text;
        SplitLines2(line, "");
        Ok(line + "\n" + "" + "\n")
  }

  /**
   * `_handle_bulleted_list_item_block` (marker `*`) and
   * `_handle_numbered_list_item_block` (marker `1.`, whatever the item's
   * position): one line.
   */
  function HandleListItem(b: Block, indent: string, marker: string): (r: Result<string>)
    ensures r.Err? <==> b.payload.richText.None?
    ensures r.Ok? ==> r.value != "" && r.value[|r.value| - 1] == '\n'
    ensures r.Ok? ==> var text := PlainText(b.payload.richText.value);
      '\n' !in indent + marker + text ==> SplitLines(r.value) == [indent + marker + " " + text]
  {
    match RequiredText(b)
    case Err(e) => Err(e)
    case Ok(text) =>
      var line := indent + marker + " " + text;
      assert '\n' !in indent + marker + text ==> '\n' !in line by {
        assert '\n' !in indent + marker + text ==> '\n' !in indent && '\n' !in marker && '\n' !in text;
      }
      SplitLines1(line);
      Ok(line + "\n")
  }

  /** `_handle_callout`: one quoted line with the icon; an absent text reads as "". */
  function HandleCallout(b: Block, indent: string): (r: string)
    ensures r != "" && r[|r| - 1] == '\n'
    ensures var text := ExtractText(b.payload.richText);
      '\n' !in indent + GetIcon(b) + text ==> SplitLines(r) == [indent + "> " + GetIcon(b) + " " + text]
  {
    var line := indent + "> " + GetIcon(b) + " " + ExtractText(b.payload.richText);
    SplitLines1(line);
    line + "\n"
  }

  /** `_handle_column`: a line holding only the indent, then an empty line. */
  function HandleColumn(indent: string): (r: string)
    ensures '\n' !in indent ==> SplitLines(r) == [indent, ""]
  {
    SplitLines2(indent, "");
    indent + "\n" + "" + "\n"
  }

  /** `_handle_divider`: a `---` line, then an empty line. */
  function HandleDivider(indent: string): (r: string)
    ensures '\n' !in indent ==> SplitLines(r) == [indent + "---", ""]
  {
    var line := indent + "---";
    SplitLines2(line, "");
    line + "\n" + "" + "\n"
  }

  // ---------- files ----------

  /** The attachment's name: its caption text, or the block id when the caption is empty. */
  function FileName(b: Block): (name: string)
    ensures ExtractText(b.payload.caption) != "" ==> name == ExtractText(b.payload.caption)
    ensures ExtractText(b.payload.caption) == "" ==> name == b.id
  {
    var caption := ExtractText(b.payload.caption);
    if caption != "" then caption else b.id
  }

  /** Where `_handle_file` saves the attachment: `<file_dir>/<name>.pdf`. */
  function FileSavePath(env: Env, b: Block): string {
    JoinPath(env.FileDir(), FileName(b) + ".pdf")
  }

  /**
   * `_handle_file`: an attachment hosted by the content source is downloaded
   * to `<name>.pdf` and linked as `files/<name>`, without the extension; a
   * failed download links the original URL instead. An external file has
   * no hosted URL, and the download of the absent URL raises.
   */
  function HandleFile(env: Env, b: Block, indent: string): (r: Result<string>)
    ensures r.Err? <==> b.payload.media.External?
    ensures r.Ok? && env.download(b.payload.media.url, FileSavePath(env, b)) ==>
      r.value == indent + "[📎 添付PDF: " + FileName(b) + "](files/" + FileName(b) + ")\n\n"
    ensures r.Ok? && !env.download(b.payload.media.url, FileSavePath(env, b)) ==>
      r.value == indent + "[📎 添付PDF(リンク切れ)](" + b.payload.media.url + ")\n\n"
  {
    match b.payload.media
    case External(_) => Err(InvalidUrl)
    case Hosted(url) =>
      var name := FileName(b);
      if env.download(url, FileSavePath(env, b)) then Ok(indent + "[📎 添付PDF: " + name + "](files/" + name + ")\n\n")
      else Ok(indent + "[📎 添付PDF(リンク切れ)](" + url + ")\n\n")
  }

  /** The link of a downloaded attachment names `files/<name>` while the file saved is `<name>.pdf`. */
  lemma FileLinkOmitsExtension(env: Env, b: Block, indent: string)
    requires b.payload.media.Hosted?
    requires env.download(b.payload.media.url, FileSavePath(env, b))
    ensures var name := FileName(b);
      && HandleFile(env, b, indent).Ok?
      && OccursAt(HandleFile(env, b, indent).value, "](files/" + name + ")", |indent| + |"[📎 添付PDF: "| + |name|)
      && FileSavePath(env, b) == JoinPath(env.FileDir(), name + ".pdf")
  {
    var name := FileName(b);
    var s := HandleFile(env, b, indent).value;
    var head := indent + "[📎 添付PDF: " + name;
    var link := "](files/" + name + ")";
    assert s == head + link + "\n\n";
    assert s[|head|..|head| + |link|] == link;
  }

  // ---------- tables ----------

  /** `[extract_text(c) for c in cells]`. */
  function CellTexts(cells: seq<seq<Span>>): (texts: seq<string>)
    ensures |texts| == |cells|
    ensures forall j :: 0 <= j < |cells| ==> texts[j] == PlainText(cells[j])
  {
    seq(|cells|, j requires 0 <= j < |cells| => PlainText(cells[j]))
  }

  /** One table row as a line, without its line break: `| c1 | c2 |`. */
  function RowText(cells: seq<seq<Span>>, indent: string): string {
    indent + "| " + Join(CellTexts(cells), " | ") + " |"
  }

  /** The header separator line: `table_width` cells of `---`. */
  function SeparatorText(width: nat, indent: string): string {
    indent + "| " + Join(Repeat("---", width), " | ") + " |"
  }

  /** The row loop of `_handle_table_block` over the cells of the first `|rows|` rows. */
  function TableRows(rows: seq<seq<seq<Span>>>, width: nat, indent: string): string
    decreases |rows|
  {
    if rows == [] then ""
    else
      var n := |rows| - 1;
      TableRows(rows[..n], width, indent) + RowText(rows[n], indent) + "\n"
        + (if n == 0 then SeparatorText(width, indent) + "\n" else "")
  }

  /** The lines of a table with at least one row: row 0, the separator, then the other rows in order. */
  function TableLines(rows: seq<seq<seq<Span>>>, width: nat, indent: string): (lines: seq<string>)
    requires rows != []
    ensures |lines| == |rows| + 1
  {
    [RowText(rows[0], indent), SeparatorText(width, indent)]
      + seq(|rows| - 1, k requires 0 <= k < |rows| - 1 => RowText(rows[k + 1], indent))
  }

  lemma {:induction false} TableRowsLines(rows: seq<seq<seq<Span>>>, width: nat, indent: string)
    requires rows != []
    ensures TableRows(rows, width, indent) == JoinLines(TableLines(rows, width, indent))
    decreases |rows|
  {
    var n := |rows| - 1;
    if n == 0 {
      assert rows[..0] == [];
      JoinLines2(RowText(rows[0], indent), SeparatorText(width, indent));
      assert TableLines(rows, width, indent) == [RowText(rows[0], indent), SeparatorText(width, indent)];
    } else {
      var front := rows[..n];
      TableRowsLines(front, width, indent);
      TableLinesSnoc(rows, width, indent);
      JoinLinesAppend(TableLines(front, width, indent), [RowText(rows[n], indent)]);
      JoinLines1(RowText(rows[n], indent));
    }
  }

  lemma TableLinesSnoc(rows: seq<seq<seq<Span>>>, width: nat, indent: string)
    requires |rows| > 1
    ensures TableLines(rows, width, indent) == TableLines(rows[..|rows| - 1], width, indent) + [RowText(rows[|rows| - 1], indent)]
  {
    var front := rows[..|rows| - 1];
    var a := TableLines(rows, width, indent);
    var b := TableLines(front, width, indent) + [RowText(rows[|rows| - 1], indent)];
    assert |a| == |b|;
    forall i | 0 <= i < |a| ensures a[i] == b[i] {
      if i >= 2 && i < |a| - 1 {
        assert a[i] == RowText(rows[i - 1], indent);
        assert b[i] == RowText(front[i - 1], indent);
      }
    }
  }

  /** The cells of each row, in order. */
  function Cells(rows: seq<Block>): (cells: seq<seq<seq<Span>>>)
    ensures |cells| == |rows|
    ensures forall j :: 0 <= j < |rows| ==> cells[j] == rows[j].payload.cells
  {
    seq(|rows|, j requires 0 <= j < |rows| => rows[j].payload.cells)
  }

  predicate AllTableRows(rows: seq<Block>) {
    forall j :: 0 <= j < |rows| ==> rows[j].kind == TableRow
  }

  /**
   * The table markdown for the fetched rows: "" without rows; a child that
   * is not a table row has no `table_row` key and raises.
   */
  function TableMarkdown(rows: seq<Block>, width: nat, indent: string): Result<string> {
    if rows == [] then Ok("")
    else if !AllTableRows(rows) then Err(MissingKey("table_row"))
    else Ok(TableRows(Cells(rows), width, indent) + "\n")
  }

  /** No cell text of any row contains a line break. */
  predicate CellsOnOneLine(rows: seq<Block>) {
    forall j, c :: 0 <= j < |rows| && 0 <= c < |rows[j].payload.cells| ==> '\n' !in PlainText(rows[j].payload.cells[c])
  }

  lemma TableLinesOnOneLine(rows: seq<Block>, width: nat, indent: string)
    requires rows != [] && CellsOnOneLine(rows) && '\n' !in indent
    ensures forall i :: 0 <= i < |rows| + 1 ==> '\n' !in TableLines(Cells(rows), width, indent)[i]
  {
    var cs := Cells(rows);
    var tl := TableLines(cs, width, indent);
    forall k | 0 <= k < |rows| ensures '\n' !in RowText(cs[k], indent) {
      JoinNoBreak(CellTexts(cs[k]), " | ");
    }
    JoinNoBreak(Repeat("---", width), " | ");
    forall i | 0 <= i < |tl| ensures '\n' !in tl[i] {
      if 2 <= i {
        assert tl[i] == RowText(cs[i - 1], indent);
      }
    }
  }

  /** The lines of a table's markdown: its table lines, then an empty line. */
  lemma TableMarkdownLines(rows: seq<Block>, width: nat, indent: string)
    requires rows != [] && AllTableRows(rows) && CellsOnOneLine(rows) && '\n' !in indent
    ensures SplitLines(TableMarkdown(rows, width, indent).value) == TableLines(Cells(rows), width, indent) + [""]
  {
    var tl := TableLines(Cells(rows), width, indent);
    TableRowsLines(Cells(rows), width, indent);
    assert TableMarkdown(rows, width, indent) == Ok(JoinLines(tl) + "\n");
    TableLinesOnOneLine(rows, width, indent);
    SplitLinesThenBlank(tl);
  }

  /**
   * A table renders to one line per row, in order, with exactly one
   * separator line right after row 0, and ends with an empty line.
   */
  lemma TableShape(rows: seq<Block>, width: nat, indent: string)
    ensures rows == [] ==> TableMarkdown(rows, width, indent) == Ok("")
    ensures TableMarkdown(rows, width, indent).Err? <==> rows != [] && !AllTableRows(rows)
    ensures rows != [] && AllTableRows(rows) && CellsOnOneLine(rows) && '\n' !in indent ==>
      var lines := SplitLines(TableMarkdown(rows, width, indent).value);
      && |lines| == |rows| + 2
      && lines[0] == RowText(rows[0].payload.cells, indent)
      && lines[1] == SeparatorText(width, indent)
      && (forall k :: 1 <= k < |rows| ==> lines[k + 1] == RowText(rows[k].payload.cells, indent))
      && lines[|rows| + 1] == ""
  {
    if rows != [] && AllTableRows(rows) && CellsOnOneLine(rows) && '\n' !in indent {
      TableMarkdownLines(rows, width, indent);
      var tl := TableLines(Cells(rows), width, indent);
      forall k | 1 <= k < |rows| ensures tl[k + 1] == RowText(rows[k].payload.cells, indent) {
      }
    }
  }

  /** `_handle_table_block` on the rows a full fetch of the table's children yields. */
  function TableBlock(env: Env, b: Block, indent: string): Result<string> {
    match AllBlocks(env.notion, b.id)
    case Err(e) => Err(e)
    case Ok(rows) => TableMarkdown(rows, b.payload.tableWidth, indent)
  }

  /** One of the keywords occurs at some position of `text`. */
  ghost predicate KeywordOccurs(text: string) {
    exists k, i :: 0 <= k < |SkipKeywords| && OccursAt(text, SkipKeywords[k], i)
  }

  lemma HasSkipKeywordIff(text: string)
    ensures HasSkipKeyword(text) <==> KeywordOccurs(text)
  {
    if HasSkipKeyword(text) {
      var k :| 0 <= k < |SkipKeywords| && Contains(text, SkipKeywords[k]);
      ContainsIff(text, SkipKeywords[k]);
      var i :| OccursAt(text, SkipKeywords[k], i);
      assert KeywordOccurs(text);
    }
    if KeywordOccurs(text) {
      var k, i :| 0 <= k < |SkipKeywords| && OccursAt(text, SkipKeywords[k], i);
      ContainsIff(text, SkipKeywords[k]);
      assert Contains(text, SkipKeywords[k]);
    }
  }

  /** Paragraphs are dropped exactly when one of the keywords occurs somewhere in their text. */
  lemma ParagraphSkipsKeywords(b: Block, indent: string)
    requires b.payload.richText.Some?
    ensures HandleParagraph(b, indent) == Ok("") <==> KeywordOccurs(PlainText(b.payload.richText.value))
  {
    HasSkipKeywordIff(PlainText(b.payload.richText.value));
  }

  // ---------- toggles and images ----------

  /** The texts of the children that carry rich text, in order (the loop of `_get_toggle_content`). */
  function ToggleTexts(children: seq<Block>): (texts: seq<string>)
    ensures |texts| <= |children|
    ensures |children| == 1 ==>
      texts == if children[0].payload.richText.Some? then [PlainText(children[0].payload.richText.value)] else []
    decreases |children|
  {
    if children == [] then []
    else
      var n := |children| - 1;
      var c := children[n];
      ToggleTexts(children[..n]) + (if c.payload.richText.Some? then [PlainText(c.payload.richText.value)] else [])
  }

  /** The toggle texts of consecutive runs of children concatenate; children without rich text add nothing. */
  lemma {:induction false} ToggleTextsAppend(a: seq<Block>, b: seq<Block>)
    ensures ToggleTexts(a + b) == ToggleTexts(a) + ToggleTexts(b)
    decreases |b|
  {
    if b == [] {
      assert a + b == a;
    } else {
      var n := |b| - 1;
      assert (a + b)[..|a + b| - 1] == a + b[..n];
      assert (a + b)[|a + b| - 1] == b[n];
      ToggleTextsAppend(a, b[..n]);
    }
  }

  /**
   * `_get_toggle_content` on fetched children: the indent, a space, then
   * the texts joined by spaces with every line break turned into a space.
   */
  function ToggleAlt(children: seq<Block>, currentIndent: string): (alt: string)
    ensures |alt| > |currentIndent| && alt[..|currentIndent|] == currentIndent && alt[|currentIndent|] == ' '
    ensures forall i :: |currentIndent| <= i < |alt| ==> alt[i] != '\n'
    ensures ToggleTexts(children) == [] ==> alt == currentIndent + " "
    ensures var joined := Join(ToggleTexts(children), " ");
      && |alt| == |currentIndent| + 1 + |joined|
      && forall i :: 0 <= i < |joined| ==> alt[|currentIndent| + 1 + i] == if joined[i] == '\n' then ' ' else joined[i]
    ensures var joined := Join(ToggleTexts(children), " ");
      '\n' !in joined ==> alt == currentIndent + " " + joined
  {
    var joined := Join(ToggleTexts(children), " ");
    currentIndent + " " + ReplaceChars(joined, {'\n'}, ' ')
  }

  /** The alt text taken from a toggle block: a full fetch of its children, then `ToggleAlt`. */
  function ToggleContent(env: Env, toggleId: string, currentIndent: string): Result<string> {
    match AllBlocks(env.notion, toggleId)
    case Err(e) => Err(e)
    case Ok(children) => Ok(ToggleAlt(children, currentIndent))
  }

  /** How Python formats a `bool` in an f-string. */
  function PyBool(v: bool): string {
    if v then "True" else "False"
  }

  /** Where `_handle_image_block` saves an image: `<image_dir>/<id>.png`. */
  function ImageSavePath(env: Env, b: Block): string {
    JoinPath(env.ImageDir(), b.id + ".png")
  }

  /**
   * `_handle_image_block`: one image line. Its link target is the flag the
   * download returned, printed as `True` or `False`, never the saved path.
   */
  function HandleImage(env: Env, b: Block, alt: string, indent: string): (r: string)
    ensures r == indent + "![" + alt + "](True)\n" || r == indent + "![" + alt + "](False)\n"
    ensures r == indent + "![" + alt + "](True)\n" <==> env.download(b.payload.media.url, ImageSavePath(env, b))
  {
    var saved := env.download(b.payload.media.url, ImageSavePath(env, b));
    var r := indent + "![" + alt + "](" + PyBool(saved) + ")\n";
    assert r == indent + "![" + alt + "](" + PyBool(saved) + ")\n";
    if saved then
      assert r == indent + "![" + alt + "](True)\n";
      r
    else
      assert r == indent + "![" + alt + "](False)\n";
      assert (indent + "![" + alt + "](False)\n")[|indent + "![" + alt + "]("|] == 'F';
      assert (indent + "![" + alt + "](True)\n")[|indent + "![" + alt + "]("|] == 'T';
      r
  }

  // ---------- child pages ----------

  /** The characters `_handle_child_page` replaces in a title. */
  const IllegalTitleChars: set<char> := {'\\', '/', '*', '?', ':', '"', '<', '>', '|'}

  /** The title with each illegal character replaced by `_` and the others kept. */
  function SanitizeTitle(title: string): (safe: string)
    ensures |safe| == |title|
    ensures forall i :: 0 <= i < |title| ==> safe[i] !in IllegalTitleChars
    ensures forall i :: 0 <= i < |title| ==> safe[i] == if title[i] in IllegalTitleChars then '_' else title[i]
  {
    ReplaceChars(title, IllegalTitleChars, '_')
  }

  /** Sanitizing a sanitized title changes nothing. */
  lemma SanitizeIdempotent(title: string)
    ensures SanitizeTitle(SanitizeTitle(title)) == SanitizeTitle(title)
  {
    var once := SanitizeTitle(title);
    var twice := SanitizeTitle(once);
    assert forall i :: 0 <= i < |once| ==> twice[i] == once[i];
  }

  /** The file a child page is exported to: `<sanitized title>.md`. */
  function ChildPageFileName(b: Block): string {
    SanitizeTitle(b.payload.title) + ".md"
  }

  /** The queue entry `{id, title, file_name}` for a child page. */
  function ChildPageRef(b: Block): PageRef {
    PageRef(b.id, b.payload.title, ChildPageFileName(b))
  }

  /** The link line `_handle_child_page` returns. */
  function ChildPageLink(b: Block, currentIndent: string): string {
    currentIndent + "### 📄 [" + b.payload.title + "](" + ChildPageFileName(b) + ")\n\n"
  }

  // ---------- code ----------

  /** ASCII upper-case letters lowered; every other character kept. */
  function AsciiLower(s: string): (r: string)
    ensures |r| == |s|
    ensures forall i :: 0 <= i < |s| ==> !('A' <= r[i] <= 'Z')
    ensures forall i :: 0 <= i < |s| && !('A' <= s[i] <= 'Z') ==> r[i] == s[i]
    ensures forall i :: 0 <= i < |s| && 'A' <= s[i] <= 'Z' ==> r[i] == (s[i] as int + 32) as char
    decreases |s|
  {
    if s == [] then []
    else [if 'A' <= s[0] <= 'Z' then (s[0] as int + 32) as char else s[0]] + AsciiLower(s[1..])
  }

  /** `s.replace(" ", "")`. */
  function RemoveSpaces(s: string): (r: string)
    ensures ' ' !in r
    ensures |r| <= |s|
    ensures ' ' !in s ==> r == s
    ensures |s| == 1 ==> r == if s[0] == ' ' then [] else s
    decreases |s|
  {
    if s == [] then []
    else if s[0] == ' ' then RemoveSpaces(s[1..])
    else [s[0]] + RemoveSpaces(s[1..])
  }

  /**
   * Removing spaces works piece by piece; with the one-character cases of
   * `RemoveSpaces`, every other character is kept, in order.
   */
  lemma {:induction false} RemoveSpacesAppend(a: string, b: string)
    ensures RemoveSpaces(a + b) == RemoveSpaces(a) + RemoveSpaces(b)
    decreases |a|
  {
    if a == [] {
      assert a + b == b;
    } else {
      assert (a + b)[0] == a[0];
      assert (a + b)[1..] == a[1..] + b;
      RemoveSpacesAppend(a[1..], b);
    }
  }

  /** The fence language: the block's language (default "plain text"), lower-cased, spaces removed. */
  function CodeLanguage(b: Block): (lang: string)
    ensures ' ' !in lang
    ensures forall i :: 0 <= i < |lang| ==> !('A' <= lang[i] <= 'Z')
    ensures b.payload.language.None? ==> lang == "plaintext"
    ensures b.payload.language.Some? ==> lang == RemoveSpaces(AsciiLower(b.payload.language.value))
    ensures b.payload.language.Some? && ' ' !in b.payload.language.value
      && (forall i :: 0 <= i < |b.payload.language.value| ==> !('A' <= b.payload.language.value[i] <= 'Z'))
      ==> lang == b.payload.language.value
  {
    var language := if b.payload.language.Some? then b.payload.language.value else "plain text";
    var lowered := AsciiLower(language);
    var lang := RemoveSpaces(lowered);
    LowerStaysLower(lowered);
    if b.payload.language.None? then
      PlainTextLanguage(language);
      lang
    else if NoUpper(language) then
      AsciiLowerKeepsLower(language);
      lang
    else
      lang
  }

  /** No ASCII upper-case letter in `s`. */
  predicate NoUpper(s: string) {
    forall i :: 0 <= i < |s| ==> !('A' <= s[i] <= 'Z')
  }

  /** A text without upper-case letters is its own lower case. */
  lemma AsciiLowerKeepsLower(s: string)
    requires NoUpper(s)
    ensures AsciiLower(s) == s
  {
    var r := AsciiLower(s);
    assert forall i :: 0 <= i < |s| ==> r[i] == s[i];
  }

  /** The default language "plain text" becomes the fence language "plaintext". */
  lemma PlainTextLanguage(s: string)
    requires s == "plain text"
    ensures RemoveSpaces(AsciiLower(s)) == "plaintext"
  {
    var p, t := "plain", "text";
    PlainTextWords(p, t);
    assert NoUpper(s);
    AsciiLowerKeepsLower(s);
    RemoveSpaceBetween(p, t);
  }

  lemma PlainTextWords(p: string, t: string)
    requires p == "plain" && t == "text"
    ensures p + (" " + t) == "plain text" && p + t == "plaintext"
  {
  }

  /** Two words joined by a space lose the space and nothing else. */
  lemma RemoveSpaceBetween(p: string, t: string)
    requires ' ' !in p && ' ' !in t
    ensures RemoveSpaces(p + (" " + t)) == p + t
  {
    RemoveSpacesAppend(p, " " + t);
    assert (" " + t)[0] == ' ' && (" " + t)[1..] == t;
  }

  lemma {:induction false} LowerStaysLower(s: string)
    requires forall i :: 0 <= i < |s| ==> !('A' <= s[i] <= 'Z')
    ensures forall i :: 0 <= i < |RemoveSpaces(s)| ==> !('A' <= RemoveSpaces(s)[i] <= 'Z')
    decreases |s|
  {
    if s != [] {
      LowerStaysLower(s[1..]);
    }
  }

  /** The caption line of a code block, or nothing without a caption. */
  function CaptionLine(caption: string, indent: string): string {
    if caption != "" then indent + "*caption: " + caption + "*\n" else ""
  }

  /**
   * `_handle_code`: the opening fence with the language, the code text as
   * it is, the closing fence, a caption line when there is a caption, then
   * an empty line. No entry of the dispatch table points here.
   */
  function HandleCode(b: Block, indent: string): (r: string)
    ensures var head := indent + "```" + CodeLanguage(b) + "\n" + ExtractText(b.payload.richText) + "\n";
      && StartsWith(r, head)
      && r[|head|..] == indent + "```\n" + CaptionLine(ExtractText(b.payload.caption), indent) + "\n"
  {
    var code := ExtractText(b.payload.richText);
    var caption := ExtractText(b.payload.caption);
    var head := indent + "```" + CodeLanguage(b) + "\n" + code + "\n";
    var r := head + (indent + "```\n" + CaptionLine(caption, indent) + "\n");
    assert r[..|head|] == head;
    r
  }

  /** The lines after the code text: the closing fence, the caption line when there is a caption, an empty line. */
  function CodeTail(indent: string, caption: string): seq<string> {
    [indent + "```"] + (if caption != "" then [indent + "*caption: " + caption + "*"] else []) + [""]
  }

  lemma CodeTailJoin(indent: string, caption: string)
    requires '\n' !in indent && '\n' !in caption
    ensures JoinLines(CodeTail(indent, caption)) == indent + "```\n" + CaptionLine(caption, indent) + "\n"
  {
    var close := indent + "```";
    if caption != "" {
      var cap := indent + "*caption: " + caption + "*";
      assert CodeTail(indent, caption) == [close, cap, ""];
      JoinLines3(close, cap, "");
    } else {
      assert CodeTail(indent, caption) == [close, ""];
      JoinLines2(close, "");
    }
  }

  lemma CodeTailOneLine(indent: string, caption: string)
    requires '\n' !in indent && '\n' !in caption
    ensures forall i :: 0 <= i < |CodeTail(indent, caption)| ==> '\n' !in CodeTail(indent, caption)[i]
  {
    assert '\n' !in "```" && '\n' !in "*caption: " && '\n' !in "*";
    NoBreakConcat(indent, "```");
    NoBreakConcat(indent, "*caption: ");
    NoBreakConcat(indent + "*caption: ", caption);
    NoBreakConcat(indent + "*caption: " + caption, "*");
  }

  /** An opening line, then text ended by a line break, then whole lines: the text's lines sit between the two. */
  lemma FencedLines(open: string, code: string, tail: seq<string>)
    requires '\n' !in open
    requires forall i :: 0 <= i < |tail| ==> '\n' !in tail[i]
    ensures SplitLines(open + "\n" + (code + "\n" + JoinLines(tail))) == [open] + SplitLines(code + "\n") + tail
  {
    var lines := SplitLines(code + "\n");
    SplitLinesCons(open, code + "\n" + JoinLines(tail));
    SplitLinesAfterBreak(code, JoinLines(tail));
    SplitJoinLines(tail);
    AppendAssoc([open], lines, tail);
  }

  /**
   * The lines of a code block: the opening fence, the lines of the code
   * text (however many line breaks it holds), the closing fence, the
   * caption line when there is one, then an empty line.
   */
  lemma HandleCodeLines(b: Block, indent: string)
    requires '\n' !in indent && '\n' !in CodeLanguage(b) && '\n' !in ExtractText(b.payload.caption)
    ensures SplitLines(HandleCode(b, indent)) ==
      [indent + "```" + CodeLanguage(b)] + SplitLines(ExtractText(b.payload.richText) + "\n") + CodeTail(indent, ExtractText(b.payload.caption))
    ensures '\n' !in ExtractText(b.payload.richText) ==>
      SplitLines(HandleCode(b, indent)) == CodeLines(indent, CodeLanguage(b), ExtractText(b.payload.richText), ExtractText(b.payload.caption))
  {
    var code := ExtractText(b.payload.richText);
    var caption := ExtractText(b.payload.caption);
    var fence := indent + "```" + CodeLanguage(b);
    var tail := CodeTail(indent, caption);
    var r := HandleCode(b, indent);
    assert '\n' !in "```";
    assert '\n' !in fence;
    CodeTailJoin(indent, caption);
    CodeTailOneLine(indent, caption);
    FenceRegroup(r, fence, code, JoinLines(tail));
    FencedLines(fence, code, tail);
    if '\n' !in code {
      SplitLines1(code);
      OneLineCode(fence, code, tail);
    }
  }

  lemma FenceRegroup(r: string, fence: string, code: string, rest: string)
    requires StartsWith(r, fence + "\n" + code + "\n") && r[|fence + "\n" + code + "\n"|..] == rest
    ensures r == fence + "\n" + (code + "\n" + rest)
  {
    var head := fence + "\n" + code + "\n";
    assert r == head + r[|head|..];
  }

  lemma OneLineCode(fence: string, code: string, tail: seq<string>)
    requires SplitLines(code + "\n") == [code]
    ensures [fence] + SplitLines(code + "\n") + tail == [fence, code] + tail
  {
  }

  /** The lines of a fenced code block, the caption line only when there is a caption. */
  function CodeLines(indent: string, lang: string, code: string, caption: string): seq<string> {
    [indent + "```" + lang, code] + CodeTail(indent, caption)
  }

  // ---------- dispatch ----------

  /** The entries of the `handlers` table. */
  datatype Handler =
    | H1Handler | H2Handler | H3Handler | ParagraphHandler
    | BulletedListItemHandler | NumberedListItemHandler | CalloutHandler
    | ColumnListHandler | ColumnHandler | FileHandler | TableHandler
    | IgnoreHandler | DividerHandler

  /** The `handlers` table: code, toggle, image and child-page blocks have no entry. */
  function Handlers(k: Kind): (h: Option<Handler>)
    ensures h.None? <==> k.ChildPage? || k.Image? || k.Toggle? || k.Code? || k.Other?
    ensures k == TableRow <==> h == Some(IgnoreHandler)
  {
    match k
    case Heading1 => Some(H1Handler)
    case Heading2 => Some(H2Handler)
    case Heading3 => Some(H3Handler)
    case Paragraph => Some(ParagraphHandler)
    case BulletedListItem => Some(BulletedListItemHandler)
    case NumberedListItem => Some(NumberedListItemHandler)
    case Callout => Some(CalloutHandler)
    case ColumnList => Some(ColumnListHandler)
    case Column => Some(ColumnHandler)
    case File => Some(FileHandler)
    case Table => Some(TableHandler)
    case TableRow => Some(IgnoreHandler)
    case Divider => Some(DividerHandler)
    case _ => None
  }

  /** The handlers that read `rich_text` with `[]`. */
  predicate ReadsRichText(h: Handler) {
    h.H1Handler? || h.H2Handler? || h.H3Handler? || h.ParagraphHandler?
      || h.BulletedListItemHandler? || h.NumberedListItemHandler?
  }

  /**
   * `handler(block, current_indent=indent)`. `_ignore_block` declares no
   * `current_indent` parameter, so calling it raises.
   */
  function ApplyHandler(env: Env, h: Handler, b: Block, indent: string): (r: Result<string>)
    ensures ReadsRichText(h) ==> (r.Err? <==> b.payload.richText.None?)
    ensures h == IgnoreHandler ==> r == Err(UnexpectedArgument("current_indent"))
    ensures h == FileHandler ==> (r.Err? <==> b.payload.media.External?)
    ensures h == TableHandler ==> r == TableBlock(env, b, indent)
    ensures h.CalloutHandler? || h.ColumnListHandler? || h.ColumnHandler? || h.DividerHandler? ==> r.Ok?
  {
    match h
    case H1Handler => HandleHeading(b, indent, "##")
    case H2Handler => HandleHeading(b, indent, "###")
    case H3Handler => HandleHeading(b, indent, "####")
    case ParagraphHandler => HandleParagraph(b, indent)
    case BulletedListItemHandler => HandleListItem(b, indent, "*")
    case NumberedListItemHandler => HandleListItem(b, indent, "1.")
    case CalloutHandler => Ok(HandleCallout(b, indent))
    case ColumnListHandler => Ok("")
    case ColumnHandler => Ok(HandleColumn(indent))
    case FileHandler => HandleFile(env, b, indent)
    case TableHandler => TableBlock(env, b, indent)
    case IgnoreHandler => Err(UnexpectedArgument("current_indent"))
    case DividerHandler => Ok(HandleDivider(indent))
  }

  /** The fallback for kinds without a handler: the rich text and an empty line, or nothing. */
  function Fallback(b: Block): (r: string)
    ensures r == "" <==> b.payload.richText.None?
    ensures b.payload.richText.Some? && '\n' !in PlainText(b.payload.richText.value) ==>
      SplitLines(r) == [PlainText(b.payload.richText.value), ""]
  {
    match b.payload.richText
    case None => ""
    case Some(spans) =>
      var text := PlainText(spans);
      SplitLines2(text, "");
      text + "\n" + "" + "\n"
  }

  /** `md_content` in `handle_single_block`: the handler's output, or the fallback. */
  function RawContent(env: Env, b: Block, indent: string): Result<string> {
    match Handlers(b.kind)
    case Some(h) => ApplyHandler(env, h, b, indent)
    case None => Ok(Fallback(b))
  }

  /**
   * `handle_single_block`: the indent is one more unit in front of
   * `current_indent`; empty content stays empty, and otherwise every line of
   * the content (which already starts with that indent) is prefixed by it.
   */
  function HandleSingleBlock(env: Env, b: Block, currentIndent: string): (r: Result<string>)
    ensures var raw := RawContent(env, b, env.indentUnit + currentIndent);
      && (r.Err? <==> raw.Err?)
      && (r.Err? ==> r == raw)
      && (r.Ok? ==> (r.value == "" <==> raw.value == ""))
      && (r.Ok? && '\n' !in env.indentUnit + currentIndent ==>
            SplitLines(r.value) == Prefixed(env.indentUnit + currentIndent, SplitLines(raw.value))
            && r.value == JoinLines(SplitLines(r.value)))
    ensures r.Ok? && r.value != "" ==> r.value[|r.value| - 1] == '\n'
    ensures b.kind == TableRow ==> r == Err(UnexpectedArgument("current_indent"))
  {
    var indent := env.indentUnit + currentIndent;
    match RawContent(env, b, indent)
    case Err(e) => Err(e)
    case Ok(content) => if content == "" then Ok("") else Ok(IndentEachLine(indent, content))
  }

  /**
   * A kind without a handler (code blocks among them) renders its rich text
   * as an indented paragraph, and nothing when it has no rich text.
   */
  lemma UnknownKindFallback(env: Env, b: Block, currentIndent: string)
    requires Handlers(b.kind).None?
    ensures b.payload.richText.None? ==> HandleSingleBlock(env, b, currentIndent) == Ok("")
    ensures var indent := env.indentUnit + currentIndent;
      b.payload.richText.Some? && '\n' !in indent + PlainText(b.payload.richText.value) ==>
        && HandleSingleBlock(env, b, currentIndent).Ok?
        && SplitLines(HandleSingleBlock(env, b, currentIndent).value) == [indent + PlainText(b.payload.richText.value), indent]
  {
    var indent := env.indentUnit + currentIndent;
    if b.payload.richText.Some? && '\n' !in indent + PlainText(b.payload.richText.value) {
      var text := PlainText(b.payload.richText.value);
      assert RawContent(env, b, indent) == Ok(Fallback(b));
      assert Prefixed(indent, [text, ""]) == [indent + text, indent + ""];
      assert indent + "" == indent;
    }
  }

  /**
   * A level-one heading through `handle_single_block`: the handler starts
   * with the indent and every line is prefixed by it again, so the first
   * line holds the indent twice.
   */
  lemma HeadingLinesIndented(env: Env, h: Block, currentIndent: string)
    requires h.kind == Heading1 && h.payload.richText.Some?
    requires '\n' !in env.indentUnit + currentIndent && '\n' !in PlainText(h.payload.richText.value)
    ensures var ind := env.indentUnit + currentIndent;
      var r := HandleSingleBlock(env, h, currentIndent);
      r.Ok? && SplitLines(r.value) == [ind + ind, ind + "## " + PlainText(h.payload.richText.value), ind]
  {
    var ind := env.indentUnit + currentIndent;
    var text := PlainText(h.payload.richText.value);
    HeadingRawLines(env, h, ind);
    var r := HandleSingleBlock(env, h, currentIndent);
    assert SplitLines(r.value) == Prefixed(ind, [ind, "## " + text, ""]);
    PrefixedThenBlank(ind, ind, "## " + text);
    assert ind + ("## " + text) == ind + "## " + text;
  }

  /**
   * The marks each heading level gets through the dispatch table:
   * `heading_1` is written `##`, `heading_2` `###` and `heading_3` `####`,
   * each between a line holding only the indent and an empty line.
   */
  lemma HeadingRawLines(env: Env, h: Block, ind: string)
    requires h.kind in {Heading1, Heading2, Heading3} && h.payload.richText.Some?
    requires '\n' !in ind && '\n' !in PlainText(h.payload.richText.value)
    ensures RawContent(env, h, ind).Ok?
    ensures var text := PlainText(h.payload.richText.value);
      && (h.kind == Heading1 ==> SplitLines(RawContent(env, h, ind).value) == [ind, "## " + text, ""])
      && (h.kind == Heading2 ==> SplitLines(RawContent(env, h, ind).value) == [ind, "### " + text, ""])
      && (h.kind == Heading3 ==> SplitLines(RawContent(env, h, ind).value) == [ind, "#### " + text, ""])
  {
    var text := PlainText(h.payload.richText.value);
    if h.kind == Heading1 {
      assert RawContent(env, h, ind) == HandleHeading(h, ind, "##");
      MarkedLines(h, ind, "##", "## ");
    } else if h.kind == Heading2 {
      assert RawContent(env, h, ind) == HandleHeading(h, ind, "###");
      MarkedLines(h, ind, "###", "### ");
    } else {
      assert RawContent(env, h, ind) == HandleHeading(h, ind, "####");
      MarkedLines(h, ind, "####", "#### ");
    }
  }

  lemma MarkedLines(h: Block, ind: string, marks: string, lead: string)
    requires h.payload.richText.Some?
    requires '\n' !in ind && '\n' !in marks && '\n' !in PlainText(h.payload.richText.value)
    requires lead == marks + " "
    ensures HandleHeading(h, ind, marks).Ok?
    ensures SplitLines(HandleHeading(h, ind, marks).value) == [ind, lead + PlainText(h.payload.richText.value), ""]
  {
    var text := PlainText(h.payload.richText.value);
    NoBreakConcat(ind, marks);
    NoBreakConcat(ind + marks, text);
  }

  /**
   * The markers the list items get through `handle_single_block`: a
   * bulleted item is one `* text` line and a numbered item one `1. text`
   * line, whatever its position in the list, each carrying the indent
   * twice and ended by a line break.
   */
  lemma ListItemIndented(env: Env, b: Block, currentIndent: string)
    requires b.kind in {BulletedListItem, NumberedListItem} && b.payload.richText.Some?
    requires '\n' !in env.indentUnit + currentIndent && '\n' !in PlainText(b.payload.richText.value)
    ensures var ind := env.indentUnit + currentIndent;
      var text := PlainText(b.payload.richText.value);
      && (b.kind == BulletedListItem ==> HandleSingleBlock(env, b, currentIndent) == Ok(ind + ind + "* " + text + "\n"))
      && (b.kind == NumberedListItem ==> HandleSingleBlock(env, b, currentIndent) == Ok(ind + ind + "1. " + text + "\n"))
  {
    var ind := env.indentUnit + currentIndent;
    if b.kind == BulletedListItem {
      assert RawContent(env, b, ind) == HandleListItem(b, ind, "*");
      ItemThroughSingleBlock(env, b, currentIndent, "*", "* ");
    } else {
      assert RawContent(env, b, ind) == HandleListItem(b, ind, "1.");
      ItemThroughSingleBlock(env, b, currentIndent, "1.", "1. ");
    }
  }

  lemma ItemThroughSingleBlock(env: Env, b: Block, currentIndent: string, marker: string, lead: string)
    requires b.payload.richText.Some?
    requires RawContent(env, b, env.indentUnit + currentIndent) == HandleListItem(b, env.indentUnit + currentIndent, marker)
    requires '\n' !in env.indentUnit + currentIndent && '\n' !in marker && '\n' !in PlainText(b.payload.richText.value)
    requires lead == marker + " "
    ensures var ind := env.indentUnit + currentIndent;
      HandleSingleBlock(env, b, currentIndent) == Ok(ind + ind + lead + PlainText(b.payload.richText.value) + "\n")
  {
    var ind := env.indentUnit + currentIndent;
    var line := ind + lead + PlainText(b.payload.richText.value);
    MarkedItem(b, ind, marker, lead);
    IndentOneLine(ind, line);
    AppendAssoc(ind, line, "\n");
    AppendAssoc(ind, ind + lead, PlainText(b.payload.richText.value));
    AppendAssoc(ind, ind, lead);
  }

  lemma MarkedItem(b: Block, ind: string, marker: string, lead: string)
    requires b.payload.richText.Some?
    requires '\n' !in ind && '\n' !in marker && '\n' !in PlainText(b.payload.richText.value)
    requires lead == marker + " "
    ensures HandleListItem(b, ind, marker) == Ok(ind + lead + PlainText(b.payload.richText.value) + "\n")
    ensures '\n' !in ind + lead + PlainText(b.payload.richText.value)
  {
    NoBreakConcat(ind, marker);
    NoBreakConcat(ind + marker, PlainText(b.payload.richText.value));
    AppendAssoc(ind, marker, " ");
  }

  /** One whole line, prefixed. */
  lemma IndentOneLine(prefix: string, line: string)
    requires '\n' !in prefix && '\n' !in line
    ensures IndentEachLine(prefix, line + "\n") == prefix + line + "\n"
  {
    SplitLines1(line);
    var r := IndentEachLine(prefix, line + "\n");
    assert SplitLines(r) == [prefix + line];
    JoinLines1(prefix + line);
  }
}
