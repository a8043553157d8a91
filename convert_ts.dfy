/**
 * The TypeScript port of the exporter (convert.ts): the same FIFO scheduler,
 * a smaller renderer without image/toggle pairing, tables or per-line
 * indentation, and a recursion into every block with children that fetches
 * all pages of the children. `TsWalkFrom`/`TsWalkBlock` specify
 * `blocksToMarkdown`; the class `Converter` implements the loops and is
 * proved against them.
 */
module ConvertTs {
  import opened Results
  import opened Text
  import opened Notion
  import opened Scheduler
  import NotionRender

  /** The keywords whose presence drops a heading or paragraph. */
  const TsSkipKeywords: seq<string> := ["トップページに戻る", "TOPへ戻る"]

  /** The indent unit is fixed to four spaces in this port. */
  const IndentUnit: string := "    "

  predicate HasTsSkipKeyword(text: string) {
    exists k :: 0 <= k < |TsSkipKeywords| && Contains(text, TsSkipKeywords[k])
  }

  /** Every text this port drops is dropped by the Python paragraph handler as well. */
  lemma TsKeywordsArePythonKeywords(text: string)
    ensures HasTsSkipKeyword(text) ==> NotionRender.HasSkipKeyword(text)
  {
    if HasTsSkipKeyword(text) {
      var k :| 0 <= k < |TsSkipKeywords| && Contains(text, TsSkipKeywords[k]);
      if k == 0 {
        assert TsSkipKeywords[0] == NotionRender.SkipKeywords[0];
      } else {
        assert TsSkipKeywords[1] == NotionRender.SkipKeywords[2];
      }
    }
  }

  // ---------- child pages ----------

  /** `!childTitle || childTitle.trim() === ""`: the page is skipped. */
  predicate BlankTitle(title: string) {
    Trim(title) == []
  }

  /** The file stem of a child page: illegal characters replaced by `_`, then trimmed. */
  function SafeTitle(title: string): string {
    Trim(NotionRender.SanitizeTitle(title))
  }

  /** Sanitizing keeps every position white space exactly when it was. */
  lemma SanitizeKeepsSpaces(title: string)
    ensures AllJsSpace(NotionRender.SanitizeTitle(title)) <==> AllJsSpace(title)
  {
    var safe := NotionRender.SanitizeTitle(title);
    forall i | 0 <= i < |title| ensures IsJsSpace(safe[i]) <==> IsJsSpace(title[i]) {
      if title[i] in NotionRender.IllegalTitleChars {
        assert safe[i] == '_';
      }
    }
  }

  /** The stem of a child page's file name is empty exactly when the title is blank. */
  lemma SafeTitleEmptyIffBlank(title: string)
    ensures SafeTitle(title) == [] <==> BlankTitle(title)
  {
    TrimBlank(NotionRender.SanitizeTitle(title));
    TrimBlank(title);
    SanitizeKeepsSpaces(title);
  }

  /** The stem of a child page's file name holds no character that is illegal in a file name. */
  lemma SafeTitleLegal(title: string)
    ensures forall i :: 0 <= i < |SafeTitle(title)| ==> SafeTitle(title)[i] !in NotionRender.IllegalTitleChars
  {
    var sanitized := NotionRender.SanitizeTitle(title);
    var r := SafeTitle(title);
    forall j | 0 <= j < |r| ensures r[j] !in NotionRender.IllegalTitleChars {
      assert r[j] == sanitized[LeadingSpaces(sanitized) + j];
    }
  }

  /** The queue entry for a child page. */
  function ChildPageEntry(b: Block): PageRef {
    PageRef(b.id, b.payload.title, SafeTitle(b.payload.title) + ".md")
  }

  /** The link a child page renders to. */
  function ChildPageLinkTs(b: Block): string {
    "\n\n### 📄 [" + b.payload.title + "](./" + SafeTitle(b.payload.title) + ".md)\n\n"
  }

  // ---------- the other blocks ----------

  /** The saved name of a file block: its caption with white-space runs as `_`, or its id, and `.pdf`. */
  function PdfName(b: Block): (name: string)
    ensures |name| >= 4 && name[|name| - 4..] == ".pdf"
    ensures var caption := ExtractText(b.payload.caption);
      && (caption == [] ==> name == b.id + ".pdf")
      && (caption != [] ==> name[..|name| - 4] != [] && forall i :: 0 <= i < |name| - 4 ==> !IsJsSpace(name[i]))
      && (caption != [] ==> name == UnderscoreSpaceRuns(caption) + ".pdf")
  {
    var caption := ExtractText(b.payload.caption);
    if caption != "" then UnderscoreSpaceRuns(caption) + ".pdf" else b.id + ".pdf"
  }

  /** The image line, written whatever the download gives. */
  function ImageLine(b: Block): string {
    "\n\n![image](images/" + b.id + ".png)\n\n"
  }

  /** The file link, written only after a successful download. */
  function PdfLink(name: string): string {
    "\n\n[📎 添付PDF: " + name + "](files/" + name + ")\n\n"
  }

  predicate IsTextKind(k: Kind) {
    k == Heading1 || k == Heading2 || k == Heading3 || k == Paragraph
  }

  function HeadingPrefix(k: Kind): string {
    match k
    case Heading1 => "## "
    case Heading2 => "### "
    case Heading3 => "#### "
    case _ => ""
  }

  /** What a block other than a child page contributes before its children. */
  function RenderTs(env: Env, b: Block): string {
    if b.kind == Image then ImageLine(b)
    else if b.kind == File then
      var name := PdfName(b);
      if env.download(b.payload.media.url, JoinPath(env.FileDir(), name)) then PdfLink(name) else ""
    else if IsTextKind(b.kind) then
      var text := ExtractText(b.payload.richText);
      if HasTsSkipKeyword(text) then "" else HeadingPrefix(b.kind) + text + "\n\n"
    else if b.kind == BulletedListItem then "* " + ExtractText(b.payload.richText) + "\n"
    else ""
  }

  /** An image renders the same line whatever the downloader answers. */
  lemma ImageIgnoresDownload(env: Env, b: Block, d: Downloader)
    requires b.kind == Image
    ensures RenderTs(env, b) == RenderTs(env.(download := d), b)
    ensures OccursAt(RenderTs(env, b), "](images/" + b.id + ".png)", 9)
  {
    var r := RenderTs(env, b);
    var link := "](images/" + b.id + ".png)";
    assert r == "\n\n![image" + link + "\n\n";
    assert r[9..9 + |link|] == link;
  }

  /**
   * A file block renders something exactly when its download succeeds, and
   * then a link whose target keeps the `.pdf` of the saved name.
   */
  lemma FileLinkOnSuccess(env: Env, b: Block)
    requires b.kind == File
    ensures var name := PdfName(b);
      && (RenderTs(env, b) != [] <==> env.download(b.payload.media.url, JoinPath(env.FileDir(), name)))
      && (RenderTs(env, b) != [] ==> OccursAt(RenderTs(env, b), "](files/" + name + ")", |RenderTs(env, b)| - |name| - 11))
  {
    var name := PdfName(b);
    var r := RenderTs(env, b);
    if r != [] {
      var tail := "](files/" + name + ")";
      var head := "\n\n[📎 添付PDF: " + name;
      assert r == head + tail + "\n\n";
      assert r[|head|..|head| + |tail|] == tail;
    }
  }

  /** A heading or paragraph renders nothing exactly when its text holds a keyword. */
  lemma TextDroppedIffKeyword(env: Env, b: Block)
    requires IsTextKind(b.kind)
    ensures RenderTs(env, b) == [] <==> HasTsSkipKeyword(ExtractText(b.payload.richText))
    ensures !HasTsSkipKeyword(ExtractText(b.payload.richText)) ==>
      StartsWith(RenderTs(env, b), HeadingPrefix(b.kind) + ExtractText(b.payload.richText))
  {
    var text := ExtractText(b.payload.richText);
    if !HasTsSkipKeyword(text) {
      var r := RenderTs(env, b);
      var line := HeadingPrefix(b.kind) + text;
      assert r == line + "\n\n";
      assert r[..|line|] == line;
    }
  }

  // ---------- the walker ----------

  /**
   * `blocksToMarkdown(bs, indent)` from block `i` on. The indent the port
   * threads through the recursion never reaches the output, so the
   * specification has none: `BlocksToMarkdown` below is proved to compute
   * this walk whatever indent it is given.
   */
  ghost function TsWalkFrom(env: Env, rank: string -> nat, processed: set<string>, bs: seq<Block>, i: nat, bound: nat): Walked
    requires IsTree(env.notion, rank) && RankedBelow(bs, rank, bound) && i <= |bs|
    decreases bound, |bs| - i, 1
  {
    if i == |bs| then Walked(Ok(""), [])
    else
      var head := TsWalkBlock(env, rank, processed, bs, i, bound);
      if head.out.Err? then head
      else Continue(head.out.value, head.found, TsWalkFrom(env, rank, processed, bs, i + 1, bound))
  }

  /**
   * One step of `blocksToMarkdown`: a child page with a title is queued
   * (unless exported) and linked; any other block is rendered and then,
   * when it has children, followed by all of its children.
   */
  ghost function TsWalkBlock(env: Env, rank: string -> nat, processed: set<string>, bs: seq<Block>, i: nat, bound: nat): Walked
    requires IsTree(env.notion, rank) && RankedBelow(bs, rank, bound) && i < |bs|
    decreases bound, |bs| - i, 0
  {
    var b := bs[i];
    if b.kind == ChildPage then
      if BlankTitle(b.payload.title) then Walked(Ok(""), [])
      else Walked(Ok(ChildPageLinkTs(b)), if b.id in processed then [] else [ChildPageEntry(b)])
    else
      var s := RenderTs(env, b);
      if !b.hasChildren then Walked(Ok(s), [])
      else
        match AllBlocks(env.notion, b.id)
        case Err(e) => Walked(Err(e), [])
        case Ok(children) =>
          ChildrenRanked(env.notion, rank, b.id);
          var sub := TsWalkFrom(env, rank, processed, children, 0, rank(b.id));
          Walked(Prepend(s, sub.out), sub.found)
  }

  /** `convertPage` as the file contents it writes: `# title`, an empty line, then the page's blocks. */
  ghost function TsConvertSpec(env: Env, rank: string -> nat, page: PageRef, processed: set<string>): Conversion
    requires IsTree(env.notion, rank)
  {
    match AllBlocks(env.notion, page.id)
    case Err(e) => Conversion(Err(e), [])
    case Ok(blocks) =>
      ChildrenRanked(env.notion, rank, page.id);
      var w := TsWalkFrom(env, rank, processed, blocks, 0, rank(page.id));
      Conversion(Prepend("# " + page.title + "\n\n", w.out), w.found)
  }

  /** Every queued page is new to the run and saved under a non-empty, sanitized, trimmed stem. */
  ghost predicate TsDiscoverable(found: seq<PageRef>, processed: set<string>) {
    forall j :: 0 <= j < |found| ==>
      && found[j].id !in processed
      && !BlankTitle(found[j].title)
      && found[j].fileName == SafeTitle(found[j].title) + ".md"
      && SafeTitle(found[j].title) != []
  }

  lemma TsDiscoverableAppend(a: seq<PageRef>, b: seq<PageRef>, processed: set<string>)
    requires TsDiscoverable(a, processed) && TsDiscoverable(b, processed)
    ensures TsDiscoverable(a + b, processed)
  {
    forall j | |a| <= j < |a + b| ensures (a + b)[j] == b[j - |a|] {
    }
  }

  /**
   * A walk queues only pages whose id was not exported when the page
   * conversion started, never one with a blank title, and each under
   * `<trimmed sanitized title>.md` with a non-empty stem.
   */
  lemma {:induction false} TsWalkQueuesNewPages(env: Env, rank: string -> nat, processed: set<string>, bs: seq<Block>, i: nat, bound: nat)
    requires IsTree(env.notion, rank) && RankedBelow(bs, rank, bound) && i <= |bs|
    ensures TsDiscoverable(TsWalkFrom(env, rank, processed, bs, i, bound).found, processed)
    decreases bound, |bs| - i, 1
  {
    if i < |bs| {
      var head := TsWalkBlock(env, rank, processed, bs, i, bound);
      TsBlockQueuesNewPages(env, rank, processed, bs, i, bound);
      if head.out.Ok? {
        var rest := TsWalkFrom(env, rank, processed, bs, i + 1, bound);
        TsWalkQueuesNewPages(env, rank, processed, bs, i + 1, bound);
        TsDiscoverableAppend(head.found, rest.found, processed);
        assert TsWalkFrom(env, rank, processed, bs, i, bound) == Continue(head.out.value, head.found, rest);
      }
    }
  }

  lemma {:induction false} TsBlockQueuesNewPages(env: Env, rank: string -> nat, processed: set<string>, bs: seq<Block>, i: nat, bound: nat)
    requires IsTree(env.notion, rank) && RankedBelow(bs, rank, bound) && i < |bs|
    ensures TsDiscoverable(TsWalkBlock(env, rank, processed, bs, i, bound).found, processed)
    decreases bound, |bs| - i, 0
  {
    var b := bs[i];
    var head := TsWalkBlock(env, rank, processed, bs, i, bound);
    if b.kind == ChildPage {
      if !BlankTitle(b.payload.title) && b.id !in processed {
        EntryDiscoverable(b, processed);
        assert head.found == [ChildPageEntry(b)];
      } else {
        assert head.found == [];
      }
    } else if b.hasChildren && AllBlocks(env.notion, b.id).Ok? {
      ChildrenRanked(env.notion, rank, b.id);
      TsWalkQueuesNewPages(env, rank, processed, AllBlocks(env.notion, b.id).value, 0, rank(b.id));
    } else {
      assert head.found == [];
    }
  }

  lemma EntryDiscoverable(b: Block, processed: set<string>)
    requires !BlankTitle(b.payload.title) && b.id !in processed
    ensures TsDiscoverable([ChildPageEntry(b)], processed)
  {
    SafeTitleEmptyIffBlank(b.payload.title);
  }

  /** The pages queued by blocks `i..j` taken one at a time. */
  ghost function TsFoundBetween(env: Env, rank: string -> nat, processed: set<string>, bs: seq<Block>, i: nat, j: nat, bound: nat): seq<PageRef>
    requires IsTree(env.notion, rank) && RankedBelow(bs, rank, bound) && i <= j <= |bs|
    decreases j - i
  {
    if i == j then [] else TsWalkBlock(env, rank, processed, bs, i, bound).found + TsFoundBetween(env, rank, processed, bs, i + 1, j, bound)
  }

  /** Blocks `i..j` are walked without error. */
  ghost predicate TsReached(env: Env, rank: string -> nat, processed: set<string>, bs: seq<Block>, i: nat, j: nat, bound: nat)
    requires IsTree(env.notion, rank) && RankedBelow(bs, rank, bound) && i <= j <= |bs|
    decreases j - i
  {
    i == j || (TsWalkBlock(env, rank, processed, bs, i, bound).out.Ok? && TsReached(env, rank, processed, bs, i + 1, j, bound))
  }

  /** What `blocksToMarkdown` queues for a child page: nothing when its title is blank or it was exported. */
  function QueuedFor(b: Block, processed: set<string>): seq<PageRef> {
    if BlankTitle(b.payload.title) || b.id in processed then [] else [ChildPageEntry(b)]
  }

  /**
   * Every child page the walk reaches is queued unless its title is blank or
   * it was exported when the conversion started, in walk order: after the
   * pages queued by the blocks before it and before those queued after it.
   */
  lemma TsWalkQueuesReachedChildPage(env: Env, rank: string -> nat, processed: set<string>, bs: seq<Block>, i: nat, j: nat, bound: nat)
    requires IsTree(env.notion, rank) && RankedBelow(bs, rank, bound) && i <= j < |bs| && bs[j].kind == ChildPage
    requires TsReached(env, rank, processed, bs, i, j, bound)
    ensures TsWalkFrom(env, rank, processed, bs, i, bound).found
      == TsFoundBetween(env, rank, processed, bs, i, j, bound) + QueuedFor(bs[j], processed) + TsWalkFrom(env, rank, processed, bs, j + 1, bound).found
  {
    TsWalkFoundSplit(env, rank, processed, bs, i, j, bound);
    TsChildPageFound(env, rank, processed, bs, j, bound);
    TsWalkStepFound(env, rank, processed, bs, j, bound);
    AppendAssoc(TsFoundBetween(env, rank, processed, bs, i, j, bound), QueuedFor(bs[j], processed), TsWalkFrom(env, rank, processed, bs, j + 1, bound).found);
  }

  /** Blocks `i..j` walked without error: the pages they queue come first. */
  lemma {:induction false} TsWalkFoundSplit(env: Env, rank: string -> nat, processed: set<string>, bs: seq<Block>, i: nat, j: nat, bound: nat)
    requires IsTree(env.notion, rank) && RankedBelow(bs, rank, bound) && i <= j <= |bs|
    requires TsReached(env, rank, processed, bs, i, j, bound)
    ensures TsWalkFrom(env, rank, processed, bs, i, bound).found
      == TsFoundBetween(env, rank, processed, bs, i, j, bound) + TsWalkFrom(env, rank, processed, bs, j, bound).found
    decreases j - i
  {
    var rest := TsWalkFrom(env, rank, processed, bs, j, bound).found;
    if i == j {
      assert [] + rest == rest;
    } else {
      TsWalkFoundSplit(env, rank, processed, bs, i + 1, j, bound);
      TsWalkStepFound(env, rank, processed, bs, i, bound);
      AppendAssoc(TsWalkBlock(env, rank, processed, bs, i, bound).found, TsFoundBetween(env, rank, processed, bs, i + 1, j, bound), rest);
    }
  }

  lemma TsWalkStepFound(env: Env, rank: string -> nat, processed: set<string>, bs: seq<Block>, i: nat, bound: nat)
    requires IsTree(env.notion, rank) && RankedBelow(bs, rank, bound) && i < |bs|
    requires TsWalkBlock(env, rank, processed, bs, i, bound).out.Ok?
    ensures TsWalkFrom(env, rank, processed, bs, i, bound).found
      == TsWalkBlock(env, rank, processed, bs, i, bound).found + TsWalkFrom(env, rank, processed, bs, i + 1, bound).found
  {
  }

  lemma TsChildPageFound(env: Env, rank: string -> nat, processed: set<string>, bs: seq<Block>, i: nat, bound: nat)
    requires IsTree(env.notion, rank) && RankedBelow(bs, rank, bound) && i < |bs| && bs[i].kind == ChildPage
    ensures TsWalkBlock(env, rank, processed, bs, i, bound).out.Ok?
    ensures TsWalkBlock(env, rank, processed, bs, i, bound).found == QueuedFor(bs[i], processed)
  {
  }

  /** A child page renders and queues nothing exactly when its title is blank. */
  lemma ChildPageSkippedIffBlank(env: Env, rank: string -> nat, processed: set<string>, bs: seq<Block>, i: nat, bound: nat)
    requires IsTree(env.notion, rank) && RankedBelow(bs, rank, bound) && i < |bs| && bs[i].kind == ChildPage
    ensures var head := TsWalkBlock(env, rank, processed, bs, i, bound);
      && head.out.Ok?
      && (head.out.value == [] <==> BlankTitle(bs[i].payload.title))
      && (head.found == [] <==> BlankTitle(bs[i].payload.title) || bs[i].id in processed)
  {
  }

  /**
   * One step of the walk: after block `i`, either the walk has failed with
   * that block's error, or its output and queued pages are appended.
   */
  lemma TsWalkAdvance(env: Env, rank: string -> nat, processed: set<string>, bs: seq<Block>, i: nat, bound: nat,
                      md: string, found: seq<PageRef>, spec: Walked)
    requires IsTree(env.notion, rank) && RankedBelow(bs, rank, bound) && i < |bs|
    requires spec == Continue(md, found, TsWalkFrom(env, rank, processed, bs, i, bound))
    ensures var head := TsWalkBlock(env, rank, processed, bs, i, bound);
      && (head.out.Err? ==> spec == Walked(head.out, found + head.found))
      && (head.out.Ok? ==> spec == Continue(md + head.out.value, found + head.found, TsWalkFrom(env, rank, processed, bs, i + 1, bound)))
  {
    var head := TsWalkBlock(env, rank, processed, bs, i, bound);
    var rest := TsWalkFrom(env, rank, processed, bs, i + 1, bound);
    if head.out.Ok? {
      match rest.out {
        case Ok(t) => assert md + (head.out.value + t) == md + head.out.value + t;
        case Err(_) =>
      }
      assert found + (head.found + rest.found) == found + head.found + rest.found;
    }
  }

  /**
   * `NotionToMarkdownConverter` of the TypeScript port: the content source,
   * the downloader, the output directory, the FIFO queue, the ids exported
   * so far and the files written. `rank` is a proof device: it witnesses
   * that the block content below every id is a finite tree.
   */
  class Converter {
    const notion: Client
    const download: Downloader
    const outputDir: string
    ghost const rank: string -> nat
    var queue: seq<PageRef>
    var processedIds: set<string>
    var written: seq<Export>

    constructor (notion: Client, download: Downloader, outputDir: string, ghost rank: string -> nat)
      ensures this.notion == notion && this.download == download && this.outputDir == outputDir && this.rank == rank
      ensures queue == [] && processedIds == {} && written == []
    {
      this.notion := notion;
      this.download := download;
      this.outputDir := outputDir;
      this.rank := rank;
      queue := [];
      processedIds := {};
      written := [];
    }

    function Settings(): Env {
      Env(notion, download, IndentUnit, outputDir)
    }

    /** Page conversion as the scheduler sees it. */
    ghost function Convert(): ConvertFn {
      (page: PageRef, seen: set<string>) requires IsTree(notion, rank) => TsConvertSpec(Settings(), rank, page, seen)
    }

    lemma ConvertIsTotal()
      requires IsTree(notion, rank)
      ensures Converts(Convert(), notion.Keys)
    {
      forall page: PageRef, seen: set<string>
        ensures Convert().requires(page, seen) && (Convert()(page, seen).content.Ok? ==> page.id in notion.Keys)
      {
        assert Convert()(page, seen) == TsConvertSpec(Settings(), rank, page, seen);
      }
    }

    lemma ConvertApply(page: PageRef, seen: set<string>)
      requires IsTree(notion, rank)
      ensures Convert().requires(page, seen)
      ensures Convert()(page, seen) == TsConvertSpec(Settings(), rank, page, seen)
    {
    }

    /**
     * `run`: queue the root page as `index`/`index.md`, then export pages
     * first in, first out, skipping ids already exported; a rejected
     * conversion ends the run.
     */
    method Run(rootPageId: string) returns (r: Result<()>)
      requires IsTree(notion, rank)
      modifies this`queue, this`processedIds, this`written
      ensures Converts(Convert(), notion.Keys)
      ensures var s := Schedule(Convert(), notion.Keys, old(queue) + [PageRef(rootPageId, "index", "index.md")], old(processedIds));
        && r == s.result && written == old(written) + s.exports
        && queue == s.queue && processedIds == s.processed
    {
      ConvertIsTotal();
      ghost var convert := Convert();
      queue := queue + [PageRef(rootPageId, "index", "index.md")];
      ghost var goal := WithDone(written, Schedule(convert, notion.Keys, queue, processedIds));
      while queue != []
        invariant goal == WithDone(written, Schedule(convert, notion.Keys, queue, processedIds))
        decreases |notion.Keys - processedIds|, |queue|
      {
        var page := queue[0];
        if page.id in processedIds {
          ScheduleSkips(convert, notion.Keys, queue, processedIds);
          queue := queue[1..];
        } else {
          ghost var q := queue;
          ghost var c := TsConvertSpec(Settings(), rank, page, processedIds);
          ConvertApply(page, processedIds);
          queue := queue[1..];
          var content := ConvertPage(page);
          if content.Err? {
            ScheduleConvertFails(convert, notion.Keys, q, processedIds, written, c);
            return Err(content.error);
          }
          ScheduleConverts(convert, notion.Keys, q, processedIds, written, c);
          written := written + [Export(page.id, page.fileName, content.value)];
          processedIds := processedIds + {page.id};
        }
      }
      r := Ok(());
      assert written + [] == written;
    }

    /** `fetchAllBlocks`: follow the cursor from the first page until a page has no more. */
    method FetchAllBlocks(blockId: string) returns (r: Result<seq<Block>>)
      ensures r == AllBlocks(notion, blockId)
    {
      var blocks: seq<Block> := [];
      var cursor: Option<nat> := None;
      ghost var pages := if blockId in notion then notion[blockId] else [];
      PrependNothing(Pending(notion, blockId, cursor));
      while true
        invariant blockId in notion ==> CursorIndex(cursor) <= |pages|
        invariant AllBlocks(notion, blockId) == PrependBlocks(blocks, Pending(notion, blockId, cursor))
        decreases |pages| - CursorIndex(cursor)
      {
        var response := ListChildren(notion, blockId, cursor);
        if response.Err? {
          return Err(response.error);
        }
        PendingStep(notion, blocks, blockId, cursor);
        blocks := blocks + response.value.results;
        if !response.value.hasMore {
          break;
        }
        cursor := response.value.nextCursor;
      }
      r := Ok(blocks);
    }

    /** `convertPage`: the contents of the page's file; the pages found are queued. */
    method ConvertPage(page: PageRef) returns (r: Result<string>)
      requires IsTree(notion, rank)
      modifies this`queue
      ensures var c := TsConvertSpec(Settings(), rank, page, processedIds);
        r == c.content && queue == old(queue) + c.found
    {
      var blocks := FetchAllBlocks(page.id);
      if blocks.Err? {
        return Err(blocks.error);
      }
      ChildrenRanked(notion, rank, page.id);
      var markdownText := BlocksToMarkdown(blocks.value, "", rank(page.id));
      if markdownText.Err? {
        return Err(markdownText.error);
      }
      r := Ok("# " + page.title + "\n\n" + markdownText.value);
    }

    /**
     * The `child_page` branch of `blocksToMarkdown`: a blank title is skipped;
     * otherwise the page is queued unless exported, and linked.
     */
    method HandleChildPage(block: Block) returns (link: string)
      requires block.kind == ChildPage
      modifies this`queue
      ensures BlankTitle(block.payload.title) ==> link == [] && queue == old(queue)
      ensures !BlankTitle(block.payload.title) ==>
        && link == ChildPageLinkTs(block)
        && queue == old(queue) + (if block.id in processedIds then [] else [ChildPageEntry(block)])
    {
      var childTitle := block.payload.title;
      if Trim(childTitle) == "" {
        return "";
      }
      var safeTitle := Trim(NotionRender.SanitizeTitle(childTitle));
      var fileName := safeTitle + ".md";
      if block.id !in processedIds {
        queue := queue + [PageRef(block.id, childTitle, fileName)];
      }
      link := "\n\n### 📄 [" + childTitle + "](./" + fileName + ")\n\n";
    }

    /**
     * The image, file, heading, paragraph and bulleted-item branches of
     * `blocksToMarkdown`; images and files are handed to the downloader.
     */
    method RenderBlock(block: Block) returns (s: string)
      ensures s == RenderTs(Settings(), block)
    {
      var env := Settings();
      s := "";
      if block.kind == Image {
        var fileName := block.id + ".png";
        var filePath := JoinPath(env.ImageDir(), fileName);
        var success := download(block.payload.media.url, filePath);
        s := "\n\n![image](images/" + fileName + ")\n\n";
      } else if block.kind == File {
        var caption := ExtractText(block.payload.caption);
        var fileName := if caption != "" then UnderscoreSpaceRuns(caption) + ".pdf" else block.id + ".pdf";
        var filePath := JoinPath(env.FileDir(), fileName);
        var success := download(block.payload.media.url, filePath);
        if success {
          s := "\n\n[📎 添付PDF: " + fileName + "](files/" + fileName + ")\n\n";
        }
      } else if IsTextKind(block.kind) {
        var text := ExtractText(block.payload.richText);
        var prefix := if block.kind == Heading1 then "## "
          else if block.kind == Heading2 then "### "
          else if block.kind == Heading3 then "#### "
          else "";
        if !HasTsSkipKeyword(text) {
          s := prefix + text + "\n\n";
        }
      } else if block.kind == BulletedListItem {
        var text := ExtractText(block.payload.richText);
        s := "* " + text + "\n";
      }
    }

    /**
     * `blocksToMarkdown`, proved to compute `TsWalkFrom` and to queue what it
     * finds; neither depends on `currentIndent`.
     */
    method BlocksToMarkdown(blockList: seq<Block>, currentIndent: string, ghost bound: nat) returns (r: Result<string>)
      requires IsTree(notion, rank) && RankedBelow(blockList, rank, bound)
      modifies this`queue
      ensures var w := TsWalkFrom(Settings(), rank, processedIds, blockList, 0, bound);
        r == w.out && queue == old(queue) + w.found
      decreases bound
    {
      var env := Settings();
      ghost var spec := TsWalkFrom(env, rank, processedIds, blockList, 0, bound);
      ghost var found: seq<PageRef> := [];
      var mdOutput := "";
      var indent := currentIndent + IndentUnit;
      ContinueNothing(spec);
      for i := 0 to |blockList|
        invariant queue == old(queue) + found
        invariant spec == Continue(mdOutput, found, TsWalkFrom(env, rank, processedIds, blockList, i, bound))
      {
        var block := blockList[i];
        ghost var head := TsWalkBlock(env, rank, processedIds, blockList, i, bound);
        TsWalkAdvance(env, rank, processedIds, blockList, i, bound, mdOutput, found, spec);
        ghost var before := queue;
        ghost var md0 := mdOutput;
        if block.kind == ChildPage {
          var link := HandleChildPage(block);
          mdOutput := mdOutput + link;
          assert head == Walked(Ok(link), queue[|before|..]);
        } else {
          var s := RenderBlock(block);
          mdOutput := mdOutput + s;
          if block.hasChildren {
            var children := FetchAllBlocks(block.id);
            if children.Err? {
              assert head == Walked(Err(children.error), []);
              assert found + [] == found;
              return Err(children.error);
            }
            ChildrenRanked(notion, rank, block.id);
            var sub := BlocksToMarkdown(children.value, indent, rank(block.id));
            assert head == Walked(Prepend(s, sub), queue[|before|..]);
            if sub.Err? {
              QueueStep(old(queue), found, head.found);
              return Err(sub.error);
            }
            AppendAssoc(md0, s, sub.value);
            mdOutput := mdOutput + sub.value;
            assert head.out == Ok(s + sub.value);
          } else {
            assert head == Walked(Ok(s), []);
          }
        }
        assert head.out == Ok(mdOutput[|md0|..]) && mdOutput == md0 + mdOutput[|md0|..];
        assert queue == before + head.found;
        QueueStep(old(queue), found, head.found);
        found := found + head.found;
      }
      r := Ok(mdOutput);
      assert mdOutput + "" == mdOutput && found + [] == found;
    }
  }
}
