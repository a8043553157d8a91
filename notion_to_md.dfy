/**
 * The Python exporter's walker and its converter object (notion_to_md.py).
 * `WalkFrom`/`WalkBlock` specify `blocks_to_markdown`: blocks in order, an
 * image paired with the toggle after it, child pages queued rather than
 * inlined, tables rendered whole, and every other block rendered by
 * `handle_single_block` and then descended into one indent unit deeper.
 * The class `Converter` holds the queue and the seen-set and implements the
 * loops, each proved against these specifications.
 */
module NotionToMd {
  import opened Results
  import opened Text
  import opened Notion
  import opened Scheduler
  import opened NotionRender

  /** Block `i` is a toggle right after an image: the image took its text and it is skipped. */
  predicate PairedToggle(bs: seq<Block>, i: int) {
    0 < i < |bs| && bs[i - 1].kind == Image && bs[i].kind == Toggle
  }

  /** `blocks_to_markdown(bs, cur)` from block `i` on. */
  ghost function WalkFrom(env: Env, rank: string -> nat, processed: set<string>, bs: seq<Block>, cur: string, i: nat, bound: nat): Walked
    requires IsTree(env.notion, rank) && RankedBelow(bs, rank, bound) && i <= |bs|
    decreases bound, |bs| - i, 1
  {
    if i == |bs| then Walked(Ok(""), [])
    else
      var head := WalkBlock(env, rank, processed, bs, cur, i, bound);
      if head.out.Err? then head
      else Continue(head.out.value, head.found, WalkFrom(env, rank, processed, bs, cur, i + 1, bound))
  }

  /** One step of `blocks_to_markdown`: block `i`, at indent `cur` plus one unit. */
  ghost function WalkBlock(env: Env, rank: string -> nat, processed: set<string>, bs: seq<Block>, cur: string, i: nat, bound: nat): Walked
    requires IsTree(env.notion, rank) && RankedBelow(bs, rank, bound) && i < |bs|
    decreases bound, |bs| - i, 0
  {
    var b := bs[i];
    var indent := cur + env.indentUnit;
    if PairedToggle(bs, i) then Walked(Ok(""), [])
    else if b.kind == ChildPage then
      Walked(Ok(indent + ChildPageLink(b, "")), if b.id in processed then [] else [ChildPageRef(b)])
    else if b.kind == Image then
      var alt := if i + 1 < |bs| && bs[i + 1].kind == Toggle then ToggleContent(env, bs[i + 1].id, "") else Ok("");
      match alt
      case Err(e) => Walked(Err(e), [])
      case Ok(a) => Walked(Ok(HandleImage(env, b, a, indent)), [])
    else if b.kind == Table then Walked(TableBlock(env, b, indent), [])
    else
      match HandleSingleBlock(env, b, indent)
      case Err(e) => Walked(Err(e), [])
      case Ok(s) =>
        if !b.hasChildren then Walked(Ok(s), [])
        else
          match FirstPage(env.notion, b.id)
          case Err(e) => Walked(Err(e), [])
          case Ok(children) =>
            ChildrenRanked(env.notion, rank, b.id);
            var sub := WalkFrom(env, rank, processed, children, indent, 0, rank(b.id));
            Walked(Prepend(s, sub.out), sub.found)
  }

  /** `_convert_page` as the file contents it writes: the title heading, then the page's blocks. */
  ghost function ConvertSpec(env: Env, rank: string -> nat, page: PageRef, processed: set<string>): Conversion
    requires IsTree(env.notion, rank)
  {
    match AllBlocks(env.notion, page.id)
    case Err(e) => Conversion(Err(e), [])
    case Ok(blocks) =>
      ChildrenRanked(env.notion, rank, page.id);
      var w := WalkFrom(env, rank, processed, blocks, "", 0, rank(page.id));
      Conversion(Prepend("# " + page.title + "\n\n", w.out), w.found)
  }

  /** Every queued page is new to the run and is exported under its sanitized title. */
  ghost predicate Discoverable(found: seq<PageRef>, processed: set<string>) {
    forall j :: 0 <= j < |found| ==> found[j].id !in processed && found[j].fileName == SanitizeTitle(found[j].title) + ".md"
  }

  lemma DiscoverableAppend(a: seq<PageRef>, b: seq<PageRef>, processed: set<string>)
    requires Discoverable(a, processed) && Discoverable(b, processed)
    ensures Discoverable(a + b, processed)
  {
    forall j | 0 <= j < |a + b| ensures (a + b)[j].id !in processed && (a + b)[j].fileName == SanitizeTitle((a + b)[j].title) + ".md" {
      if j >= |a| { assert (a + b)[j] == b[j - |a|]; }
    }
  }

  /**
   * A walk queues only pages whose id was not exported when the page
   * conversion started, each under `<sanitized title>.md`.
   */
  lemma {:induction false} WalkQueuesNewPages(env: Env, rank: string -> nat, processed: set<string>, bs: seq<Block>, cur: string, i: nat, bound: nat)
    requires IsTree(env.notion, rank) && RankedBelow(bs, rank, bound) && i <= |bs|
    ensures Discoverable(WalkFrom(env, rank, processed, bs, cur, i, bound).found, processed)
    decreases bound, |bs| - i, 1
  {
    if i < |bs| {
      var head := WalkBlock(env, rank, processed, bs, cur, i, bound);
      BlockQueuesNewPages(env, rank, processed, bs, cur, i, bound);
      if head.out.Ok? {
        WalkQueuesNewPages(env, rank, processed, bs, cur, i + 1, bound);
        DiscoverableAppend(head.found, WalkFrom(env, rank, processed, bs, cur, i + 1, bound).found, processed);
      }
    }
  }

  lemma {:induction false} BlockQueuesNewPages(env: Env, rank: string -> nat, processed: set<string>, bs: seq<Block>, cur: string, i: nat, bound: nat)
    requires IsTree(env.notion, rank) && RankedBelow(bs, rank, bound) && i < |bs|
    ensures Discoverable(WalkBlock(env, rank, processed, bs, cur, i, bound).found, processed)
    decreases bound, |bs| - i, 0
  {
    var b := bs[i];
    var indent := cur + env.indentUnit;
    if !PairedToggle(bs, i) && b.kind != ChildPage && b.kind != Image && b.kind != Table
      && HandleSingleBlock(env, b, indent).Ok? && b.hasChildren && FirstPage(env.notion, b.id).Ok?
    {
      ChildrenRanked(env.notion, rank, b.id);
      WalkQueuesNewPages(env, rank, processed, FirstPage(env.notion, b.id).value, indent, 0, rank(b.id));
    }
  }

  /** The pages queued by blocks `i..j` taken one at a time. */
  ghost function FoundBetween(env: Env, rank: string -> nat, processed: set<string>, bs: seq<Block>, cur: string, i: nat, j: nat, bound: nat): seq<PageRef>
    requires IsTree(env.notion, rank) && RankedBelow(bs, rank, bound) && i <= j <= |bs|
    decreases j - i
  {
    if i == j then [] else WalkBlock(env, rank, processed, bs, cur, i, bound).found + FoundBetween(env, rank, processed, bs, cur, i + 1, j, bound)
  }

  /** Blocks `i..j` are walked without error. */
  ghost predicate Reached(env: Env, rank: string -> nat, processed: set<string>, bs: seq<Block>, cur: string, i: nat, j: nat, bound: nat)
    requires IsTree(env.notion, rank) && RankedBelow(bs, rank, bound) && i <= j <= |bs|
    decreases j - i
  {
    i == j || (WalkBlock(env, rank, processed, bs, cur, i, bound).out.Ok? && Reached(env, rank, processed, bs, cur, i + 1, j, bound))
  }

  /**
   * Every child page the walk reaches is queued unless it was exported when
   * the conversion started, in walk order: after the pages queued by the
   * blocks before it and before those queued by the blocks after it.
   */
  lemma {:induction false} WalkQueuesReachedChildPage(env: Env, rank: string -> nat, processed: set<string>, bs: seq<Block>, cur: string, i: nat, j: nat, bound: nat)
    requires IsTree(env.notion, rank) && RankedBelow(bs, rank, bound) && i <= j < |bs| && bs[j].kind == ChildPage
    requires Reached(env, rank, processed, bs, cur, i, j, bound)
    ensures var queued := if bs[j].id in processed then [] else [ChildPageRef(bs[j])];
      WalkFrom(env, rank, processed, bs, cur, i, bound).found
        == FoundBetween(env, rank, processed, bs, cur, i, j, bound) + queued + WalkFrom(env, rank, processed, bs, cur, j + 1, bound).found
    decreases j - i
  {
    var queued := if bs[j].id in processed then [] else [ChildPageRef(bs[j])];
    var rest := WalkFrom(env, rank, processed, bs, cur, j + 1, bound).found;
    var head := WalkBlock(env, rank, processed, bs, cur, i, bound);
    if i == j {
      assert head.out.Ok? && head.found == queued;
      assert [] + queued == queued;
    } else {
      WalkQueuesReachedChildPage(env, rank, processed, bs, cur, i + 1, j, bound);
      var between := FoundBetween(env, rank, processed, bs, cur, i + 1, j, bound);
      AppendAssoc(head.found, between + queued, rest);
      AppendAssoc(head.found, between, queued);
    }
  }

  /**
   * Numbered list items without children, one after the other: each is one
   * `1. text` line, whatever its position, carrying the indent twice.
   */
  lemma {:induction false} NumberedItemsInWalk(env: Env, rank: string -> nat, processed: set<string>, bs: seq<Block>, cur: string, i: nat, bound: nat)
    requires IsTree(env.notion, rank) && RankedBelow(bs, rank, bound) && i <= |bs|
    requires forall k :: i <= k < |bs| ==>
      bs[k].kind == NumberedListItem && !bs[k].hasChildren && bs[k].payload.richText.Some?
        && '\n' !in PlainText(bs[k].payload.richText.value)
    requires '\n' !in env.indentUnit && '\n' !in cur
    ensures var ind := env.indentUnit + (cur + env.indentUnit);
      var w := WalkFrom(env, rank, processed, bs, cur, i, bound);
      && w.out.Ok? && w.found == []
      && |SplitLines(w.out.value)| == |bs| - i
      && forall k :: i <= k < |bs| ==> SplitLines(w.out.value)[k - i] == ind + ind + "1. " + PlainText(bs[k].payload.richText.value)
    decreases |bs| - i
  {
    if i < |bs| {
      var ind := env.indentUnit + (cur + env.indentUnit);
      var line := ind + ind + "1. " + PlainText(bs[i].payload.richText.value);
      NumberedItemStep(env, rank, processed, bs, cur, i, bound);
      NumberedItemsInWalk(env, rank, processed, bs, cur, i + 1, bound);
      var rest := WalkFrom(env, rank, processed, bs, cur, i + 1, bound);
      SplitLinesCons(line, rest.out.value);
      var w := WalkFrom(env, rank, processed, bs, cur, i, bound);
      assert w == Continue(line + "\n", [], rest);
      AppendAssoc(line, "\n", rest.out.value);
      var lines := SplitLines(w.out.value);
      assert lines == [line] + SplitLines(rest.out.value);
      forall k | i <= k < |bs|
        ensures lines[k - i] == ind + ind + "1. " + PlainText(bs[k].payload.richText.value)
      {
        if k > i {
          ConsAt(line, SplitLines(rest.out.value), k - i);
        }
      }
    }
  }

  lemma NumberedItemStep(env: Env, rank: string -> nat, processed: set<string>, bs: seq<Block>, cur: string, i: nat, bound: nat)
    requires IsTree(env.notion, rank) && RankedBelow(bs, rank, bound) && i < |bs|
    requires bs[i].kind == NumberedListItem && !bs[i].hasChildren && bs[i].payload.richText.Some?
    requires '\n' !in PlainText(bs[i].payload.richText.value) && '\n' !in env.indentUnit && '\n' !in cur
    ensures var ind := env.indentUnit + (cur + env.indentUnit);
      var line := ind + ind + "1. " + PlainText(bs[i].payload.richText.value);
      WalkBlock(env, rank, processed, bs, cur, i, bound) == Walked(Ok(line + "\n"), []) && '\n' !in line
  {
    var indent := cur + env.indentUnit;
    var ind := env.indentUnit + indent;
    var text := PlainText(bs[i].payload.richText.value);
    assert '\n' !in ind;
    ListItemIndented(env, bs[i], indent);
    NoBreakConcat(ind, ind);
    NoBreakConcat(ind + ind, "1. ");
    NoBreakConcat(ind + ind + "1. ", text);
  }

  /**
   * An image followed by a toggle: the toggle's children give the alt text,
   * the toggle itself renders nothing, and the walk goes on after it.
   */
  lemma ImageTakesToggle(env: Env, rank: string -> nat, processed: set<string>, bs: seq<Block>, cur: string, i: nat, bound: nat)
    requires IsTree(env.notion, rank) && RankedBelow(bs, rank, bound)
    requires i + 1 < |bs| && bs[i].kind == Image && bs[i + 1].kind == Toggle
    ensures var w := WalkFrom(env, rank, processed, bs, cur, i, bound);
      match ToggleContent(env, bs[i + 1].id, "")
      case Err(e) => w == Walked(Err(e), [])
      case Ok(alt) => w == Continue(HandleImage(env, bs[i], alt, cur + env.indentUnit), [], WalkFrom(env, rank, processed, bs, cur, i + 2, bound))
  {
    assert !PairedToggle(bs, i);
    assert PairedToggle(bs, i + 1);
    var rest := WalkFrom(env, rank, processed, bs, cur, i + 2, bound);
    assert WalkFrom(env, rank, processed, bs, cur, i + 1, bound) == Continue("", [], rest);
    ContinueNothing(rest);
  }

  /**
   * One step of the walk: after block `i`, either the walk has failed with
   * that block's error, or its output and queued pages are appended.
   */
  lemma WalkAdvance(env: Env, rank: string -> nat, processed: set<string>, bs: seq<Block>, cur: string, i: nat, bound: nat,
                    md: string, found: seq<PageRef>, spec: Walked)
    requires IsTree(env.notion, rank) && RankedBelow(bs, rank, bound) && i < |bs|
    requires spec == Continue(md, found, WalkFrom(env, rank, processed, bs, cur, i, bound))
    ensures var head := WalkBlock(env, rank, processed, bs, cur, i, bound);
      && (head.out.Err? ==> spec == Walked(head.out, found + head.found))
      && (head.out.Ok? ==> spec == Continue(md + head.out.value, found + head.found, WalkFrom(env, rank, processed, bs, cur, i + 1, bound)))
  {
    var head := WalkBlock(env, rank, processed, bs, cur, i, bound);
    var rest := WalkFrom(env, rank, processed, bs, cur, i + 1, bound);
    if head.out.Ok? {
      match rest.out {
        case Ok(t) => assert md + (head.out.value + t) == md + head.out.value + t;
        case Err(_) =>
      }
      assert found + (head.found + rest.found) == found + head.found + rest.found;
    }
  }

  /** The toggles paired with an image among blocks `1..i`: those `blocks_to_markdown` skips. */
  ghost function Skipped(bs: seq<Block>, i: int): set<int> {
    set j | 0 < j <= i && PairedToggle(bs, j)
  }

  lemma SkippedStep(bs: seq<Block>, i: nat)
    requires i < |bs|
    ensures i in Skipped(bs, i) <==> PairedToggle(bs, i)
    ensures Skipped(bs, i + 1) == Skipped(bs, i) + (if PairedToggle(bs, i + 1) then {i + 1} else {})
  {
  }

  /**
   * The indent is applied twice to a heading without children: the walker
   * adds one unit to `cur`, `handle_single_block` adds another unit in front,
   * the handler starts its output with that indent and every line is then
   * prefixed with it again.
   */
  lemma HeadingIndentedTwice(env: Env, rank: string -> nat, processed: set<string>, h: Block, cur: string, bound: nat)
    requires IsTree(env.notion, rank)
    requires h.kind == Heading1 && !h.hasChildren && h.payload.richText.Some?
    requires '\n' !in env.indentUnit && '\n' !in cur && '\n' !in PlainText(h.payload.richText.value)
    ensures var ind := env.indentUnit + (cur + env.indentUnit);
      var w := WalkFrom(env, rank, processed, [h], cur, 0, bound);
      && w.out.Ok? && w.found == []
      && SplitLines(w.out.value) == [ind + ind, ind + "## " + PlainText(h.payload.richText.value), ind]
  {
    var indent := cur + env.indentUnit;
    assert RankedBelow([h], rank, bound);
    assert '\n' !in env.indentUnit + indent;
    HeadingLinesIndented(env, h, indent);
    var s := HandleSingleBlock(env, h, indent);
    assert WalkBlock(env, rank, processed, [h], cur, 0, bound) == Walked(Ok(s.value), []);
    assert WalkFrom(env, rank, processed, [h], cur, 1, bound) == Walked(Ok(""), []);
    assert s.value + "" == s.value;
  }

  /**
   * `NotionToMarkdownConverter`: the content source, the downloader and the
   * settings, the FIFO queue of pages to export, the ids exported so far,
   * and the files written. `rank` is a proof device: it witnesses that the
   * block content below every id is a finite tree.
   */
  class Converter {
    const notion: Client
    const download: Downloader
    const outputDir: string
    const indentUnit: string
    ghost const rank: string -> nat
    var queue: seq<PageRef>
    var processedIds: set<string>
    var written: seq<Export>

    constructor (notion: Client, download: Downloader, outputDir: string, indentUnit: string, ghost rank: string -> nat)
      ensures this.notion == notion && this.download == download
      ensures this.outputDir == outputDir && this.indentUnit == indentUnit && this.rank == rank
      ensures queue == [] && processedIds == {} && written == []
    {
      this.notion := notion;
      this.download := download;
      this.outputDir := outputDir;
      this.indentUnit := indentUnit;
      this.rank := rank;
      queue := [];
      processedIds := {};
      written := [];
    }

    function Settings(): Env {
      Env(notion, download, indentUnit, outputDir)
    }

    /** Page conversion as the scheduler sees it. */
    ghost function Convert(): ConvertFn {
      (page: PageRef, seen: set<string>) requires IsTree(notion, rank) => ConvertSpec(Settings(), rank, page, seen)
    }

    lemma ConvertIsTotal()
      requires IsTree(notion, rank)
      ensures Converts(Convert(), notion.Keys)
    {
      forall page: PageRef, seen: set<string>
        ensures Convert().requires(page, seen) && (Convert()(page, seen).content.Ok? ==> page.id in notion.Keys)
      {
        assert Convert()(page, seen) == ConvertSpec(Settings(), rank, page, seen);
      }
    }

    /**
     * `run`: queue the root page as `index`/`index.md`, then export pages
     * first in, first out, skipping ids already exported; an exception
     * raised while converting a page ends the run.
     */
    method Run(rootPageId: string) returns (r: Result<()>)
      requires IsTree(notion, rank)
      modifies this`queue, this`processedIds, this`written
      ensures Converts(Convert(), notion.Keys)
      ensures var s := Schedule(Convert(), notion.Keys, old(queue) + [PageRef(rootPageId, "index", "index.md")], old(processedIds));
        && r == s.result && written == old(written) + s.exports
        && queue == s.queue && processedIds == s.processed
    {
      ConvertIsTotal();
      ghost var convert := Convert();
      queue := queue + [PageRef(rootPageId, "index", "index.md")];
      ghost var goal := WithDone(written, Schedule(convert, notion.Keys, queue, processedIds));
      while queue != []
        invariant goal == WithDone(written, Schedule(convert, notion.Keys, queue, processedIds))
        decreases |notion.Keys - processedIds|, |queue|
      {
        var page := queue[0];
        if page.id in processedIds {
          ScheduleSkips(convert, notion.Keys, queue, processedIds);
          queue := queue[1..];
        } else {
          ghost var q := queue;
          ghost var c := ConvertSpec(Settings(), rank, page, processedIds);
          ConvertApply(page, processedIds);
          queue := queue[1..];
          var content := ConvertPage(page);
          if content.Err? {
            ScheduleConvertFails(convert, notion.Keys, q, processedIds, written, c);
            return Err(content.error);
          }
          ScheduleConverts(convert, notion.Keys, q, processedIds, written, c);
          written := written + [Export(page.id, page.fileName, content.value)];
          processedIds := processedIds + {page.id};
        }
      }
      r := Ok(());
      assert written + [] == written;
    }

    lemma ConvertApply(page: PageRef, seen: set<string>)
      requires IsTree(notion, rank)
      ensures Convert().requires(page, seen)
      ensures Convert()(page, seen) == ConvertSpec(Settings(), rank, page, seen)
    {
    }

    /** `_fetch_all_blocks`: follow the cursor from the first page until a page has no more. */
    method FetchAllBlocks(blockId: string) returns (r: Result<seq<Block>>)
      ensures r == AllBlocks(notion, blockId)
    {
      var blocks: seq<Block> := [];
      var cursor: Option<nat> := None;
      ghost var pages := if blockId in notion then notion[blockId] else [];
      PrependNothing(Pending(notion, blockId, cursor));
      while true
        invariant blockId in notion ==> CursorIndex(cursor) <= |pages|
        invariant AllBlocks(notion, blockId) == PrependBlocks(blocks, Pending(notion, blockId, cursor))
        decreases |pages| - CursorIndex(cursor)
      {
        var returnData := ListChildren(notion, blockId, cursor);
        if returnData.Err? {
          return Err(returnData.error);
        }
        PendingStep(notion, blocks, blockId, cursor);
        blocks := blocks + returnData.value.results;
        if !returnData.value.hasMore {
          break;
        }
        cursor := returnData.value.nextCursor;
      }
      r := Ok(blocks);
    }

    /** `_convert_page`: the contents of the page's file; the pages found are queued. */
    method ConvertPage(page: PageRef) returns (r: Result<string>)
      requires IsTree(notion, rank)
      modifies this`queue
      ensures var c := ConvertSpec(Settings(), rank, page, processedIds);
        r == c.content && queue == old(queue) + c.found
    {
      var blocks := FetchAllBlocks(page.id);
      if blocks.Err? {
        return Err(blocks.error);
      }
      ChildrenRanked(notion, rank, page.id);
      var markdownText := BlocksToMarkdown(blocks.value, "", rank(page.id));
      if markdownText.Err? {
        return Err(markdownText.error);
      }
      r := Ok("# " + page.title + "\n\n" + markdownText.value);
    }

    /** `blocks_to_markdown`, proved to compute `WalkFrom` and to queue what it finds. */
    method BlocksToMarkdown(blockList: seq<Block>, currentIndent: string, ghost bound: nat) returns (r: Result<string>)
      requires IsTree(notion, rank) && RankedBelow(blockList, rank, bound)
      modifies this`queue
      ensures var w := WalkFrom(Settings(), rank, processedIds, blockList, currentIndent, 0, bound);
        r == w.out && queue == old(queue) + w.found
      decreases bound, 1
    {
      var env := Settings();
      ghost var spec := WalkFrom(env, rank, processedIds, blockList, currentIndent, 0, bound);
      ghost var found: seq<PageRef> := [];
      var mdOutput := "";
      var skipIndices: set<int> := {};
      var i := 0;
      ContinueNothing(spec);
      while i < |blockList|
        invariant 0 <= i <= |blockList|
        invariant queue == old(queue) + found
        invariant skipIndices == Skipped(blockList, i)
        invariant spec == Continue(mdOutput, found, WalkFrom(env, rank, processedIds, blockList, currentIndent, i, bound))
      {
        ghost var head := WalkBlock(env, rank, processedIds, blockList, currentIndent, i, bound);
        WalkAdvance(env, rank, processedIds, blockList, currentIndent, i, bound, mdOutput, found, spec);
        SkippedStep(blockList, i);
        if i in skipIndices {
          assert head == Walked(Ok(""), []);
          assert mdOutput + "" == mdOutput && found + [] == found;
        } else {
          var piece := RenderBlockAt(blockList, i, currentIndent, bound);
          if piece.Err? {
            QueueStep(old(queue), found, head.found);
            return Err(piece.error);
          }
          if blockList[i].kind == Image && i + 1 < |blockList| && blockList[i + 1].kind == Toggle {
            skipIndices := skipIndices + {i + 1};
          }
          mdOutput := mdOutput + piece.value;
          QueueStep(old(queue), found, head.found);
          found := found + head.found;
        }
        i := i + 1;
      }
      r := Ok(mdOutput);
      assert mdOutput + "" == mdOutput && found + [] == found;
    }

    /**
     * The body of the `blocks_to_markdown` loop for a block that is not a
     * skipped toggle: a child page, an image (taking the next toggle's
     * text), a table, or any other block with its children at the deeper
     * indent.
     */
    method RenderBlockAt(blockList: seq<Block>, i: nat, currentIndent: string, ghost bound: nat) returns (r: Result<string>)
      requires IsTree(notion, rank) && RankedBelow(blockList, rank, bound) && i < |blockList|
      requires !PairedToggle(blockList, i)
      modifies this`queue
      ensures var head := WalkBlock(Settings(), rank, processedIds, blockList, currentIndent, i, bound);
        r == head.out && queue == old(queue) + head.found
      decreases bound, 0
    {
      var env := Settings();
      ghost var head := WalkBlock(env, rank, processedIds, blockList, currentIndent, i, bound);
      var indent := currentIndent + indentUnit;
      var block := blockList[i];
      if block.kind == ChildPage {
        var linkText := HandleChildPage(block, "");
        r := Ok(indent + linkText);
      } else if block.kind == Image {
        var altText := "";
        if i + 1 < |blockList| && blockList[i + 1].kind == Toggle {
          var t := GetToggleContent(blockList[i + 1].id, "");
          if t.Err? {
            return Err(t.error);
          }
          altText := t.value;
        }
        r := Ok(HandleImage(env, block, altText, indent));
      } else if block.kind == Table {
        r := HandleTableBlock(block, indent);
      } else {
        var s := HandleSingleBlock(env, block, indent);
        if s.Err? {
          return Err(s.error);
        }
        if !block.hasChildren {
          return s;
        }
        var resp := ListChildren(notion, block.id, None);
        if resp.Err? {
          return Err(resp.error);
        }
        ChildrenRanked(notion, rank, block.id);
        var sub := BlocksToMarkdown(resp.value.results, indent, rank(block.id));
        r := Prepend(s.value, sub);
      }
    }

    /** `_handle_child_page`: queue the page unless it was exported, and return its link line. */
    method HandleChildPage(block: Block, currentIndent: string) returns (linkText: string)
      modifies this`queue
      ensures queue == old(queue) + (if block.id in processedIds then [] else [ChildPageRef(block)])
      ensures linkText == ChildPageLink(block, currentIndent)
    {
      var title := block.payload.title;
      var pageId := block.id;
      var safeTitle := SanitizeTitle(title);
      var fileName := safeTitle + ".md";
      if pageId !in processedIds {
        queue := queue + [PageRef(pageId, title, fileName)];
      }
      linkText := currentIndent + "### 📄 [" + title + "](" + fileName + ")\n\n";
    }

    /** `_get_toggle_content`: the alt text made from a toggle's children. */
    method GetToggleContent(toggleBlockId: string, currentIndent: string) returns (r: Result<string>)
      ensures r == ToggleContent(Settings(), toggleBlockId, currentIndent)
    {
      var children := FetchAllBlocks(toggleBlockId);
      if children.Err? {
        return Err(children.error);
      }
      var texts: seq<string> := [];
      for i := 0 to |children.value|
        invariant texts == ToggleTexts(children.value[..i])
      {
        var child := children.value[i];
        assert children.value[..i + 1][..i] == children.value[..i];
        if child.payload.richText.Some? {
          texts := texts + [ExtractText(child.payload.richText)];
        }
      }
      assert children.value[..|children.value|] == children.value;
      r := Ok(currentIndent + " " + ReplaceChars(Join(texts, " "), {'\n'}, ' '));
    }

    /** `_handle_table_block`: fetch every row, then one line per row and the separator after row 0. */
    method HandleTableBlock(block: Block, currentIndent: string) returns (r: Result<string>)
      ensures r == TableBlock(Settings(), block, currentIndent)
    {
      var rows := FetchAllBlocks(block.id);
      if rows.Err? {
        return Err(rows.error);
      }
      if rows.value == [] {
        return Ok("");
      }
      var mdTable := "";
      var columnCount := block.payload.tableWidth;
      for i := 0 to |rows.value|
        invariant AllTableRows(rows.value[..i])
        invariant mdTable == TableRows(Cells(rows.value[..i]), columnCount, currentIndent)
      {
        var row := rows.value[i];
        TableRowsPrefix(rows.value, i);
        if row.kind != TableRow {
          return Err(MissingKey("table_row"));
        }
        TableRowsStep(rows.value, i, columnCount, currentIndent);
        var cellTexts := CellTexts(row.payload.cells);
        var formattedRow := currentIndent + "| " + Join(cellTexts, " | ") + " |\n";
        mdTable := mdTable + formattedRow;
        if i == 0 {
          var separator := currentIndent + "| " + Join(Repeat("---", columnCount), " | ") + " |\n";
          mdTable := mdTable + separator;
        }
      }
      assert rows.value[..|rows.value|] == rows.value;
      r := Ok(mdTable + "\n");
    }
  }

  /** Row `i` keeps the rows before it all table rows exactly when it is one. */
  lemma TableRowsPrefix(rows: seq<Block>, i: nat)
    requires i < |rows| && AllTableRows(rows[..i])
    ensures AllTableRows(rows[..i + 1]) <==> rows[i].kind == TableRow
    ensures rows[i].kind != TableRow ==> !AllTableRows(rows)
  {
    assert forall j :: 0 <= j < i ==> rows[..i + 1][j] == rows[..i][j];
    assert rows[..i + 1][i] == rows[i];
  }

  /** The table text after row `i` extends the text before it by that row's line (and the separator after row 0). */
  lemma TableRowsStep(rows: seq<Block>, i: nat, width: nat, indent: string)
    requires i < |rows|
    ensures var row := indent + "| " + Join(CellTexts(rows[i].payload.cells), " | ") + " |\n";
      var separator := indent + "| " + Join(Repeat("---", width), " | ") + " |\n";
      && (i == 0 ==> TableRows(Cells(rows[..i + 1]), width, indent) == TableRows(Cells(rows[..i]), width, indent) + row + separator)
      && (i != 0 ==> TableRows(Cells(rows[..i + 1]), width, indent) == TableRows(Cells(rows[..i]), width, indent) + row)
  {
    var cs := Cells(rows[..i + 1]);
    assert cs[..i] == Cells(rows[..i]);
    assert cs[i] == rows[i].payload.cells;
    var front := TableRows(Cells(rows[..i]), width, indent);
    var row := indent + "| " + Join(CellTexts(rows[i].payload.cells), " | ") + " |\n";
    assert RowText(cs[i], indent) + "\n" == row;
    if i == 0 {
      var separator := indent + "| " + Join(Repeat("---", width), " | ") + " |\n";
      assert SeparatorText(width, indent) + "\n" == separator;
      assert TableRows(cs, width, indent) == front + RowText(cs[i], indent) + "\n" + (SeparatorText(width, indent) + "\n");
    } else {
      assert TableRows(cs, width, indent) == front + RowText(cs[i], indent) + "\n" + "";
    }
  }
}
