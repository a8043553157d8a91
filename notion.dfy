/**
 * The content source as the exporter sees it: blocks with a kind tag and a
 * payload, rich-text spans, and the paginated "list block children" call,
 * abstracted as a finite map from a block id to its pages of results.
 */
module Notion {
  import opened Results

  /** One rich-text fragment; only its plain text is ever read. */
  datatype Span = Span(plainText: string)

  /** The `icon` of a callout: an emoji icon (whose "emoji" key may be absent) or another kind of icon. */
  datatype Icon = EmojiIcon(emoji: Option<string>) | OtherIcon(iconType: string)

  /** Where an image or file is stored: on the content source or at an external URL. */
  datatype Media = Hosted(url: string) | External(url: string)

  /**
   * The `type` tag of a block. `Other` is every tag the exporters do not
   * name; a block whose tag is named (`paragraph`, `heading_1`, ...) is
   * always given that tag's own constructor, never `Other`, so the model
   * has one way to write each block.
   */
  datatype Kind =
    | Heading1 | Heading2 | Heading3 | Paragraph
    | BulletedListItem | NumberedListItem | Callout
    | ColumnList | Column | File | Table | TableRow | Divider
    | ChildPage | Image | Toggle | Code
    | Other(tag: string)

  /**
   * The kind-specific object `block[block["type"]]`, flattened: each field is
   * read only for the kinds that carry it. An optional field is `None` when
   * the key is absent.
   */
  datatype Payload = Payload(
    richText: Option<seq<Span>>,   // "rich_text"
    caption: Option<seq<Span>>,    // "caption" (file, code)
    title: string,                 // "title" (child_page)
    icon: Option<Icon>,            // "icon" (callout); None when absent or not an object
    tableWidth: nat,               // "table_width" (table)
    cells: seq<seq<Span>>,         // "cells" (table_row)
    language: Option<string>,      // "language" (code)
    media: Media                   // "file" / "external" (image, file)
  )

  datatype Block = Block(id: string, kind: Kind, payload: Payload, hasChildren: bool)

  /** One response page of the children listing, as stored by the source. */
  datatype ResultPage = ResultPage(results: seq<Block>, hasMore: bool)

  /** The content source: for each block (or page) id, its children in pages. */
  type Client = map<string, seq<ResultPage>>

  /** The answer to one listing call; a cursor is the index of the page it resumes at. */
  datatype Response = Response(results: seq<Block>, hasMore: bool, nextCursor: Option<nat>)

  /** A binary download: URL and save path in, success flag out. */
  type Downloader = (string, string) -> bool

  /** What a converter is built from: the content source, the downloader and its settings. */
  datatype Env = Env(notion: Client, download: Downloader, indentUnit: string, outputDir: string)
  {
    function ImageDir(): string { JoinPath(outputDir, "images") }
    function FileDir(): string { JoinPath(outputDir, "files") }
  }

  /** `os.path.join(dir, name)` for two POSIX path components. */
  function JoinPath(dir: string, name: string): (r: string)
    ensures name != [] && name[0] != '/' && dir != [] && dir[|dir| - 1] != '/' ==> r == dir + "/" + name
  {
    if name != [] && name[0] == '/' then name
    else if dir == [] || dir[|dir| - 1] == '/' then dir + name
    else dir + "/" + name
  }

  function CursorIndex(cursor: Option<nat>): nat {
    if cursor.None? then 0 else cursor.value
  }

  /**
   * `blocks.children.list(block_id, start_cursor)`: the page the cursor
   * points at; an unknown id or a cursor past the last page is an error.
   */
  function ListChildren(client: Client, blockId: string, startCursor: Option<nat>): Result<Response> {
    var k := CursorIndex(startCursor);
    if blockId !in client || k >= |client[blockId]| then Err(ListFailed(blockId))
    else
      var page := client[blockId][k];
      Ok(Response(page.results, page.hasMore, if page.hasMore then Some(k + 1) else None))
  }

  /** The results of a single listing call without a cursor: the first page only. */
  function FirstPage(client: Client, blockId: string): Result<seq<Block>> {
    match ListChildren(client, blockId, None)
    case Ok(resp) => Ok(resp.results)
    case Err(e) => Err(e)
  }

  /** The results of the given pages, concatenated in order. */
  function Flatten(pages: seq<ResultPage>): seq<Block>
    decreases |pages|
  {
    if pages == [] then [] else pages[0].results + Flatten(pages[1..])
  }

  /** Page `k` is the first page at or after `start` whose `has_more` is false. */
  predicate StopsAt(pages: seq<ResultPage>, start: nat, k: nat) {
    start <= k < |pages| && !pages[k].hasMore && forall j :: start <= j < k ==> pages[j].hasMore
  }

  /** The results of pages `start`, `start + 1`, ... up to the first that has no more. */
  function CollectFrom(blockId: string, pages: seq<ResultPage>, start: nat): Result<seq<Block>>
    decreases |pages| - start
  {
    if start >= |pages| then Err(ListFailed(blockId))
    else if !pages[start].hasMore then Ok(pages[start].results)
    else match CollectFrom(blockId, pages, start + 1)
      case Ok(rest) => Ok(pages[start].results + rest)
      case Err(e) => Err(e)
  }

  /** What a paginated fetch of all children of `blockId` yields. */
  function AllBlocks(client: Client, blockId: string): Result<seq<Block>> {
    if blockId !in client then Err(ListFailed(blockId)) else CollectFrom(blockId, client[blockId], 0)
  }

  lemma {:induction false} CollectFromShape(blockId: string, pages: seq<ResultPage>, start: nat)
    ensures CollectFrom(blockId, pages, start).Ok? <==> exists k :: StopsAt(pages, start, k)
    ensures forall k :: StopsAt(pages, start, k) ==>
      CollectFrom(blockId, pages, start) == Ok(Flatten(pages[start..k + 1]))
    decreases |pages| - start
  {
    if start < |pages| {
      if !pages[start].hasMore {
        assert StopsAt(pages, start, start);
        forall k | StopsAt(pages, start, k)
          ensures CollectFrom(blockId, pages, start) == Ok(Flatten(pages[start..k + 1]))
        {
          assert k == start;
          assert pages[start..k + 1] == [pages[start]];
          assert Flatten([pages[start]]) == pages[start].results + Flatten([]);
          assert Flatten([pages[start]]) == pages[start].results;
          assert CollectFrom(blockId, pages, start) == Ok(pages[start].results);
        }
      } else {
        CollectFromShape(blockId, pages, start + 1);
        forall k | StopsAt(pages, start, k)
          ensures StopsAt(pages, start + 1, k)
          ensures CollectFrom(blockId, pages, start) == Ok(Flatten(pages[start..k + 1]))
        {
          assert k != start;
          assert StopsAt(pages, start + 1, k);
          assert pages[start..k + 1][1..] == pages[start + 1..k + 1];
          assert Flatten(pages[start..k + 1]) == pages[start].results + Flatten(pages[start + 1..k + 1]);
          assert CollectFrom(blockId, pages, start + 1) == Ok(Flatten(pages[start + 1..k + 1]));
        }
        if CollectFrom(blockId, pages, start).Ok? {
          var k :| StopsAt(pages, start + 1, k);
          assert StopsAt(pages, start, k);
        }
      }
    }
  }

  /**
   * A fetch of all children succeeds exactly when the id is known and some
   * page has `has_more` false; it then yields the results of every page up
   * to and including the first such page, in order.
   */
  lemma AllBlocksShape(client: Client, blockId: string)
    ensures AllBlocks(client, blockId).Ok? <==> blockId in client && exists k :: StopsAt(client[blockId], 0, k)
    ensures forall k :: blockId in client && StopsAt(client[blockId], 0, k) ==>
      AllBlocks(client, blockId) == Ok(Flatten(client[blockId][..k + 1]))
  {
    if blockId in client {
      CollectFromShape(blockId, client[blockId], 0);
      assert forall k :: 0 <= k <= |client[blockId]| ==> client[blockId][0..k] == client[blockId][..k];
    }
  }

  /** The plain texts of the spans, concatenated in order. */
  function PlainText(spans: seq<Span>): string
    decreases |spans|
  {
    if spans == [] then "" else spans[0].plainText + PlainText(spans[1..])
  }

  /** Concatenating span lists concatenates their plain texts: the order of spans is kept. */
  lemma {:induction false} PlainTextAppend(a: seq<Span>, b: seq<Span>)
    ensures PlainText(a + b) == PlainText(a) + PlainText(b)
    decreases |a|
  {
    if a != [] {
      assert (a + b)[0] == a[0];
      assert (a + b)[1..] == a[1..] + b;
      PlainTextAppend(a[1..], b);
      calc {
        PlainText(a + b);
        a[0].plainText + PlainText(a[1..] + b);
        a[0].plainText + (PlainText(a[1..]) + PlainText(b));
        (a[0].plainText + PlainText(a[1..])) + PlainText(b);
        PlainText(a) + PlainText(b);
      }
    } else {
      assert a + b == b;
    }
  }

  /** `extract_text`: the plain text of a rich-text array, "" when it is absent or empty. */
  function ExtractText(richText: Option<seq<Span>>): (r: string)
    ensures richText == None || richText == Some([]) ==> r == ""
    ensures forall s :: richText == Some([Span(s)]) ==> r == s
  {
    match richText
    case None => ""
    case Some(spans) =>
      assert forall s :: PlainText([Span(s)]) == s + PlainText([]);
      PlainText(spans)
  }

  /** The walkers descend into the children of such a block (never into a child page). */
  predicate Descends(b: Block) {
    b.hasChildren && b.kind != ChildPage
  }

  /** Every block of `bs` that the walkers descend into has a rank below `bound`. */
  ghost predicate RankedBelow(bs: seq<Block>, rank: string -> nat, bound: nat) {
    forall j :: 0 <= j < |bs| && Descends(bs[j]) ==> rank(bs[j].id) < bound
  }

  /**
   * The content below every id is a finite tree: a block that is descended
   * into ranks below the id whose listing contains it. Child pages are not
   * constrained, so the pages may link to each other in cycles.
   */
  ghost predicate IsTree(client: Client, rank: string -> nat) {
    forall id, k :: id in client && 0 <= k < |client[id]| ==> RankedBelow(client[id][k].results, rank, rank(id))
  }

  lemma {:induction false} CollectFromRanked(client: Client, rank: string -> nat, blockId: string, start: nat)
    requires IsTree(client, rank) && blockId in client
    ensures CollectFrom(blockId, client[blockId], start).Ok? ==>
      RankedBelow(CollectFrom(blockId, client[blockId], start).value, rank, rank(blockId))
    decreases |client[blockId]| - start
  {
    var pages := client[blockId];
    if start < |pages| {
      assert RankedBelow(pages[start].results, rank, rank(blockId));
      if pages[start].hasMore {
        CollectFromRanked(client, rank, blockId, start + 1);
      }
    }
  }

  /** On a tree, all the children of `blockId` rank below it, whether fetched in full or one page. */
  lemma ChildrenRanked(client: Client, rank: string -> nat, blockId: string)
    requires IsTree(client, rank)
    ensures AllBlocks(client, blockId).Ok? ==> RankedBelow(AllBlocks(client, blockId).value, rank, rank(blockId))
    ensures FirstPage(client, blockId).Ok? ==> RankedBelow(FirstPage(client, blockId).value, rank, rank(blockId))
  {
    if blockId in client {
      CollectFromRanked(client, rank, blockId, 0);
      if |client[blockId]| > 0 {
        assert RankedBelow(client[blockId][0].results, rank, rank(blockId));
      }
    }
  }

  /** What a paginated fetch still yields from `cursor` on. */
  function Pending(client: Client, blockId: string, cursor: Option<nat>): Result<seq<Block>> {
    if blockId !in client then Err(ListFailed(blockId)) else CollectFrom(blockId, client[blockId], CursorIndex(cursor))
  }

  /** `blocks` fetched so far, followed by what is still to come. */
  function PrependBlocks(blocks: seq<Block>, r: Result<seq<Block>>): Result<seq<Block>> {
    match r
    case Ok(more) => Ok(blocks + more)
    case Err(e) => Err(e)
  }

  lemma PrependNothing(r: Result<seq<Block>>)
    ensures PrependBlocks([], r) == r
  {
    if r.Ok? {
      assert [] + r.value == r.value;
    }
  }

  /** One listing call: its results come next, and the rest follows from the cursor it returns. */
  lemma PendingStep(client: Client, blocks: seq<Block>, blockId: string, cursor: Option<nat>)
    requires ListChildren(client, blockId, cursor).Ok?
    ensures var resp := ListChildren(client, blockId, cursor).value;
      && (!resp.hasMore ==> PrependBlocks(blocks, Pending(client, blockId, cursor)) == Ok(blocks + resp.results))
      && (resp.hasMore ==>
            && resp.nextCursor.Some? && CursorIndex(resp.nextCursor) == CursorIndex(cursor) + 1
            && PrependBlocks(blocks, Pending(client, blockId, cursor)) == PrependBlocks(blocks + resp.results, Pending(client, blockId, resp.nextCursor)))
  {
    var resp := ListChildren(client, blockId, cursor).value;
    if resp.hasMore {
      match Pending(client, blockId, resp.nextCursor) {
        case Ok(more) => assert blocks + (resp.results + more) == blocks + resp.results + more;
        case Err(_) =>
      }
    }
  }
}
