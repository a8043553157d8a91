# Notion to Markdown exporter — a Dafny model

The exporter walks a Notion page tree and writes one Markdown file per page.
Its core exists twice:

- `notion_to_md.py` is the Python converter. It has a handler table per block
  type, an image/toggle pairing, tables, and per-line indentation.
- `convert.ts` is the TypeScript port. It has a smaller renderer, paginated
  recursion and no indentation.

Both keep a FIFO queue of pages. A root page is queued as `index`/`index.md`.
Every `child_page` block met while converting a page is queued under
`<sanitized title>.md`; the port skips child pages whose title is blank.
A page id that was already exported is skipped.

The model is split into these files:

- `results.dfy`: `Option`, `Result` and the errors the source raises.
  - `ListFailed`: an API call that throws.
  - `MissingKey`: a `KeyError`.
  - `UnexpectedArgument`: the `TypeError` from calling `_ignore_block` with a keyword argument it does not take.
  - `InvalidUrl`: downloading an external file through a missing URL.
- `text.dfy`: string functions with their laws.
  - Python's `str.join`, `splitlines` and `re.sub`.
  - JavaScript's `trim` and `replace(/\s+/g, "_")`.
- `notion.dfy`: blocks, the paged children listing, and `extract_text`.
  - The Notion client is a map from block id to its result pages.
  - A cursor is the index of the next page.
  - Downloads are a `(url, path) -> bool` oracle.
- `scheduler.dfy`: the `run` loop shared by both converters.
  - It is a specification function over any page conversion.
  - Its lemmas prove that each page is exported once, that the queue drains, and that export follows first-in, first-out order.
- `notion_to_md_render.dfy`: the Python block handlers as functions.
- `notion_to_md.dfy`: the Python walker as a specification, plus `class Converter`.
  - `Converter` has the queue, the exported ids and the written files as fields.
  - Its methods (`Run`, `FetchAllBlocks`, `ConvertPage`, `BlocksToMarkdown`, …) are proved to compute that specification.
- `convert_ts.dfy`: the same for the TypeScript port.

The block content below each id is assumed to be a finite tree. The ghost
`rank` function witnesses this: children rank below their parent. Child-page
links are not part of that tree and may form cycles. The scheduler terminates
on them because each conversion adds one id to the exported set, and that set
is bounded by the ids the client knows.

## Model

| member | source | states |
|---|---|---|
| Notion.ExtractText | notion_to_md.py:33-40 | Missing or empty rich text gives `""`, and a single span gives its plain text. |
| Notion.PlainTextAppend | convert.ts:10-12 | Extracting text from `a + b` is the text of `a` followed by the text of `b`. The join keeps the order of the spans. |
| Notion.AllBlocksShape | notion_to_md.py:169-192 | The paginated fetch succeeds exactly when the listing reaches a page whose `has_more` is false. It then returns the results of all pages up to that one, concatenated in order. |
| Notion.JoinPath | notion_to_md.py:106-108 | Joining a directory with a relative name puts a single `/` between them. |
| Scheduler.Schedule | notion_to_md.py:145-165 | The `run` loop as a specification: pop the front page, skip it when its id was exported, otherwise convert it, write its file, record its id and queue the pages it found. An error ends the run. |
| Scheduler.ScheduleExportsOnce | notion_to_md.py:145-165 | The ids written are pairwise distinct and were not exported before the run. The final exported set is the initial one plus exactly the ids written. |
| Scheduler.ScheduleDrains | notion_to_md.py:145-165 | No exported id is ever forgotten. A run without error ends with an empty queue and every initially queued id exported. |
| Scheduler.ScheduleIsFifo | convert.ts:78-86 | Files are written first for the first occurrence of each page of the initial queue, in queue order and before any page found during the run. A run without error writes all of them. |
| Scheduler.ScheduleSkips | convert.ts:81 | Popping a page whose id was already exported changes nothing else. |
| Scheduler.ScheduleConverts | notion_to_md.py:157-164 | Converting a new page writes its file, records its id, and appends the pages it found to the queue. The measure strictly decreases. |
| Scheduler.ScheduleConvertFails | notion_to_md.py:157-161 | A conversion that raises ends the run with that error. Nothing more is written and the id is not recorded. |
| NotionRender.GetIcon | notion_to_md.py:17-31 | An emoji icon with an emoji value gives that emoji. The icon is `💡` when it is missing, is not an emoji, or has no emoji value, and it is never anything else. |
| NotionRender.HandleHeading | notion_to_md.py:442-475 | The three heading handlers differ only in their marks, which this member takes as a parameter. A heading without `rich_text` fails. Otherwise, when neither the indent nor the text contains a line break, its lines are the indent alone, then the marks, a space and the text, then an empty line. |
| NotionRender.HeadingRawLines | notion_to_md.py:442-475 | Through the handler table, `heading_1` is written `## text`, `heading_2` `### text` and `heading_3` `#### text`, each between a line holding only the indent and an empty line. |
| NotionRender.HandleParagraph | notion_to_md.py:477-492 | A paragraph without `rich_text` fails. It renders nothing exactly when its text holds one of the four keywords. Otherwise, when neither the indent nor the text contains a line break, its lines are the indented text, then an empty line. |
| NotionRender.ParagraphSkipsKeywords | notion_to_md.py:477-492 | A paragraph is dropped exactly when one of the keywords occurs at some position of its text. |
| NotionRender.HasSkipKeywordIff | notion_to_md.py:488-489 | The substring test `k in text` holds exactly when `k` occurs at some index of `text`. |
| NotionRender.HandleListItem | notion_to_md.py:494-519 | The two list handlers differ only in their marker: `*` for bulleted items, and `1.` for numbered items whatever their position. An item without `rich_text` fails. Otherwise, when neither the indent nor the text contains a line break, it renders the one line of the indent, the marker, a space and the text. The output always ends with a line break. |
| NotionRender.ListItemIndented | notion_to_md.py:494-519 | Through `handle_single_block`, a bulleted item is exactly the indent twice, `* `, the text and a line break. A numbered item is the same with `1. ` whatever its position. |
| NotionRender.HandleCallout | notion_to_md.py:425-440 | Missing rich text is read as `""`. When neither the indent, the icon nor the text contains a line break, a callout renders the one line `> icon text` after the indent. The output always ends with a line break. |
| NotionRender.HandleColumn | notion_to_md.py:526-528 | When the indent has no line break, a column renders a line holding only the indent, then an empty line. |
| NotionRender.HandleDivider | notion_to_md.py:547-550 | When the indent has no line break, a divider renders the line `---` after the indent, then an empty line. |
| NotionRender.FileName | notion_to_md.py:400-423 | The saved name of a file is its caption text when that is non-empty. Otherwise it is the block id. |
| NotionRender.HandleFile | notion_to_md.py:400-423 | An external file fails, because its hosted URL is missing. A hosted file renders a link when the download succeeds, and a failure note otherwise. |
| NotionRender.FileLinkOmitsExtension | notion_to_md.py:416-421 | The link target is `files/<name>` with no `.pdf`, although the file is saved as `<name>.pdf`. |
| NotionRender.CellTexts | notion_to_md.py:342-344 | Each cell renders as the join of its spans' plain texts, one text per cell, in order. |
| NotionRender.TableLines | notion_to_md.py:340-353 | A table has one line per row plus the separator line. |
| NotionRender.TableRowsLines | notion_to_md.py:340-353 | The table text is its lines, each ending in a newline. |
| NotionRender.TableShape | notion_to_md.py:321-355 | A table without rows renders `""`. A table fails exactly when one of its children is not a `table_row`. Otherwise, when neither the indent nor any cell text contains a line break, its lines are the header row, the `---` separator sized to `table_width`, the remaining rows, and an empty line. |
| NotionRender.TableMarkdownLines | notion_to_md.py:321-355 | When neither the indent nor any cell text contains a line break, the table text split into lines gives its rows, the separator, and a final empty line. |
| NotionRender.ToggleTexts | notion_to_md.py:538-544 | A single child contributes its plain text when it has `rich_text`, and nothing otherwise. With ToggleTextsAppend this fixes the list: the texts of the children that have `rich_text`, in order. |
| NotionRender.ToggleTextsAppend | notion_to_md.py:538-544 | Collecting texts from two runs of children concatenates the results. |
| NotionRender.ToggleAlt | notion_to_md.py:545 | The alt text is the indent, a space, then the toggle texts joined by spaces, character for character, except that each line break becomes a space. When the joined texts hold no line break, the alt text is exactly indent, space, joined texts. |
| NotionRender.HandleImage | notion_to_md.py:378-398 | An image renders `![alt](True)` exactly when the download succeeds, and `![alt](False)` otherwise. |
| NotionRender.SanitizeTitle | notion_to_md.py:365 | Each of `\ / * ? : " < > \|` becomes `_` and every other character is kept. |
| NotionRender.SanitizeIdempotent | notion_to_md.py:365 | Sanitizing a sanitized title changes nothing. |
| NotionRender.AsciiLower | notion_to_md.py:559 | `lower()` on ASCII letters: the length is kept, each upper-case letter becomes its lower-case counterpart, and every other character is kept. |
| NotionRender.RemoveSpaces | notion_to_md.py:559 | `replace(" ", "")` leaves no space. A single space becomes nothing, and any other single character is kept. A space-free string is kept as is. |
| NotionRender.RemoveSpacesAppend | notion_to_md.py:559 | Removing spaces works piece by piece, so with the one-character cases every non-space character is kept, in order. |
| NotionRender.CodeLanguage | notion_to_md.py:558-559 | The fence language is the block's language lower-cased with its spaces removed. Without a language it is `plaintext`. A language already lower-case and space-free is used as is. The result never holds a space or an upper-case letter. |
| NotionRender.PlainTextLanguage | notion_to_md.py:559 | The default language `plain text` becomes `plaintext`. |
| NotionRender.HandleCode | notion_to_md.py:552-572 | A code block starts with the indent, three backticks, the language and a line break, then the code text exactly as it is and a line break. It ends with the indented closing fence, the caption line when there is a caption, and an empty line. |
| NotionRender.HandleCodeLines | notion_to_md.py:552-572 | When the indent, the language and the caption hold no line break, the lines of a code block are the opening fence, the lines of the code text however many it has, the closing fence, the caption line when there is one, and an empty line. |
| NotionRender.Handlers | notion_to_md.py:111-125 | The handler table covers every type except `child_page`, `image`, `toggle` and `code`, and types outside the model. `_handle_code` is not registered. `table_row` maps to `_ignore_block`. |
| NotionRender.ApplyHandler | notion_to_md.py:288-290 | Handlers that read `rich_text` fail exactly when it is missing. Calling `_ignore_block` with `current_indent` is a `TypeError`. A file handler fails exactly for an external file. Callout, column list, column and divider never fail. |
| NotionRender.Fallback | notion_to_md.py:293-304 | A type without a handler renders `""` exactly when it has no `rich_text`. When its text has no line break, its lines are the text, then an empty line. |
| NotionRender.HandleSingleBlock | notion_to_md.py:269-308 | The handler's content is split into lines and each line is prefixed with the indent. Empty content stays empty. Non-empty output ends with a line break and, when the indent has none, is exactly its lines each followed by a line break. `table_row` raises. |
| NotionRender.UnknownKindFallback | notion_to_md.py:293-308 | A block with no handler and no `rich_text` renders `""`. When neither the indent nor its text contains a line break, it renders the indented text and an indented empty line. |
| NotionRender.HeadingLinesIndented | notion_to_md.py:284 | A level-one heading passed through `handle_single_block` gets the indent prefixed once more to each line. Its lines are the indent twice, then the indent and `## text`, then the indent alone. |
| NotionToMd.WalkFrom | notion_to_md.py:222-267 | The walk of `blocks_to_markdown` from block `i` on, as a specification: the blocks' outputs and found pages in order, or the first error. |
| NotionToMd.WalkBlock | notion_to_md.py:231-265 | One block of the walk: a paired toggle gives nothing, then the child page, image, table and generic branches. A generic block with children recurses on the first page of its children at the deeper indent. |
| NotionToMd.WalkQueuesNewPages | notion_to_md.py:357-376 | A walk queues only pages not exported when the page conversion began, each under `<sanitized title>.md`. |
| NotionToMd.WalkQueuesReachedChildPage | notion_to_md.py:237-241 | Conversely, a child page reached without an earlier error is queued unless it was exported when the conversion began. It is queued in walk order: after the pages queued by the blocks before it, and before those queued by the blocks after it. |
| NotionToMd.NumberedItemsInWalk | notion_to_md.py:506-519 | A run of numbered items without children renders one line per item, in order. Every line carries the indent twice and starts `1. `, whatever the item's position. |
| NotionToMd.ImageTakesToggle | notion_to_md.py:244-250 | At any index, an image followed by a toggle takes the toggle's child texts as alt text. The toggle renders nothing, the walk goes on after it, and an error while fetching its children ends the walk. |
| NotionToMd.HeadingIndentedTwice | notion_to_md.py:228 | In a walk at indent `cur`, a heading's lines start with the indent unit, then `cur`, then the unit again. |
| NotionToMd.Converter.constructor | notion_to_md.py:99-108 | A converter starts with an empty queue, no exported ids and no files. |
| NotionToMd.Converter.Run | notion_to_md.py:127-167 | Queue the root as `index.md`, then run the scheduler with this converter's page conversion. The result, the files written, the queue and the exported ids are the scheduler's. |
| NotionToMd.Converter.FetchAllBlocks | notion_to_md.py:169-192 | The loop returns the paginated fetch. |
| NotionToMd.Converter.ConvertPage | notion_to_md.py:194-220 | The file content is `# title`, an empty line, then the page's walk. The pages found are appended to the queue. |
| NotionToMd.Converter.BlocksToMarkdown | notion_to_md.py:222-267 | The loop computes the walk specification and appends exactly the walk's found pages to the queue. The walk uses the first page only for nested children, skips paired toggles, and indents by `cur` plus one unit. |
| NotionToMd.Converter.RenderBlockAt | notion_to_md.py:237-265 | One pass of the loop for a block that is not a skipped toggle returns that block's step of the walk, or its error, and queues exactly the pages that step finds. |
| NotionToMd.Converter.HandleChildPage | notion_to_md.py:357-376 | Returns the `### 📄` link to `<sanitized>.md` and queues the page unless its id was exported. |
| NotionToMd.Converter.GetToggleContent | notion_to_md.py:530-545 | Fetches all children and returns the toggle alt text, or the fetch error. |
| NotionToMd.Converter.HandleTableBlock | notion_to_md.py:321-355 | The row loop returns the table text, or a `KeyError` at the first child that is not a row. |
| ConvertTs.TsKeywordsArePythonKeywords | convert.ts:211-212 | The two keywords of the port are among the four of the Python converter. |
| ConvertTs.SafeTitleEmptyIffBlank | convert.ts:136-144 | A child page's file stem is empty exactly when its title is empty or white space only. |
| ConvertTs.SafeTitleLegal | convert.ts:143 | The file stem holds none of `\ / * ? : " < > \|`. |
| ConvertTs.SanitizeKeepsSpaces | convert.ts:143 | Sanitizing keeps a title all white space exactly when it was. |
| ConvertTs.PdfName | convert.ts:182-185 | The saved name ends in `.pdf`. Without a caption it is `<id>.pdf`. With a caption it is the caption with each white-space run replaced by `_`, then `.pdf`, so its stem is non-empty and has no white space. |
| ConvertTs.ImageIgnoresDownload | convert.ts:155-172 | An image renders the same `![image](images/<id>.png)` line whatever the download returns. |
| ConvertTs.FileLinkOnSuccess | convert.ts:176-194 | A file block renders something exactly when its download succeeds. It then renders a link to `files/<name>`, where the name keeps its `.pdf`. |
| ConvertTs.TextDroppedIffKeyword | convert.ts:197-216 | A heading or paragraph renders nothing exactly when its text holds a keyword. Otherwise it renders the `## `/`### `/`#### `/no prefix, then the text. |
| ConvertTs.ChildPageSkippedIffBlank | convert.ts:132-141 | A child page renders nothing exactly when its title is blank. It queues nothing exactly when the title is blank or its id was exported. |
| ConvertTs.RenderTs | convert.ts:155-223 | What the port writes for a block that is not a child page: the image line, the file link after a successful download, the prefixed text unless it holds a keyword, the bullet line, or nothing. |
| ConvertTs.TsWalkFrom | convert.ts:121-232 | The walk of `blocksToMarkdown` from block `i` on, as a specification without an indent: the outputs and found pages in order, or the first error. |
| ConvertTs.TsWalkBlock | convert.ts:130-230 | One block of the port's walk: a child page gives its link and entry unless the title is blank, any other block renders and then recurses into all pages of its children. |
| ConvertTs.TsWalkQueuesNewPages | convert.ts:132-151 | A walk queues only pages that are new to the run and have non-blank titles, each under a non-empty `<trimmed sanitized title>.md`. |
| ConvertTs.TsWalkQueuesReachedChildPage | convert.ts:132-148 | Conversely, a child page reached without an earlier error is queued unless its title is blank or it was exported when the conversion began. It is queued in walk order: after the pages queued by the blocks before it, and before those queued by the blocks after it. |
| ConvertTs.Converter.constructor | convert.ts:56-61 | A converter starts with an empty queue, no exported ids and no files. |
| ConvertTs.Converter.Run | convert.ts:63-89 | Queue the root as `index.md`, then run the scheduler with the port's page conversion. The result, the files written, the queue and the exported ids are the scheduler's. |
| ConvertTs.Converter.FetchAllBlocks | convert.ts:91-105 | The loop returns the paginated fetch: all result pages up to the first without `has_more`. |
| ConvertTs.Converter.ConvertPage | convert.ts:107-119 | The file content is `# title`, an empty line, then the page's walk. The pages found are appended to the queue. |
| ConvertTs.Converter.BlocksToMarkdown | convert.ts:121-232 | The loop computes the walk specification, which has no indent parameter. The indent therefore never reaches the output. It fetches every page of a block's children and recurses for every block with children except a child page. |
| ConvertTs.Converter.HandleChildPage | convert.ts:132-152 | A blank title gives `""` and queues nothing. Otherwise the method returns `### 📄 [title](./<safe>.md)` and queues the page unless its id was exported. |
| Text.SplitLines | notion_to_md.py:308 | `splitlines` on `\n`: no piece holds a line break, and only the empty text has no lines. |
| Text.SplitLinesAfterBreak | notion_to_md.py:308 | A line break splits text into the lines before it and the lines after it. |
| Text.IndentEachLine | notion_to_md.py:308 | The result is empty exactly when the text is, and otherwise ends with a line break. When the prefix has no line break, its lines are the text's lines, each prefixed, and the result is exactly those lines each followed by a line break. |
| Text.Contains | notion_to_md.py:489 | `sub in s` and `s.includes(sub)`: `sub` starts at some position of `s`. |
| Text.Trim | convert.ts:136-143 | `trim()`: the text without its leading and trailing white space. |
| Text.UnderscoreSpaceRuns | convert.ts:184 | `replace(/\s+/g, "_")`: no white space is left, white-space-free text is kept, and only the empty text gives `""`. |
| Text.UnderscoreSpaceRunsAppend | convert.ts:184 | The replacement works piece by piece when the cut does not fall inside a white-space run. |
| Text.UnderscoreRunCollapse | convert.ts:184 | A maximal white-space run between two pieces becomes exactly one `_`, and both pieces are kept around it. |
| ConvertTs.Converter.RenderBlock | convert.ts:155-223 | The image, file, text and list branches compute the port's rendering of the block. |

## Left out

- I/O is not modelled: writing files, creating directories, logging, `main.py`, reading the environment, and building the API client from a token.
  - The written files are the run's list of `(id, file name, content)` exports.
  - Downloads are a `(url, path) -> bool` parameter.
  - `FetchAllBlocks` and `ListChildren` read the client map in place of the HTTP API.
- The TypeScript code is `async`. The model is sequential, because each `await` is awaited before the next step.
- `download_file` appears only as the downloader oracle. In Python it can also raise on a network error, and that path is not modelled. `download_image` is never called by the converter.
- `NotionRender.HandleFile`: in the model a file block always carries its file data. The `if not file_data` branch, which returns `""`, is not modelled.
- `str.splitlines` is modelled as splitting on `\n` only. The other line separators it accepts (`\r`, `\v`, `\f`, `\x1c`–`\x1e`, `\x85`, U+2028, U+2029) are assumed absent from block texts.
- `NotionRender.AsciiLower`: `str.lower()` is modelled on ASCII letters only. Unicode case mapping is left out.
- The line shapes stated for the handlers (headings, paragraphs, list items, callouts, tables, the fallback) assume that the indent and the block texts contain no line break. A Notion soft line break in rich text makes the handler's text span several lines, which `handle_single_block` then prefixes one by one. The model states the rendered text's lines only for texts without line breaks, and only the error cases and empty results for the others.
- `NotionRender.ToggleAlt`: the toggle f-string nests double quotes, which needs Python 3.12 or later. The model assumes it parses. `current_indent` is always `""` there, because the walker never passes one.
- `ConvertTs.PdfName`: JavaScript's `path.join` normalises `.` and `..` segments. `Notion.JoinPath` models only the plain `dir/name` joining that these names need.
- Property reads on missing keys in the TypeScript code, such as `block[bType].rich_text` on a malformed block, are not modelled as errors. `extractText` uses optional chaining and never throws for a well-formed block.
- `NotionRender.HandleHeading`: takes the marks as a parameter, because the three heading handlers share one body. Which level gets which marks is stated by `NotionRender.HeadingRawLines`.
- An error raised while converting one page ends the whole run, because neither `run` catches exceptions. The documented intent is that only that page is abandoned. The model follows the code.
- Both sources write the file inside the page conversion. The model returns the content from `ConvertPage`, and `Run` records the export right after, before adding the id. This is the same order of effects.
