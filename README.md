# Ask My Doc: document chunking and chat state in Dafny

This project models two parts of the Ask My Doc web application:

- **The document chunker** (`src/lib/chunking.ts`). `chunkText` trims a document and walks it with a cursor. Each window holds at most `chunkSize` characters. A window that is not the last one is cut back, within 200 characters, at the last sentence end (a `.`, `!` or `?` followed by whitespace). Failing that, it is cut after the last blank line, and failing that at the last space. A window yields a chunk when its trimmed text is at least `minChunkSize` long. The cursor then moves to `max(end - overlap, start + 1)`. `previewChunking` reports the number of chunks, their rounded mean length and a 100-character preview of each.
- **The chat state of the `useChat` hook** (`src/hooks/useChat.ts`). This covers:
  - the message list and its updaters (append an assistant message, replace a message's content, reset);
  - the `canCompose` and `canSend` predicates;
  - `sendMessage` as a sequence of state updates, including its early exits and the reply text it posts (error line, reply plus context indicator, and the singular or plural "section");
  - the `formatSnippet` helper of `fetchReferences`.

The project has five modules:

| module | contents |
|---|---|
| `Wrappers` (`wrappers.dfy`) | `Option` |
| `Text` (`text.dfy`) | JavaScript string behaviour the core relies on: `String.prototype.trim` and `\s` over one whitespace set, `lastIndexOf`, `replace(/\s+/g, " ")`, decimal rendering of numbers |
| `Chunking` (`chunking.dfy`) | the chunker as functions (`Windows`, `ChunksFrom`, `Chunks`) and as the source's loops (`ChunkText`, `FindWindowEnd`, `AdjustEnd`, `LastSentenceMatch`), each method proved equal to its function; `PreviewChunking` |
| `ChunkingProperties` (`chunking_properties.dfy`) | what the chunker guarantees: which windows become chunks, chunk bounds, ordering, coverage, a bound on the number of windows, why each cut is where it is, and preview bounds |
| `Chat` (`chat.dfy`) | pure updaters and reply texts, with lemmas relating them; the `ChatSession` class holding `messages`, `input` and `isSending` |

## Model

| member | source | states |
|---|---|---|
| `Chunking.Resolve` | src/lib/chunking.ts:26-30 | an omitted option takes its default: 1000 for `chunkSize`, 200 for `overlap`, 100 for `minChunkSize`; a given one is used as is |
| `Chunking.ChunkOf` | src/lib/chunking.ts:76-85 | a window yields at most one chunk, and yields one iff its trimmed text has at least `minChunkSize` characters; that chunk carries the window's bounds and the trimmed text, which is no longer than the window |
| `Chunking.ChunksFrom` | src/lib/chunking.ts:41-93 | every chunk pushed once the cursor is at `start` covers a non-empty window inside `[start, end of text]`, and its text has between `minChunkSize` and its window's width characters |
| `Chunking.ChunkText` | src/lib/chunking.ts:22-96 | the while loop computes exactly `Chunks(text, options)`, the chunks of the windows the scan visits |
| `Chunking.Chunks` | src/lib/chunking.ts:32-34 | blank or empty text yields no chunks |
| `Chunking.FindWindowEnd` | src/lib/chunking.ts:42-74 | the loop's window end equals `WindowEnd` |
| `Chunking.WindowEnd` | src/lib/chunking.ts:42-74 | a window is non-empty and at most `chunkSize` long; it reaches the end of the text iff `start + chunkSize` does; a window that is cut back loses fewer than 200 characters |
| `Chunking.AdjustEnd` | src/lib/chunking.ts:45-73 | the boundary search returns `CutPoint`: sentence end first, then blank line, then space, else the tentative end |
| `Chunking.LookbackStart` | src/lib/chunking.ts:47 | `Math.max(endIndex - 200, startIndex)`: at least both operands, and equal to one of them |
| `Chunking.SentenceEndAt` | src/lib/chunking.ts:51 | a match of `/[.!?]\s+/` starts at `p` iff `s[p]` is `.`, `!` or `?` and whitespace follows it; the match never starts on whitespace |
| `Chunking.CutPoint` | src/lib/chunking.ts:45-73 | the cut lies inside the window, after its start, and within the 200-character lookback |
| `Chunking.LastSentenceMatch` | src/lib/chunking.ts:51-57 | repeated `exec` of `/[.!?]\s+/g` ends with the last match: there is none iff no terminator followed by whitespace exists; otherwise no match starts after it, and its length spans the whole whitespace run |
| `Chunking.Exec` | src/lib/chunking.ts:55 | one `exec` from `lastIndex` finds the leftmost match at or after it, or none when there is no later match |
| `Chunking.LastSentenceStart` | src/lib/chunking.ts:55-60 | the last sentence-end position below `n`, or none |
| `Chunking.BoundaryIn` | src/lib/chunking.ts:59-70 | a cut found inside the lookback substring lies in `(0, length]` |
| `Chunking.FirstBoundary` | src/lib/chunking.ts:59-73 | no cut is found iff none of the boundary kinds occurs |
| `Chunking.NextStart` | src/lib/chunking.ts:92 | the cursor always advances, to `end - overlap` or to `start + 1` |
| `Chunking.Windows` | src/lib/chunking.ts:41-93 | the windows the loop visits: none iff the cursor is at the end; each lies in the text and is at most `chunkSize` long; only the last reaches the end; each next window starts at `NextStart` of the previous |
| `Chunking.Preview` | src/lib/chunking.ts:117 | a text of at most 100 characters is kept whole; a longer one becomes its first 100 characters followed by `...` |
| `Chunking.SumSizes` | src/lib/chunking.ts:114 | the `reduce` summing chunk text lengths: no chunk is longer than the total, and the total is 0 iff every chunk text is empty |
| `Chunking.RoundedMean` | src/lib/chunking.ts:114 | `Math.round(sum / n)`: the result is within one half of the exact mean |
| `Chunking.PreviewChunking` | src/lib/chunking.ts:101-121 | the count equals the number of chunks; the average is 0 without chunks and otherwise the rounded mean length; each entry is the preview and length of its chunk |
| `ChunkingProperties.ChunksAreKeptWindows` | src/lib/chunking.ts:76-85 | a chunk is emitted iff it is a visited window whose trimmed text has at least `minChunkSize` characters, and it carries that trimmed text |
| `ChunkingProperties.ChunksOrdered` | src/lib/chunking.ts:87-92 | chunk starts strictly increase, and each chunk starts at or after every earlier chunk's `end - overlap` |
| `ChunkingProperties.OrderedCons` | src/lib/chunking.ts:79-92 | putting the chunk of the current window before the chunks from the next cursor keeps them ordered |
| `ChunkingProperties.ChunkShape` | src/lib/chunking.ts:22-96 | every chunk of `chunkText` lies within the trimmed text and is at most `chunkSize` wide; its text is the trimmed window, at least `minChunkSize` and at most `chunkSize` long; the chunks are ordered |
| `ChunkingProperties.WindowsLinked` | src/lib/chunking.ts:87-92 | with a non-negative overlap, each window starts no later than the previous one ends |
| `ChunkingProperties.LastWindowEnds` | src/lib/chunking.ts:41-93 | with a non-negative overlap, the last window the loop visits ends at the end of the text |
| `ChunkingProperties.WindowsCoverFrom` | src/lib/chunking.ts:41-93 | with a non-negative overlap, every position from the cursor on lies in some window |
| `ChunkingProperties.WindowsCover` | src/lib/chunking.ts:41-93 | with a non-negative overlap, consecutive windows leave no gap, every position is inside some window, and the last window ends at the end of the text |
| `ChunkingProperties.NonLastAdvance` | src/lib/chunking.ts:45-92 | after a window that is not the last, the cursor moves by more than `chunkSize - overlap - 200` |
| `ChunkingProperties.WindowCount` | src/lib/chunking.ts:41-93 | when `chunkSize - overlap >= 200`, the number of windows is bounded by the text length divided by `chunkSize - overlap - 199` |
| `ChunkingProperties.CutAtSentenceEnd` | src/lib/chunking.ts:59-60 | when the lookback contains a sentence end, the cut follows the last one together with all of its whitespace |
| `ChunkingProperties.CutAtBlankLine` | src/lib/chunking.ts:62-65 | without a sentence end, a blank line at an index above 0 puts the cut just after the last blank line |
| `ChunkingProperties.CutAtSpace` | src/lib/chunking.ts:67-70 | without a sentence end or blank line, a space at an index above 0 puts the cut at the last space |
| `ChunkingProperties.CutAtTentativeEnd` | src/lib/chunking.ts:66-71 | with none of the three boundaries (ignoring index 0), the window keeps its tentative end |
| `ChunkingProperties.SumSizesBounds` | src/lib/chunking.ts:114 | the summed length of chunks that are each between `lo` and `hi` long lies between `n * lo` and `n * hi` |
| `ChunkingProperties.RoundedMeanBounds` | src/lib/chunking.ts:114 | the rounded mean of values between `lo` and `hi` lies between them too |
| `ChunkingProperties.PreviewBounds` | src/lib/chunking.ts:109-120 | the preview counts the chunks; the average is 0 without chunks and otherwise between `minChunkSize` and `chunkSize`; every preview is at most 103 characters; every size is between `minChunkSize` and `chunkSize` |
| `Text.Trim` | src/lib/chunking.ts:36 | `trim` never lengthens the text, returns "" iff the text is blank, and returns text that neither starts nor ends with whitespace |
| `Text.TrimIsSlice` | src/lib/chunking.ts:76 | trimmed text is a contiguous slice of the original with only whitespace cut on either side |
| `Text.TrimIdempotent` | src/lib/chunking.ts:36 | trimming twice is trimming once |
| `Text.NonWhiteTrim` | src/lib/chunking.ts:76 | trimming keeps every non-whitespace character, in order |
| `Text.LastIndexOf` | src/lib/chunking.ts:63-68 | `lastIndexOf` returns -1 or an occurrence, and no occurrence lies after it |
| `Text.CollapseWhitespace` | src/hooks/useChat.ts:187 | `replace(/\s+/g, " ")` keeps the non-whitespace characters, leaves only single spaces between them, and adds no leading whitespace |
| `Text.CollapseIsJoinedWords` | src/hooks/useChat.ts:187 | `replace(/\s+/g, " ")` gives the words of the text (its maximal runs of non-whitespace) joined by single spaces. It adds one more space in front iff the text starts with whitespace, and one at the end iff whitespace follows the last word |
| `Text.TrimCollapseIsJoinedWords` | src/hooks/useChat.ts:187 | `replace(/\s+/g, " ").trim()` gives exactly the words of the text joined by single spaces |
| `Text.SingleLineOf` | src/hooks/useChat.ts:187 | the collapsed and trimmed snippet equals the snippet's words joined by single spaces; so it is on one line, keeps the non-whitespace characters, and is empty iff the snippet is blank |
| `Text.SingleLineFixed` | src/hooks/useChat.ts:187 | text already on one line is left as it is |
| `Text.DecimalRoundTrip` | src/hooks/useChat.ts:112 | a count printed in decimal reads back as the same number |
| `Text.NumeralOfZero` | src/hooks/useChat.ts:112 | the only numeral of 0 is `0`, so a count of 0 prints as `0` |
| `Text.IntString` | src/hooks/useChat.ts:96 | the rendering starts with `-` iff the integer is negative; the rest is non-empty, all digits, without a leading zero unless it is the single digit `0`, and reads back as the integer's magnitude |
| `Chat.CanCompose` | src/hooks/useChat.ts:28 | composing is possible iff the selected document id is not blank |
| `Chat.CanSend` | src/hooks/useChat.ts:29 | sending is possible iff a document id is selected, nothing is being sent, and the input is not blank |
| `Chat.MessageId` | src/hooks/useChat.ts:32 | the caller's id is used when given, even when empty (`??`); otherwise a fresh id |
| `Chat.AppendAssistant` | src/hooks/useChat.ts:33-36 | the previous messages are kept and one assistant message with the given id and content is added at the end |
| `Chat.ReplaceContent` | src/hooks/useChat.ts:40-46 | the length, ids, roles and order are kept; exactly the messages with the given id get the new content |
| `Chat.ResetMessages` | src/hooks/useChat.ts:48-57 | a reset leaves just the welcome-id assistant message with the new-chat text |
| `Chat.ReplaceUnknownId` | src/hooks/useChat.ts:40-46 | an update for an id no message has changes nothing |
| `Chat.ReplaceLastWins` | src/hooks/useChat.ts:40-46 | of two updates to the same message, the later one wins |
| `Chat.ReplaceCommutes` | src/hooks/useChat.ts:40-46 | updates to two different messages commute |
| `Chat.ReplaceConcat` | src/hooks/useChat.ts:41-45 | an update applies to the two halves of a list independently |
| `Chat.ReplaceAfterAppend` | src/hooks/useChat.ts:157-159 | appending a placeholder under a fresh id and then updating it equals appending the final text |
| `Chat.FindDocument` | src/hooks/useChat.ts:105-107 | `find` returns nothing iff no document has that number, and otherwise the first document that has it |
| `Chat.DocumentLabel` | src/hooks/useChat.ts:108-110 | the label is the title, else the file name; it is empty when no document was found |
| `Chat.IndicatorPlural` | src/hooks/useChat.ts:111-121 | with context, the indicator starts with the count and says "sections" iff the count exceeds 1. It ends with the quoted label when there is one, else with "from the selected document" when a document id was sent, else with "from your documents". Without context it is the no-context line |
| `Chat.IndicatorCount` | src/hooks/useChat.ts:112 | the count in the indicator is all digits and reads back as `sourcesCount` |
| `Chat.Or` | src/hooks/useChat.ts:96 | `a \|\| b` on strings: a non-empty `a` wins, an empty `a` gives `b`, and the result is empty only when both are |
| `Chat.ContextIndicator` | src/hooks/useChat.ts:111-121 | without context the indicator is the no-context line; with context it starts with the "Answer based on" header and ends with the closing `*` |
| `Chat.ReplyText` | src/hooks/useChat.ts:94-127 | the posted text is never empty; a failed or aborted request starts with the cross mark and a space; an answered one ends with the indicator's closing `*` |
| `Chat.ErrorReplyShape` | src/hooks/useChat.ts:94-98 | a failed request posts the cross mark, a space and the server's `error`, else its `message`, else `Request failed (status)`. A request that threw posts the cross mark, a space and the exception's message, else the network notice. The detail is never empty |
| `Chat.AnsweredReplyShape` | src/hooks/useChat.ts:101-123 | an answered request posts the non-empty reply (or the no-response notice) followed by the context indicator built for the selected document's label. With context, the indicator starts with the count. It names the first listed document with that id, by its title or else its file name. It falls back to "from the selected document" when that label is empty: no document has the id, or the one found has neither a title nor a file name. Without context the reply ends with the no-context line |
| `Chat.IndicatorAfterLead` | src/hooks/useChat.ts:111-123 | after any reply text, the indicator with context starts with the count and ends with the quoted label, or with "from the selected document" when the label is empty |
| `Chat.FormatSnippet` | src/hooks/useChat.ts:185-192 | a missing or blank snippet gives nothing; otherwise the snippet is put on one line; it is kept whole when at most 220 characters, and otherwise cut to 217 characters followed by an ellipsis |
| `Chat.CutIsSingleLine` | src/hooks/useChat.ts:189-190 | a line cut to 217 characters, with the ellipsis added, is still on one line |
| `Chat.FormatSnippetKeepsText` | src/hooks/useChat.ts:185-192 | a snippet that needs no cut keeps all of its non-whitespace characters |
| `Chat.FormatSnippetIdempotent` | src/hooks/useChat.ts:185-192 | formatting a formatted snippet changes nothing |
| `Chat.ChatSession.constructor` | src/hooks/useChat.ts:16-25 | the session starts with the welcome message, an empty input, and nothing being sent |
| `Chat.ChatSession.SetInput` | src/hooks/useChat.ts:24 | only the input changes |
| `Chat.ChatSession.AppendAssistantMessage` | src/hooks/useChat.ts:31-38 | returns the message id and appends the assistant message under it; input and sending flag are unchanged |
| `Chat.ChatSession.UpdateMessageContent` | src/hooks/useChat.ts:40-46 | the message list becomes `ReplaceContent` of the old list; nothing else changes |
| `Chat.ChatSession.ResetChat` | src/hooks/useChat.ts:48-57 | the message list becomes the new-chat list; nothing else changes |
| `Chat.ChatSession.SendMessage` | src/hooks/useChat.ts:59-131 | blank input changes nothing. A blank or non-numeric document id appends only the select-a-document notice. Otherwise the trimmed input is appended as a user message, then the reply text; the input is cleared and sending is over |

## Left out

- Strings are sequences of characters; JavaScript counts UTF-16 code units. So lengths and cut positions differ from the source for characters outside the Basic Multilingual Plane.
- The whitespace set of `trim` and `\s` is the ECMAScript set, listed in `Text.WhiteChars`.
- `Chunking.ChunkText`, `Chunking.Chunks`, `Chunking.PreviewChunking`: require `chunkSize >= 1`. With `chunkSize == 0` every window is empty (`endIndex == startIndex`): an empty chunk is pushed only when `minChunkSize <= 0`, and the cursor moves to `max(start - overlap, start + 1)`. Empty windows break the model's invariant that a window ends after it starts. A negative `chunkSize` makes `slice` count from the end of the text. No caller in the repository passes either value.
- Non-integer, `NaN` or infinite options are not modelled; options are integers.
- `ChunkingProperties.WindowsCover`: requires a non-negative overlap. With a negative overlap the cursor can jump past the end of a window, and the scan can then end before the text is covered.
- `ChunkingProperties.WindowCount`: only bounds the count when `chunkSize - overlap >= 200`; otherwise the cursor may advance by a single character.
- `Chunking.RoundedMean`: models `Math.round(sum / n)` exactly, in integers; floating-point rounding of the division is not modelled.
- `Chat.ChatSession.SendMessage`:
  - `Number(selectedDocumentId)` is a parameter (`None` for `NaN`). Infinite values and the parse itself are not modelled.
  - `fetch`, `res.json()` and `crypto.randomUUID()` are parameters: the request's outcome and the fresh ids.
  - React's asynchronous state updates and stale closures are not modelled. Each update is applied at once to the session's current state, in program order.
  - The `" from your documents"` branch is unreachable from `sendMessage`, since a payload is always present there. `ContextIndicator` keeps the branch, with `payloadPresent` as a parameter.
- `sourcesCount` and `res.status` are modelled as integers. JavaScript prints a fractional count such as `2.5`, and numbers of 1e21 or more in exponent notation; neither is modelled.
- JSON fields of the response that are not strings (numbers, objects, `true` as a reply) are not modelled. Absent or empty fields are `""`, so `||` behaves as in the source for strings only.
- A document summary's absent title is modelled as `""`.
- `fetchReferences` and `isFetchingReferences`:
  - Only `formatSnippet` and the placeholder-then-update pattern are modelled (`Chat.FormatSnippet`, `Chat.ReplaceAfterAppend`).
  - The request and the rendering of the reference list are network and untyped JSON formatting.
- The emoji in the posted texts are written with their intended code points (information sign, cross mark, warning sign, books).
- `console.error`, the `useMemo` return object and the React hooks themselves are not modelled; they are I/O and framework plumbing.
