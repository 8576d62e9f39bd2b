# HealGenie health advisor: the diagnose flow and the advice formatter

HealGenie is a small web app. A user describes a health problem, may attach a photo, and gets back a severity label ("Basic", "Moderate" or "Severe") and some advice. The advice comes from a generative model. This project models the two parts of the app that hold real logic and proves properties about them.

- **The `/diagnose` endpoint** (`app.py`), in modules `Classifier` and `Diagnosis`.
  - It chooses a model handle: the vision handle when an image was uploaded, otherwise the text-only handle.
  - It rejects a request that carries neither text nor image.
  - It builds the prompt parts and calls the model.
  - It turns the reply into `(severity, advice)`. A reply that carries both `Severity:` and `Advice:` is read field by field, using Python's first-occurrence `find`, slicing and `strip`. Any other reply is classified by a case-insensitive keyword scan and is returned as the advice verbatim.
  - Every JSON answer carries the same disclaimer.
  - `Diagnosis.Diagnose` is an imperative method. It is proved against `Diagnosis.SelectModel`, `Diagnosis.Prompt` and `Classifier.Classify`.
- **`formatMarkdownToHtml`** (`static/script.js`), in module `Markdown`.
  - Four global regular-expression substitutions run first: level-3 and level-2 headings, bold, then list items. Each is written out as the left-to-right scan the regular-expression engine performs.
  - A line-by-line pass then wraps runs of `<li>` lines in `<ul>`…`</ul>`. It is a method with a loop over the lines and an in-list flag, proved against the function `ListWrapped`.
  - A final pass makes each blank-line-separated chunk a `<p>` paragraph with `<br>` line breaks, unless the chunk starts like a heading or a list.
- **Module `Strings`** gives the host-language string operations these rely on, with their semantics exact except where "## Left out" says otherwise.
  - Python: `find` returning -1, slices with negative and clamped bounds, `strip` over Python's whitespace set, `lower`, `split`.
  - JavaScript: `split`, `join`, `startsWith`.

### Behaviour of the code worth knowing

- **Model selection comes first.** The no-model check runs before the empty-input check. So when only the vision handle loaded, a request without an image gets the 500 "No suitable AI model" answer, even though a handle is loaded. An empty request gets that same 500 answer whenever no usable handle is found; it gets the 400 answer only once a handle has been selected.
- **A failed image decode is not caught.** An image the image library cannot open raises outside the handler's `try` block (app.py:131-133). The framework then answers with its own error page. This is the `Uncaught` response.
- **The severity slice can lose a character.** When no newline follows `Severity:`, `find` returns -1 and the slice `[start+9:-1]` ends one character before the end of the reply (app.py:164-165). `Classifier.SeverityWithoutNewline` states exactly that.

## Model

| member | source | states |
|---|---|---|
| Strings.FindFrom | app.py:159-164 | `find` returns -1 exactly when the pattern occurs nowhere from `start` on; otherwise it returns the first index at or after `start` where it occurs |
| Strings.FindFromIsFirst | app.py:159-164 | when the first occurrence from `start` is at `i`, `find` returns `i` |
| Strings.SliceBound | app.py:165 | a Python slice bound lies within `[0, n]`: it is the index itself when that is in range, and counts from the end when negative |
| Strings.Slice | app.py:165 | a slice with in-range bounds is the plain subsequence; a slice ending at -1 drops the last character, and is empty when the start is not before it |
| Strings.LeadingSpaces | app.py:165 | the count `lstrip` removes: every character before it is whitespace (Python's `isspace` set) and the character at it is not |
| Strings.TextEnd | app.py:165 | the length `rstrip` keeps: every character from it on is whitespace and the one before it is not |
| Strings.Strip | app.py:165-172 | `strip` returns the part of its input after the leading whitespace; the result neither starts nor ends with whitespace, and everything dropped before and after it is whitespace |
| Strings.NotContainsStrip | app.py:172 | stripping never creates an occurrence of a pattern |
| Strings.IsSpace | app.py:165-172 | the characters Python's `isspace` accepts, which are what `strip` removes |
| Strings.LowerChar | app.py:184-190 | `lower` on one character: A to Z become a to z, every other character is kept |
| Strings.Lower | app.py:184-190 | the result has no letter A to Z; each of A to Z becomes its lower-case letter and every other character is kept |
| Strings.LowerSlice | app.py:184-190 | lower-casing a part of a text gives that part of the lower-cased text |
| Strings.LowerIdempotent | app.py:184-190 | lower-casing twice is lower-casing once |
| Strings.Contains | app.py:156 | Python's `pat in s`: defined as `find` not returning -1; its meaning is the contract of `Strings.FindFrom` |
| Strings.StartsWith | static/script.js:194-207 | JavaScript's `startsWith`: defined as the prefix of that length being equal |
| Strings.Join | static/script.js:202-211 | JavaScript's `join`: the pieces with the separator between them; `Strings.JoinSplit`, `Strings.SplitJoin` and `Markdown.JoinCons` state its properties |
| Strings.SplitOn | app.py:172 | a split yields at least one piece, and no piece contains the separator |
| Strings.SplitOnRest | static/script.js:206 | a text with the separator splits into the text before its first occurrence, then the pieces of the text after it: the leftmost, non-overlapping reading of `split` |
| Strings.SplitOnNone | static/script.js:206 | a text without the separator is a single piece |
| Strings.SplitLeftmostExample | static/script.js:206 | `"a\n\n\n\n\nb"` split on `"\n\n"` gives `"a"`, `""` and `"\nb"`: separators are taken leftmost first and never overlap, as JavaScript's `split` does |
| Strings.FirstPiece | app.py:172 | the first piece of `split(sep, 1)` is the text before the first occurrence of `sep` |
| Strings.JoinSplit | static/script.js:193-203 | joining the pieces of a split with the same separator gives the text back |
| Strings.SplitJoin | static/script.js:193-203 | splitting lines joined by a character none of them contains gives the lines back |
| Classifier.Structured | app.py:156 | the reply contains both `Severity:` and `Advice:` |
| Classifier.Classify | app.py:152-195 | the severity and advice reported for a generated reply: the structured reading when both markers occur, the keyword scan otherwise; its properties are the contracts of the `Classifier` lemmas below |
| Classifier.SeverityField | app.py:159-165 | the structured severity; `Classifier.SeverityUpToNewline` and `Classifier.SeverityWithoutNewline` state what it is |
| Classifier.AdviceField | app.py:168-172 | the structured advice; `Classifier.AdviceFieldAt`, `Classifier.AdviceAfterMarker`, `Classifier.AdviceCutAtRepeatedLabel` and `Classifier.StructuredAdviceHasNoSeverityLabel` state what it is |
| Classifier.KeywordSeverity | app.py:183-194 | the keyword scan; `Classifier.UnstructuredReply` states its outcome as case-insensitive occurrence |
| Classifier.ContainsLowerIsMentions | app.py:183-191 | searching the lower-cased reply for a lower-case word finds it exactly when the word occurs in the reply with letter case ignored (both directions) |
| Classifier.SeverityUpToNewline | app.py:156-165 | for a reply with both markers, the severity is the stripped text from just after the first `Severity:` up to the next newline |
| Classifier.NoLineBreakFound | app.py:164 | `find` reports -1 for a newline when none follows the start position |
| Classifier.SeverityWithoutNewline | app.py:163-165 | when no newline follows the first `Severity:`, the severity is the stripped text up to the reply's last character, exclusive, or empty if nothing lies in between |
| Classifier.AdviceFieldAt | app.py:168-172 | with the first `Advice:` at `start`, a reply with both markers is structured; its advice is the stripped rest of the reply, cut at the first `Severity:` in it and stripped again |
| Classifier.AdviceAfterMarker | app.py:168-169 | when the stripped text after the first `Advice:` holds no `Severity:`, that text is the advice |
| Classifier.AdviceCutAtRepeatedLabel | app.py:168-172 | when it does hold one, the advice is the part before the first repeated `Severity:`, stripped again |
| Classifier.StructuredAdviceHasNoSeverityLabel | app.py:168-172 | the advice of a structured reply never contains `Severity:` |
| Classifier.UnstructuredReply | app.py:180-195 | without both markers the advice is the reply verbatim, and the severity is "Severe", "Moderate" or "Basic" exactly as the keyword precedence says, with case ignored (each as an if-and-only-if) |
| Classifier.EmptyReplyIsBasic | app.py:156-195 | an empty reply is classified "Basic" with empty advice |
| Diagnosis.Supplied | app.py:57-77 | an upload counts as given when the part is present with a non-empty file name, as the upload object's truth value is |
| Diagnosis.SelectModel | app.py:63-74 | an image with a loaded vision handle selects it; otherwise the text-only handle is selected if loaded; nothing is selected exactly when neither applies |
| Diagnosis.Prompt | app.py:93-125 | the text prompt; `Diagnosis.PromptQuotesProblem` and `Diagnosis.PromptIsInjective` state its properties |
| Diagnosis.PromptQuotesProblem | app.py:93-125 | the prompt is the fixed instructions, then the user's description verbatim, then the closing quote |
| Diagnosis.PromptIsInjective | app.py:93-125 | different descriptions give different prompts |
| Diagnosis.Diagnose | app.py:55-210 | the answer on every branch, in the code's check order: 500 with no usable handle; 400 for an empty request; 500 for an image without a vision handle; an uncaught exception exactly when the image cannot be decoded; otherwise one text part (plus the image part for an image request) sent to the selected handle, with the reply classified and a block or fault mapped to "Blocked" or "Error"; every JSON answer carries the disclaimer |
| Markdown.IsLineTerminator | static/script.js:185-186 | the characters `.` does not match: `\n`, `\r`, U+2028 and U+2029 |
| Markdown.ReplaceHeading | static/script.js:185-186 | a heading rule as a left-to-right scan; `Markdown.HeadingLine`, `Markdown.HeadingUntouched` and `Markdown.HeadingKeepsLineBreaks` state what it does |
| Markdown.ReplaceBold | static/script.js:187 | the bold rule as a left-to-right scan; `Markdown.BoldPair`, `Markdown.BoldUntouched` and `Markdown.BoldKeepsLineBreaks` state what it does |
| Markdown.ReplaceItems | static/script.js:188 | the list-item rule as a left-to-right scan; `Markdown.ListItemRun`, `Markdown.ItemsUntouched` and `Markdown.ItemsKeepLineBreaks` state what it does |
| Markdown.Inline | static/script.js:184-188 | the four rules in their order; `Markdown.Level3Heading`, `Markdown.Level2Heading` and `Markdown.InlineKeepsLineBreaks` state what the chain does |
| Markdown.LineLength | static/script.js:185-186 | `(.*)` captures the longest prefix free of line terminators, and stops at one or at the end |
| Markdown.LineLengthOfLine | static/script.js:185-186 | on a line followed by a line end, `(.*)` captures exactly that line |
| Markdown.HeadingLine | static/script.js:185-186 | a heading marker followed by a line turns that line into a heading, and scanning resumes at the line end |
| Markdown.HeadingUntouched | static/script.js:185-186 | text without the marker's first character is left unchanged by a heading rule |
| Markdown.StarFreeLength | static/script.js:187-188 | `[^*]+` takes the longest prefix free of `*` |
| Markdown.StarFreeLengthOf | static/script.js:187-188 | on text free of `*` followed by a `*` or the end, `[^*]+` takes exactly that text |
| Markdown.BoldSpan | static/script.js:187 | a bold match opens and closes with `**`, and its capture holds no `*` |
| Markdown.ItemSpan | static/script.js:188 | a list-item match starts with `* `; its capture holds no `*` and runs to the next `*` or the end, across line ends |
| Markdown.BoldUntouched | static/script.js:187 | text without `*` is left unchanged by the bold rule |
| Markdown.ItemsUntouched | static/script.js:188 | text without `*` is left unchanged by the list-item rule |
| Markdown.AfterLevel3Untouched | static/script.js:185-188 | text without `#` and `*` passes the last three substitutions unchanged |
| Markdown.Level3Heading | static/script.js:184-188 | `### x` becomes `<h3>x</h3>` and the `## ` rule that follows does not touch it |
| Markdown.Level2Heading | static/script.js:184-188 | `## x` is no level-3 heading and becomes `<h2>x</h2>` |
| Markdown.BoldPair | static/script.js:187 | `**x**` with `x` non-empty and free of `*` becomes `<strong>x</strong>` |
| Markdown.ListItemRun | static/script.js:188 | `* x` becomes `<li>x</li>`, with `x` running up to the next `*` |
| Markdown.HeadingKeepsLineBreaks | static/script.js:185-186 | a heading rule keeps the number of line breaks |
| Markdown.BoldKeepsLineBreaks | static/script.js:187 | the bold rule keeps the number of line breaks |
| Markdown.ItemsKeepLineBreaks | static/script.js:188 | the list-item rule keeps the number of line breaks, although its capture may span several lines |
| Markdown.InlineKeepsLineBreaks | static/script.js:183-188 | the whole substitution chain keeps the number of lines |
| Markdown.IsItem | static/script.js:194-197 | the line starts with `<li>` |
| Markdown.EndsInList | static/script.js:203 | the in-list flag after the last line: the text has a last line and it is an item |
| Markdown.RunMark | static/script.js:194-201 | the tag put in front of a line: `<ul>` at the start of a run of items, `</ul>` on the first line after one, nothing otherwise |
| Markdown.Marked | static/script.js:193-202 | every line with its run tag in front, one for each line |
| Markdown.ListWrapped | static/script.js:192-203 | the list pass as a function of the lines; `Markdown.ListPassLines`, `Markdown.RunInteriorUnchanged` and `Markdown.ListTagsBalanced` state its properties |
| Markdown.WrapLists | static/script.js:192-203 | the loop with its in-list flag produces `ListWrapped(html)`: each line behind its run tag, then a closing `</ul>` if the text ends inside a list |
| Markdown.LoneLineUnmarked | static/script.js:193-201 | a single line that is not a list item gets no tag |
| Markdown.NoNewlineInLines | static/script.js:193 | the lines of a split hold no line break |
| Markdown.OutputLines | static/script.js:192-203 | the list pass writes one line for each line it reads |
| Markdown.OutputLineAt | static/script.js:194-203 | each written line is the read line behind its run tag; the last one is followed by `</ul>` when the text ends inside a list |
| Markdown.ListWrappedJoin | static/script.js:193-203 | the pass's output is its written lines joined by line breaks |
| Markdown.OutputLinesAreLines | static/script.js:194-200 | the run tags add no line break |
| Markdown.ListPassLines | static/script.js:192-203 | the list pass keeps the number of lines. It only puts `<ul>` (first line of a run of items), `</ul>` (first line after a run) or nothing in front of each line, and puts `</ul>` after the last line when the text ends in a run |
| Markdown.RunInteriorUnchanged | static/script.js:201 | a line that neither begins nor ends a run passes unchanged |
| Markdown.OpenedAndClosedAlternate | static/script.js:193-202 | the tags put in front of the first `n` lines alternate, `<ul>` first; their count is odd exactly when line `n-1` is an item |
| Markdown.ListTagsBalanced | static/script.js:192-203 | all tags the list pass inserts strictly alternate, open before close, and are even in number |
| Markdown.TagsBalanced | static/script.js:192-203 | the same for any sequence of lines |
| Markdown.BreakLines | static/script.js:208 | replacing line breaks by `<br>` leaves none, and makes the text 3 characters longer for each one |
| Markdown.BreakLinesUntouched | static/script.js:208 | a chunk without line breaks is unchanged by it |
| Markdown.BreakLinesAppend | static/script.js:208 | the replacement works piece by piece |
| Markdown.NoLineBreakWithoutPattern | static/script.js:208 | a text in which `find` sees no `\n` holds no line break |
| Markdown.BreakLinesAtFirstBreak | static/script.js:208 | a chunk is kept up to its first line break, which becomes `<br>` |
| Markdown.BreakLinesJoinsLines | static/script.js:208 | replacing every line break by `<br>` is splitting the chunk at line breaks and joining the lines with `<br>` |
| Markdown.JoinCons | static/script.js:208-211 | joining a first piece and at least one more puts the separator right after the first |
| Markdown.OpensBlock | static/script.js:207 | the chunk starts with `<h`, `<ul` or `<li`, so it is left as it is |
| Markdown.Paragraph | static/script.js:207-210 | one chunk: left as it is when it opens a block, otherwise wrapped in `<p>` with `<br>` line breaks |
| Markdown.Paragraphs | static/script.js:206-211 | the paragraph pass; `Markdown.ParagraphsOfChunks` states it for every text |
| Markdown.ParagraphsOfChunks | static/script.js:206-211 | for every text: the chunks between blank lines, each kept when it starts with `<h`, `<ul` or `<li` and otherwise made `<p>` + its lines joined by `<br>` + `</p>`, concatenated with nothing between them |
| Markdown.ParagraphsNonEmpty | static/script.js:206-211 | the paragraph pass never yields empty text |
| Markdown.BlocksPassThrough | static/script.js:206-211 | when every chunk starts with `<h`, `<ul` or `<li`, the chunks are only joined with nothing between them |
| Markdown.PlainParagraph | static/script.js:206-211 | a chunk without blank lines that starts like no tag becomes `<p>` + the chunk with `<br>` line breaks + `</p>` |
| Markdown.Formatted | static/script.js:180-214 | the formatter as a function: empty for empty input, otherwise the three passes in turn |
| Markdown.FormatMarkdownToHtml | static/script.js:180-214 | the formatter returns the three passes applied in turn, and returns empty text exactly when its input is empty |
| Markdown.PlainLineFormatted | static/script.js:180-214 | one line of plain text, with no `#`, no `*` and nothing that looks like a tag, comes out as a single paragraph |

## Left out

- Web framework, request parsing and JSON encoding (app.py:50-57, 208) are not modelled. The request is modelled as its two fields. The answer is a record with the status code.
- The generative-model SDK (app.py:19, 27-47, 149-150) is not modelled. Loaded handles are optional values, and the call is a function parameter returning `Generated`, `BlockedPrompt` or `GenerationFailed`. A failure to read `response.text` counts as `GenerationFailed`, as the generic `except` catches it.
- Image decoding with Pillow (app.py:131-133) is a function parameter that may fail.
- Environment loading, the credential check and start-up model loading (app.py:1-47) are not modelled. Start-up stops the app when no handle loads. `Diagnosis.Diagnose` does not assume this, because the handler answers that case itself.
- Logging (`print`) is not modelled. A handle keeps the name it was loaded under, which only the log messages use.
- The `except` around structured parsing (app.py:174-179) is not modelled, because it cannot fire: `find`, slicing and `strip` do not raise.
- Strings.Lower lowers only A to Z and never changes the length. Python's `lower` also lowers other letters, and can make a text longer: U+0130 becomes `i` followed by a combining dot. This does not change the keyword scan. No other letter lowers to one of the keywords' letters, except KELVIN SIGN to `k`, and no keyword has a `k`. A combining dot cannot be part of a keyword either, because every `i` in the keywords is followed by a letter.
- Characters are Unicode code points, not JavaScript's UTF-16 code units. The two differ only for characters outside the Basic Multilingual Plane, which none of the patterns involves.
- `formatMarkdownToHtml` on `null` or `undefined` is not modelled. Only strings are modelled, and the empty string gives the empty result as the falsy check says.
- The DOM, event handlers, `fetch`, file reading and speech code of static/script.js:1-177 are not modelled.
