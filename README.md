# generate-html, modelled in Dafny

`utils/generate-html.js` turns a Markdown architecture note into an
interactive HTML page. The note has a `# ` title, bold metadata labels
(`**Generated**:`, `**Type**:`, `**Context**:`), a fenced mermaid diagram,
a `## Description` section and a `## Related Files` bullet list. The script
has three parts:

- `extractDiagramInfo`: a single forward pass over the note's lines, with
  three independent mode flags (in a fence, in the description, in the
  related files). It builds a `DiagramInfo` record and fills in defaults at
  the end.
- `generateHTML`: seven global replacements of `{{…}}` placeholders in a
  template. The related-files placeholder becomes a list of `<li>` lines,
  or a single `None` item.
- `main`: file handling, plus one expression that derives the output file
  name.

The project has these modules:

- `Text`: the JavaScript string primitives the script uses.
  - `trim` over the ECMAScript whitespace set.
  - `startsWith` and `endsWith`.
  - `split` on a string separator.
  - `join`.
  - Each comes with its laws: trim keeps the middle of the text, split and
    join are inverse, no piece of a split still holds the separator, and
    the first piece stops at the first separator.
- `Replace`: `String.prototype.replace` with a global literal pattern. It
  includes the `$$`, `$&`, `` $` `` and `$'` replacement patterns, which
  apply to the values substituted into the page.
- `Extractor`: the extractor.
  - `ExtractDiagramInfo` is an imperative method with the source's loop,
    its `continue`s and its local variables.
  - It is proved equal to `Extract`, a left fold of one loop iteration
    (`Step`) over the lines, followed by the defaults (`Finalize`).
- `ExtractorRules`: the extractor's rules, stated over the lines of the
  note rather than over iterations, and proved about `Scan` and `Extract`.
  - The title comes from the first usable `# ` line.
  - The last label line of each kind wins.
  - A fence is open exactly when an opener was not followed by a closer.
  - A section is open exactly when the last `##` line was its heading.
  - The diagram source, the description and the related files are made of
    the lines that a declarative `Collects` condition selects, in order.
- `Renderer`: `generateHTML` with the template passed in as text. It covers
  the order of the substitutions, the shape of the related-files block,
  untouched templates, and the split-and-join form of a substitution whose
  value has no `$`.
- `Cli`: the output-path expression `args[1] || inputFile.replace(/\.md$/, '.html')`.
- `Cases`: worked cases on concrete lines.

Three consequences of the script's exact expressions are easy to overlook:

- **Metadata values stop at the next colon.** A metadata value is
  `line.split(':')[1].trim()`: the text between the label's colon and the
  next colon. `**Generated**: 2025-01-15T10:30:00Z` gives `2025-01-15T10`
  (`Cases.TimestampCut`).
- **Other inputs are overwritten.** Without an explicit output path, an
  input that does not end in `.md` is returned unchanged: `foo.txt` stays
  `foo.txt`, so the page is written over the input file
  (`Cli.OutputPathOtherSuffix`, `Cli.OutputPathOverwrites`).
- **A label line always splits into at least two pieces.** Each label ends
  in its own colon, so `split(':')[1]` always exists on a line that
  starts with a label (`Extractor.LabelSplits`).

## Model

| member | source | states |
|---|---|---|
| Extractor.ExtractDiagramInfo | utils/generate-html.js:11-91 | The method's loop over the lines computes exactly `Extract(markdown, now)`: the fold of one iteration over the lines, then the defaults. |
| Extractor.Lines | utils/generate-html.js:12 | Splitting the note on line feeds gives at least one line. No line holds a line feed, and the lines joined with line feeds give back the note. |
| Extractor.Label | utils/generate-html.js:36-40 | Each label ends with its colon, and that colon is the only one in the label. |
| Extractor.LabelSplits | utils/generate-html.js:37-41 | On a line that starts with a label, `split(':')` has the label name as its first piece. The rest is the split of the text after the label, so a second piece always exists. |
| Extractor.MetaValue | utils/generate-html.js:37-41 | The value read from a label line is the text after the label, up to the next colon, trimmed. |
| Extractor.BulletText | utils/generate-html.js:78 | The bullet text has no whitespace at either edge, and for a non-blank line it is shorter than the line. `ExtractorRules.BulletOfDash` gives its value on a bullet line. |
| Extractor.Step | utils/generate-html.js:27-79 | One iteration of the loop body. What it does to each field is stated by `ExtractorRules.StepTitle`, `StepMetadata`, `StepFence`, `StepSections`, `StepDescription` and `StepRelatedFiles`. |
| Extractor.Scan | utils/generate-html.js:26-80 | The state after the loop. `ExtractorRules.ScanTitle`, `ScanMetadata`, `ScanFence`, `ScanSections`, `ScanDiagramSource`, `ScanDescription` and `ScanRelatedFiles` characterise it by declarative conditions on the lines. |
| Extractor.Extract | utils/generate-html.js:11-91 | The returned record. `ExtractDiagramInfo` computes it, and `ExtractorRules.ExtractTitle`, `ExtractMetadata`, `ExtractDiagramSource`, `ExtractDescription` and `ExtractRelatedFiles` state each of its fields. |
| Extractor.Finalize | utils/generate-html.js:82-90 | The returned title, type and description are never empty. |
| ExtractorRules.StepTitle | utils/generate-html.js:30-33 | One iteration sets the title only on a `# ` line while the title is still empty. The new title is the line after `# `, trimmed. |
| ExtractorRules.StepMetadata | utils/generate-html.js:36-42 | One iteration overwrites a metadata field exactly when the line carries its label and was not taken by the title. |
| ExtractorRules.StepFence | utils/generate-html.js:45-55 | One iteration sets the fence flag on an opener and clears it on a closer. It appends the line and a line feed to the diagram source when it is inside a fence and past both markers. |
| ExtractorRules.StepSections | utils/generate-html.js:58-71 | A `##` line that reaches the section logic sets the two section flags to whether it is the Description heading or the Related Files heading. Any other line leaves the flags unchanged. |
| ExtractorRules.StepDescription | utils/generate-html.js:72-74 | One iteration appends a line and a space to the description exactly when it is in the description section, reaches the section logic, is not a `##` line, and is not blank. |
| ExtractorRules.StepRelatedFiles | utils/generate-html.js:77-79 | One iteration appends the line's bullet text to the related files exactly when it is in that section, reaches the section logic, is not a `##` line, and its trimmed form starts with `-`. |
| ExtractorRules.ScanTitle | utils/generate-html.js:30-33 | After the pass, the title is empty exactly when no line is a `# ` line with visible text. Otherwise the title is the trimmed text of the first such line. |
| ExtractorRules.TitleBlank | utils/generate-html.js:30-33 | The title stays empty exactly as long as no line is a `# ` line with visible text after the marker. |
| ExtractorRules.TitleFirst | utils/generate-html.js:30-33 | The first `# ` line with visible text fixes the title to that text, trimmed; no later line changes it. |
| ExtractorRules.ExtractTitle | utils/generate-html.js:83 | The title rule on the returned record: the first title line's text, or `Diagram`. |
| ExtractorRules.ScanMetadata | utils/generate-html.js:36-42 | After the pass, each metadata field is the value of the last line with its label, or empty when no line has it. |
| ExtractorRules.MetadataLast | utils/generate-html.js:36-42 | The last label line of a kind fixes that field: later lines without the label leave it alone. |
| ExtractorRules.MetadataAbsent | utils/generate-html.js:36-42 | A field stays empty when no line carries its label. |
| ExtractorRules.MetadataAt | utils/generate-html.js:36-42 | A line that carries the label sets the field to that line's value. |
| ExtractorRules.MetadataPast | utils/generate-html.js:36-42 | A line without the label leaves the field as it was. |
| ExtractorRules.ExtractMetadata | utils/generate-html.js:84-86 | The last label line decides. An absent or empty value gives the default: the supplied timestamp, `diagram`, or the empty text. |
| ExtractorRules.ScanFence | utils/generate-html.js:45-52 | The fence flag is set exactly when some opener was seen and no closer came after it. |
| ExtractorRules.ScanSections | utils/generate-html.js:58-71 | The description flag and the related-files flag are each set exactly when the last `##` line started with that section's heading. |
| ExtractorRules.SectionsExclusive | utils/generate-html.js:58-71 | The pass is never in the description section and the related-files section at once. |
| ExtractorRules.CollectsAtStep | utils/generate-html.js:44-79 | The iteration-level condition for collecting a line equals the declarative condition `Collects`, for each of the three texts. |
| ExtractorRules.ScanDiagramSource | utils/generate-html.js:44-55 | Before trimming, the diagram source is every line the fence collected, in order, each followed by a line feed. |
| ExtractorRules.ExtractDiagramSource | utils/generate-html.js:87 | The returned diagram source is the collected fence lines, joined with line feeds and then trimmed. |
| ExtractorRules.UnterminatedFence | utils/generate-html.js:45-55 | A fence that is never closed captures every line after its opener through the end of the note, as long as none of those lines is an opener or a `# ` line. |
| ExtractorRules.ScanDescription | utils/generate-html.js:57-74 | Before trimming, the description is every collected description line, in order, each followed by a space. |
| ExtractorRules.ExtractDescription | utils/generate-html.js:88 | The returned description is those lines, trimmed, or `No description provided` when that is empty. |
| ExtractorRules.ScanRelatedFiles | utils/generate-html.js:76-79 | The related files are the bullet text of each collected line, one entry per line, in order. |
| ExtractorRules.BulletsSnoc | utils/generate-html.js:78 | Collecting one more bullet line appends that line's bullet text to the list. |
| ExtractorRules.ExtractRelatedFiles | utils/generate-html.js:89 | The returned list is those bullet texts, and it has exactly as many entries as there are collected bullet lines. |
| ExtractorRules.CollectedShapes | utils/generate-html.js:44-79 | No fence opener or closer is ever in the diagram source. No `##` line of any level and no blank line is ever in the description. Every related-files line is a dash line and not a `##` line. |
| ExtractorRules.CollectedFromLines | utils/generate-html.js:44-79 | Every collected line is a line of the note. |
| ExtractorRules.BulletOneLine | utils/generate-html.js:78 | The bullet text of a line without a line feed has none either. |
| ExtractorRules.BulletOfDash | utils/generate-html.js:77-78 | A bullet line `- name`, with any whitespace before the dash, between the dash and the name, and after the name, gives exactly `name`. |
| ExtractorRules.ExtractedFilesOneLine | utils/generate-html.js:78 | No extracted related file contains a line feed. |
| Cases.ValueAfterLabel | utils/generate-html.js:36-41 | A label followed by any text is a label line, and its value is that text up to the next colon, trimmed. |
| Cases.TimestampCut | utils/generate-html.js:37 | `**Generated**: 2025-01-15T10:30:00Z` yields `2025-01-15T10`: the value stops at the next colon. |
| Text.TrimSpec | utils/generate-html.js:31 | `trim` returns the middle of the text between a whitespace-only head and a whitespace-only tail. Neither edge of the result is whitespace. The result is empty exactly when the text is blank. |
| Text.Trim | utils/generate-html.js:31 | `trim` never lengthens the text, and its result has no whitespace at either edge. `Text.TrimSpec` pins it down fully. |
| Text.TrimKeeps | utils/generate-html.js:78 | `trim` adds no character. |
| Text.SplitOn | utils/generate-html.js:12 | A split has at least one piece, and the first piece is a prefix of the text. |
| Text.JoinSplit | utils/generate-html.js:12 | Joining the pieces of a split with its separator gives back the text. |
| Text.SplitPiecesFree | utils/generate-html.js:12 | No piece of a split contains the separator. |
| Text.TakeUntil | utils/generate-html.js:37 | The text before the first `c` is a prefix without `c`. It ends at a `c` or at the end of the text. |
| Text.FirstPiece | utils/generate-html.js:37 | The first piece of a split on `c` is the text before the first `c`. |
| Text.SplitJoin | utils/generate-html.js:106-108 | Pieces without `c`, joined with `c` and split on `c`, come back unchanged. |
| Replace.Expand | utils/generate-html.js:98-109 | A replacement value without `$` is inserted exactly as it is. |
| Replace.ReplaceAll | utils/generate-html.js:98-109 | The global `replace` of one placeholder. `Replace.ReplaceAllAbsent` states that an absent pattern changes nothing, and `Replace.ReplaceAllEvery` states that a `$`-free value goes into every cut. |
| Replace.ReplaceAllAbsent | utils/generate-html.js:98-109 | A global replace of a pattern that does not occur leaves the text unchanged. |
| Replace.ReplaceAllEvery | utils/generate-html.js:98-109 | With a `$`-free value, a global replace cuts the text at every occurrence of the pattern and puts the value in each cut. The pieces join back to the text, and none still holds the pattern. |
| Renderer.Substitutions | utils/generate-html.js:98-109 | There are exactly seven substitutions, and each token starts with the `{{` marker. |
| Renderer.Apply | utils/generate-html.js:97-111 | The seven replacements, each applied to the previous result. `Renderer.ApplySnoc` states the order, `Renderer.ApplyUntouched` the untouched case and `Renderer.ApplyLiteral` the split-and-join form. |
| Renderer.GenerateHTML | utils/generate-html.js:93-111 | The page for a record and a template text. `Renderer.GenerateHTMLUntouched` and `Renderer.GenerateHTMLLiteral` state what it returns. |
| Renderer.RelatedFilesBlock | utils/generate-html.js:105-109 | The block is never empty: it opens a list item and closes one. `Renderer.BlockLines` and `Renderer.BlockIsNone` give its lines. |
| Renderer.ApplySnoc | utils/generate-html.js:97-111 | The substitutions run in list order: each one works on the output of those before it. |
| Renderer.ApplyUntouched | utils/generate-html.js:97-111 | Substitutions whose placeholders do not occur in the text change nothing. |
| Renderer.GenerateHTMLUntouched | utils/generate-html.js:93-111 | A template holding none of the seven placeholders is returned unchanged. |
| Renderer.ApplyLiteral | utils/generate-html.js:97-111 | With `$`-free values, each substitution is a split on the placeholder, joined with the value. |
| Renderer.GenerateHTMLLiteral | utils/generate-html.js:97-111 | For a record without `$`, the page is the template, cut and filled in the order title, generated, type, context, diagram source, description, related files. |
| Renderer.MatchedTextSpecial | utils/generate-html.js:98 | A value of `$&` puts the placeholder itself back: values are not inserted literally. |
| Renderer.ItemLineShape | utils/generate-html.js:107 | Each item line starts with sixteen spaces and `<li>`, ends with `</li>`, and has no line feed when the file name has none. |
| Renderer.ItemLineInjective | utils/generate-html.js:107 | Two files give the same item line only when they are the same file. |
| Renderer.BlockLines | utils/generate-html.js:105-109 | For file names without line feeds, the block is one `<li>` line per file, in order, or the single `None` line for no files. That is the larger of 1 and the number of files. |
| Renderer.BlockIsNone | utils/generate-html.js:105-109 | The block is the single `None` line exactly when the list is empty, or when it is the one-entry list `["None"]`. |
| Renderer.BlockPlain | utils/generate-html.js:105-109 | A block built from file names without `$` has no `$`. |
| Renderer.PageFileLines | utils/generate-html.js:76-79 | The page's list, built from an extracted note, has one line per collected bullet line of the note's related-files section, or one `None` line. |
| Cli.OutputPathGiven | utils/generate-html.js:139 | A non-empty second argument is used as the output path as it is. |
| Cli.OutputPath | utils/generate-html.js:139 | The output path. `Cli.OutputPathGiven`, `OutputPathEmptyGiven`, `OutputPathMarkdown`, `OutputPathOverwrites` and `OutputPathIdempotent` state it case by case. |
| Cli.OutputPathEmptyGiven | utils/generate-html.js:139 | An empty second argument counts as no second argument. |
| Cli.OutputPathMarkdown | utils/generate-html.js:139 | Without a second argument, `stem.md` gives `stem.html`. |
| Cli.OutputPathOverwrites | utils/generate-html.js:139 | Without a second argument, the output path equals the input exactly when the input does not end in `.md`. An `.md` input gives a path that ends in `.html`. |
| Cli.OutputPathIdempotent | utils/generate-html.js:139 | Deriving the output path from a derived output path changes nothing. |
| Cli.OutputPathOtherSuffix | utils/generate-html.js:139 | `foo.txt` is returned as `foo.txt`. |

## Left out

- File and process handling in `main` (`utils/generate-html.js:114-154`) is not modelled. That covers the argument check and its usage message, the existence check, reading and writing files, the console summary, and the exit codes. They are I/O with no logic beyond the output-path expression.
- The template file read in `generateHTML` (lines 94-95) is not modelled. The template text is a parameter, and a missing template is the I/O failure of that read.
- The `new Date().toISOString()` default (line 84) reads the clock. It is a parameter `now`.
- `Text.SplitOn` is `split` for non-empty separators only, the only kind the script uses.
- `Text.Trim` removes a fixed character set: the ECMAScript WhiteSpace and LineTerminator characters as listed in `Text.IsWhitespace`.
- Strings are sequences of Dafny characters. UTF-16 surrogate pairs and the file encoding are not modelled.
- No value is HTML-escaped, in the script or in the model. No property is stated about what the page looks like to a browser.
- ExtractorRules.UnterminatedFence: states a sufficient condition. It excludes every `# ` line after the opener, although such a line is collected into the fence once a title has been found.
- Renderer.GenerateHTMLLiteral: applies only to values without `$`. Values with `$` go through the replacement patterns, which `Replace.Expand` models and `Renderer.MatchedTextSpecial` illustrates.
- Renderer.BlockLines: requires file names without line feeds. Every extracted name satisfies this (`ExtractorRules.ExtractedFilesOneLine`), but a record built by another caller may not.
