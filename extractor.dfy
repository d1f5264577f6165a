/** The Markdown extractor (`extractDiagramInfo`): one forward pass over the
    lines of the note with three independent mode flags, collecting the
    title, the three metadata fields, the mermaid source, the description
    and the related-files list, and applying defaults at the end.
 */
module Extractor {
  import opened Text

  /** What the extractor hands to the renderer. `kind` is the note's
      `type` field. */
  datatype DiagramInfo = DiagramInfo(
    title: string,
    generated: string,
    kind: string,
    context: string,
    mermaidCode: string,
    description: string,
    relatedFiles: seq<string>)

  /** The loop's variables between two iterations. */
  datatype ScanState = ScanState(
    title: string,
    generated: string,
    kind: string,
    context: string,
    mermaidCode: string,
    description: string,
    relatedFiles: seq<string>,
    inMermaid: bool,
    inDescription: bool,
    inRelatedFiles: bool)

  const Start := ScanState("", "", "", "", "", "", [], false, false, false)

  const TitleMarker := "# "
  const FenceOpener := "```mermaid"
  const FenceCloser := "```"
  const SectionMarker := "##"
  const DescriptionHeading := "## Description"
  const RelatedFilesHeading := "## Related Files"

  /** The three bold metadata labels. */
  datatype MetaKey = Generated | Type | Context

  function Label(key: MetaKey): (r: string)
    ensures |r| >= 2 && r[|r| - 1] == ':' && ':' !in r[..|r| - 1]
  {
    match key
    case Generated => "**Generated**:"
    case Type => "**Type**:"
    case Context => "**Context**:"
  }

  function Field(st: ScanState, key: MetaKey): string {
    match key
    case Generated => st.generated
    case Type => st.kind
    case Context => st.context
  }

  predicate IsOpener(line: string) { Trim(line) == FenceOpener }

  predicate IsCloser(line: string) { Trim(line) == FenceCloser }

  /** `markdownContent.split('\n')`: the lines, free of line feeds, that
      join back to the note. */
  function Lines(markdown: string): (ls: seq<string>)
    ensures |ls| >= 1
    ensures Join(ls, "\n") == markdown
    ensures forall l :: l in ls ==> '\n' !in l
  {
    JoinSplit(markdown, "\n");
    SplitPiecesFree(markdown, "\n");
    var ls := SplitOn(markdown, "\n");
    assert forall l :: l in ls ==> '\n' !in l by {
      forall l | l in ls ensures '\n' !in l {
        ContainsChar(l, '\n');
      }
    }
    ls
  }

  /** The colon of a label is the first colon of the line, so
      `line.split(':')` has the label's name as its first piece. */
  lemma {:induction false} LabelSplits(line: string, key: MetaKey)
    requires StartsWith(line, Label(key))
    ensures var n := |Label(key)|;
      SplitOn(line, ":") == [Label(key)[..n - 1]] + SplitOn(line[n..], ":")
  {
    var l := Label(key);
    var n := |l|;
    assert line == l[..n - 1] + [':'] + line[n..] by {
      assert l == l[..n - 1] + [':'];
      assert line == line[..n] + line[n..];
    }
    SplitAfter(l[..n - 1], ':', line[n..]);
  }

  /** `line.split(':')[1].trim()` on a metadata line: the text after the
      label up to the next colon, trimmed. */
  function MetaValue(line: string, key: MetaKey): (r: string)
    requires StartsWith(line, Label(key))
    ensures r == Trim(TakeUntil(line[|Label(key)|..], ':'))
  {
    LabelSplits(line, key);
    FirstPiece(line[|Label(key)|..], ':');
    Trim(SplitOn(line, ":")[1])
  }

  /** `line.trim().substring(1).trim()`; `substring(1)` of an empty text
      is empty. The result has no whitespace at its edges, and the first
      visible character of a non-blank line is always dropped. */
  function BulletText(line: string): (r: string)
    ensures r == [] || (!IsWhitespace(r[0]) && !IsWhitespace(r[|r| - 1]))
    ensures Trim(line) != [] ==> |r| < |line|
  {
    var t := Trim(line);
    Trim(if t == [] then [] else t[1..])
  }

  /** One iteration of the loop body; a `continue` ends the iteration with
      the state reached so far. A `# ` line seen while the title is still
      empty is consumed by the title. */
  function Step(st: ScanState, line: string): ScanState {
    if StartsWith(line, TitleMarker) && st.title == "" then
      st.(title := Trim(line[2..]))
    else
      FenceStep(MetaStep(st, line), line)
  }

  /** The metadata block: the line's label, if any, overwrites its field. */
  function MetaStep(st: ScanState, line: string): ScanState {
    if StartsWith(line, Label(Generated)) then st.(generated := MetaValue(line, Generated))
    else if StartsWith(line, Label(Type)) then st.(kind := MetaValue(line, Type))
    else if StartsWith(line, Label(Context)) then st.(context := MetaValue(line, Context))
    else st
  }

  /** The fence block: the opener and, inside a fence, the closer end the
      iteration; any other line inside a fence is captured and then goes on
      to the section logic. */
  function FenceStep(st: ScanState, line: string): ScanState {
    if IsOpener(line) then st.(inMermaid := true)
    else if st.inMermaid && IsCloser(line) then st.(inMermaid := false)
    else
      SectionStep(if st.inMermaid then st.(mermaidCode := st.mermaidCode + line + "\n") else st, line)
  }

  /** The section headings: the two recognised ones switch section and end
      the iteration; any other `##` line (also `###`) leaves both sections. */
  function SectionStep(st: ScanState, line: string): ScanState {
    if StartsWith(line, DescriptionHeading) then
      st.(inDescription := true, inRelatedFiles := false)
    else if StartsWith(line, RelatedFilesHeading) then
      st.(inDescription := false, inRelatedFiles := true)
    else
      CollectStep(
        if StartsWith(line, SectionMarker) then st.(inDescription := false, inRelatedFiles := false)
        else st,
        line)
  }

  /** A non-blank description line and a related-files bullet are collected. */
  function CollectStep(st: ScanState, line: string): ScanState {
    var st1 :=
      if st.inDescription && Trim(line) != "" then st.(description := st.description + line + " ")
      else st;
    if st1.inRelatedFiles && StartsWith(Trim(line), "-") then
      st1.(relatedFiles := st1.relatedFiles + [BulletText(line)])
    else st1
  }

  /** The state after the loop has run over `ls`: at most one related file
      per line. */
  function Scan(ls: seq<string>): ScanState {
    if ls == [] then Start else Step(Scan(ls[..|ls| - 1]), ls[|ls| - 1])
  }

  lemma {:induction false} ScanSnoc(ls: seq<string>, i: nat)
    requires i < |ls|
    ensures Scan(ls[..i + 1]) == Step(Scan(ls[..i]), ls[i])
  {
    assert ls[..i + 1][..i] == ls[..i];
  }

  /** The defaults of the returned record; `now` stands for the
      `new Date().toISOString()` fallback. */
  function Finalize(st: ScanState, now: string): (info: DiagramInfo)
    ensures info.title != "" && info.kind != "" && info.description != ""
  {
    var description := Trim(st.description);
    DiagramInfo(
      if st.title == "" then "Diagram" else st.title,
      if st.generated == "" then now else st.generated,
      if st.kind == "" then "diagram" else st.kind,
      st.context,
      Trim(st.mermaidCode),
      if description == "" then "No description provided" else description,
      st.relatedFiles)
  }

  /** The record for a note: never more related files than lines. */
  function Extract(markdown: string, now: string): DiagramInfo {
    Finalize(Scan(Lines(markdown)), now)
  }

  /** `extractDiagramInfo(markdownContent)`, with the timestamp default
      passed in as `now`. */
  method ExtractDiagramInfo(markdown: string, now: string) returns (info: DiagramInfo)
    ensures info == Extract(markdown, now)
  {
    var lines := Lines(markdown);
    var title, generated, kind, context := "", "", "", "";
    var mermaidCode, description := "", "";
    var relatedFiles: seq<string> := [];
    var inMermaid, inDescription, inRelatedFiles := false, false, false;
    for i := 0 to |lines|
      invariant Scan(lines[..i]) == ScanState(title, generated, kind, context, mermaidCode,
                                              description, relatedFiles,
                                              inMermaid, inDescription, inRelatedFiles)
    {
      var line := lines[i];
      ScanSnoc(lines, i);
      ghost var next := Step(ScanState(title, generated, kind, context, mermaidCode, description,
                                       relatedFiles, inMermaid, inDescription, inRelatedFiles), line);

      if StartsWith(line, TitleMarker) && title == "" {
        title := Trim(line[2..]);
        continue;
      }

      if StartsWith(line, Label(Generated)) {
        generated := MetaValue(line, Generated);
      } else if StartsWith(line, Label(Type)) {
        kind := MetaValue(line, Type);
      } else if StartsWith(line, Label(Context)) {
        context := MetaValue(line, Context);
      }
      assert next == FenceStep(ScanState(title, generated, kind, context, mermaidCode, description,
                                         relatedFiles, inMermaid, inDescription, inRelatedFiles), line);

      if IsOpener(line) {
        inMermaid := true;
        continue;
      }
      if inMermaid && IsCloser(line) {
        inMermaid := false;
        continue;
      }
      if inMermaid {
        mermaidCode := mermaidCode + line + "\n";
      }
      assert next == SectionStep(ScanState(title, generated, kind, context, mermaidCode, description,
                                           relatedFiles, inMermaid, inDescription, inRelatedFiles), line);

      if StartsWith(line, DescriptionHeading) {
        inDescription := true;
        inRelatedFiles := false;
        continue;
      }
      if StartsWith(line, RelatedFilesHeading) {
        inDescription := false;
        inRelatedFiles := true;
        continue;
      }
      if StartsWith(line, SectionMarker) {
        inDescription := false;
        inRelatedFiles := false;
      }
      assert next == CollectStep(ScanState(title, generated, kind, context, mermaidCode, description,
                                           relatedFiles, inMermaid, inDescription, inRelatedFiles), line);

      if inDescription && Trim(line) != "" {
        description := description + line + " ";
      }

      if inRelatedFiles && StartsWith(Trim(line), "-") {
        relatedFiles := relatedFiles + [BulletText(line)];
      }
    }
    assert lines[..|lines|] == lines;
    var trimmed := Trim(description);
    info := DiagramInfo(
      if title == "" then "Diagram" else title,
      if generated == "" then now else generated,
      if kind == "" then "diagram" else kind,
      context,
      Trim(mermaidCode),
      if trimmed == "" then "No description provided" else trimmed,
      relatedFiles);
  }
}
