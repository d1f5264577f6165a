/** What the extractor computes, stated line by line over the note instead
    of iteration by iteration: the first usable `# ` line gives the title,
    the last label line of each kind gives its field, a fence is open
    exactly after an opener that no closer followed, a section is open
    exactly when the last `##` line was its heading, and each of the three
    collected texts is made of the lines the declarative conditions below
    select, in order.
 */
module ExtractorRules {
  import opened Text
  import opened Extractor

  // ---------------------------------------------------------------------
  // Declarative description of a note

  /** A `# ` line whose remainder is not blank: the only kind of line that
      gives the title a value. */
  predicate TitleLine(line: string) {
    StartsWith(line, TitleMarker) && Trim(line[2..]) != ""
  }

  predicate NoTitleLine(ls: seq<string>) {
    forall j :: 0 <= j < |ls| ==> !TitleLine(ls[j])
  }

  /** `line` is eaten by the title test: a `# ` line while no earlier line
      gave the title a value. */
  predicate TitleConsumes(before: seq<string>, line: string) {
    StartsWith(line, TitleMarker) && NoTitleLine(before)
  }

  /** After `ls` a fence is open: some opener is followed by no closer. */
  ghost predicate FenceOpen(ls: seq<string>) {
    exists j :: 0 <= j < |ls| && IsOpener(ls[j]) && forall k :: j < k < |ls| ==> !IsCloser(ls[k])
  }

  /** After `ls` the section under `heading` is open: the last line that
      starts with `##` starts with `heading`. */
  ghost predicate SectionOpen(ls: seq<string>, heading: string) {
    exists j :: 0 <= j < |ls| && StartsWith(ls[j], heading)
                && forall k :: j < k < |ls| ==> !StartsWith(ls[k], SectionMarker)
  }

  /** `line` gets past the title test and the fence markers, which end an
      iteration, to the section logic. */
  ghost predicate ReachesSections(before: seq<string>, line: string) {
    !TitleConsumes(before, line) && !IsOpener(line) && !(FenceOpen(before) && IsCloser(line))
  }

  /** The three texts the pass collects line by line. */
  datatype Part = FenceBody | DescriptionBody | RelatedFilesBody

  /** Whether `line`, coming after `before`, is collected into `part`. */
  ghost predicate Collects(part: Part, before: seq<string>, line: string) {
    ReachesSections(before, line) &&
    match part
    case FenceBody => FenceOpen(before)
    case DescriptionBody =>
      SectionOpen(before, DescriptionHeading) && !StartsWith(line, SectionMarker) && Trim(line) != ""
    case RelatedFilesBody =>
      SectionOpen(before, RelatedFilesHeading) && !StartsWith(line, SectionMarker)
      && StartsWith(Trim(line), "-")
  }

  /** The lines of `ls` collected into `part`, in order. */
  ghost function Collected(part: Part, ls: seq<string>): seq<string> {
    if ls == [] then []
    else
      var before, line := ls[..|ls| - 1], ls[|ls| - 1];
      Collected(part, before) + (if Collects(part, before, line) then [line] else [])
  }

  /** Each text followed by `t`, concatenated. */
  function Terminated(xs: seq<string>, t: string): string {
    if xs == [] then "" else Terminated(xs[..|xs| - 1], t) + xs[|xs| - 1] + t
  }

  function Bullets(xs: seq<string>): seq<string> {
    seq(|xs|, i requires 0 <= i < |xs| => BulletText(xs[i]))
  }

  // ---------------------------------------------------------------------
  // Facts about the fixed markers

  lemma {:induction false} PrefixOfPrefix(s: string, p: string, q: string)
    requires StartsWith(s, p) && StartsWith(p, q)
    ensures StartsWith(s, q)
  {
    assert s[..|q|] == s[..|p|][..|q|];
  }

  lemma {:induction false} PrefixClash(s: string, p: string, q: string, k: nat)
    requires k < |p| && k < |q| && p[k] != q[k]
    requires StartsWith(s, p)
    ensures !StartsWith(s, q)
  {
    assert s[..|p|][k] == s[k];
    if |q| <= |s| {
      assert s[..|q|][k] == s[k];
    }
  }

  /** A line that starts with a visible character keeps it through
      `trim`, so fence markers never start like a title or a heading. */
  lemma {:induction false} MarkerShapes(line: string)
    ensures IsOpener(line) || IsCloser(line) ==>
              !StartsWith(line, TitleMarker) && !StartsWith(line, SectionMarker)
  {
    if |line| > 0 && line[0] == '#' {
      TrimSpec(line);
    }
  }

  /** The two recognised headings are `##` lines and exclude each other. */
  lemma {:induction false} HeadingShapes(line: string)
    ensures StartsWith(line, DescriptionHeading) ==> StartsWith(line, SectionMarker)
    ensures StartsWith(line, RelatedFilesHeading) ==> StartsWith(line, SectionMarker)
    ensures StartsWith(line, DescriptionHeading) ==> !StartsWith(line, RelatedFilesHeading)
  {
    if StartsWith(line, DescriptionHeading) {
      PrefixOfPrefix(line, DescriptionHeading, SectionMarker);
      PrefixClash(line, DescriptionHeading, RelatedFilesHeading, 3);
    }
    if StartsWith(line, RelatedFilesHeading) {
      PrefixOfPrefix(line, RelatedFilesHeading, SectionMarker);
    }
  }

  /** A label line is no title line and carries no other label. */
  lemma {:induction false} LabelShapes(line: string, key: MetaKey)
    requires StartsWith(line, Label(key))
    ensures !StartsWith(line, TitleMarker)
    ensures forall other :: other != key ==> !StartsWith(line, Label(other))
  {
    PrefixClash(line, Label(key), TitleMarker, 0);
    forall other | other != key ensures !StartsWith(line, Label(other)) {
      PrefixClash(line, Label(key), Label(other), 2);
    }
  }

  // ---------------------------------------------------------------------
  // One iteration, field by field

  /** A `# ` line while the title is empty is eaten by the title test. */
  predicate Consumed(st: ScanState, line: string) {
    StartsWith(line, TitleMarker) && st.title == ""
  }

  /** The iteration gets past the title test and the fence markers. */
  predicate Reaches(st: ScanState, line: string) {
    !Consumed(st, line) && !IsOpener(line) && !(st.inMermaid && IsCloser(line))
  }

  /** The state the section logic starts from when a line gets there:
      the metadata applied and, inside a fence, the line captured. */
  function Mid(st: ScanState, line: string): ScanState {
    var m := MetaStep(st, line);
    if m.inMermaid then m.(mermaidCode := m.mermaidCode + line + "\n") else m
  }

  /** The metadata block touches the three metadata fields only. */
  lemma {:induction false} MetaFrame(st: ScanState, line: string)
    ensures var m := MetaStep(st, line);
      m.(generated := st.generated, kind := st.kind, context := st.context) == st
  {
  }

  lemma {:induction false} MetaField(st: ScanState, line: string, key: MetaKey)
    ensures Field(MetaStep(st, line), key) ==
      if StartsWith(line, Label(key)) then MetaValue(line, key) else Field(st, key)
  {
    if StartsWith(line, Label(key)) {
      LabelShapes(line, key);
    } else {
      forall other | StartsWith(line, Label(other)) ensures other != key {
      }
    }
  }

  /** The collection block touches the description and the related files only. */
  lemma {:induction false} CollectFrame(st: ScanState, line: string)
    ensures var c := CollectStep(st, line);
      c.(description := st.description, relatedFiles := st.relatedFiles) == st
  {
  }

  /** The section block touches the section flags and the collected texts only. */
  lemma {:induction false} SectionFrame(st: ScanState, line: string)
    ensures var c := SectionStep(st, line);
      c.(description := st.description, relatedFiles := st.relatedFiles,
         inDescription := st.inDescription, inRelatedFiles := st.inRelatedFiles) == st
  {
    CollectFrame(if StartsWith(line, SectionMarker) then st.(inDescription := false, inRelatedFiles := false)
                 else st, line);
  }

  lemma {:induction false} SectionFlags(st: ScanState, line: string)
    ensures SectionStep(st, line).inDescription ==
      if StartsWith(line, SectionMarker) then StartsWith(line, DescriptionHeading) else st.inDescription
    ensures SectionStep(st, line).inRelatedFiles ==
      if StartsWith(line, SectionMarker) then StartsWith(line, RelatedFilesHeading) else st.inRelatedFiles
  {
    HeadingShapes(line);
    CollectFrame(if StartsWith(line, SectionMarker) then st.(inDescription := false, inRelatedFiles := false)
                 else st, line);
  }

  lemma {:induction false} SectionCollects(st: ScanState, line: string)
    ensures SectionStep(st, line).description ==
      if !StartsWith(line, SectionMarker) && st.inDescription && Trim(line) != ""
      then st.description + line + " " else st.description
    ensures SectionStep(st, line).relatedFiles ==
      if !StartsWith(line, SectionMarker) && st.inRelatedFiles && StartsWith(Trim(line), "-")
      then st.relatedFiles + [BulletText(line)] else st.relatedFiles
  {
    HeadingShapes(line);
  }

  /** One iteration, phase by phase. */
  lemma {:induction false} StepShape(st: ScanState, line: string)
    ensures Step(st, line) ==
      if Consumed(st, line) then st.(title := Trim(line[2..]))
      else if IsOpener(line) then MetaStep(st, line).(inMermaid := true)
      else if st.inMermaid && IsCloser(line) then MetaStep(st, line).(inMermaid := false)
      else SectionStep(Mid(st, line), line)
  {
    MetaFrame(st, line);
  }

  /** What one iteration does to the title. */
  lemma {:induction false} StepTitle(st: ScanState, line: string)
    ensures Step(st, line).title == if Consumed(st, line) then Trim(line[2..]) else st.title
  {
    StepShape(st, line);
    MetaFrame(st, line);
    SectionFrame(Mid(st, line), line);
  }

  /** What one iteration does to the metadata fields. */
  lemma {:induction false} StepMetadata(st: ScanState, line: string, key: MetaKey)
    ensures Field(Step(st, line), key) ==
      if !Consumed(st, line) && StartsWith(line, Label(key)) then MetaValue(line, key) else Field(st, key)
  {
    StepShape(st, line);
    MetaField(st, line, key);
    SectionFrame(Mid(st, line), line);
  }

  /** What one iteration does to the fence flag and the diagram source. */
  lemma {:induction false} StepFence(st: ScanState, line: string)
    ensures Step(st, line).inMermaid == (if Consumed(st, line) then st.inMermaid
                                         else if IsOpener(line) then true
                                         else if IsCloser(line) then false
                                         else st.inMermaid)
    ensures Step(st, line).mermaidCode ==
      if Reaches(st, line) && st.inMermaid then st.mermaidCode + line + "\n" else st.mermaidCode
  {
    StepShape(st, line);
    MetaFrame(st, line);
    SectionFrame(Mid(st, line), line);
  }

  /** What one iteration does to the section flags. */
  lemma {:induction false} StepSections(st: ScanState, line: string)
    ensures var heading := Reaches(st, line) && StartsWith(line, SectionMarker);
      && Step(st, line).inDescription ==
           (if heading then StartsWith(line, DescriptionHeading) else st.inDescription)
      && Step(st, line).inRelatedFiles ==
           (if heading then StartsWith(line, RelatedFilesHeading) else st.inRelatedFiles)
  {
    StepShape(st, line);
    MetaFrame(st, line);
    SectionFlags(Mid(st, line), line);
  }

  /** What one iteration does to the description. */
  lemma {:induction false} StepDescription(st: ScanState, line: string)
    ensures Step(st, line).description ==
      if Reaches(st, line) && !StartsWith(line, SectionMarker) && st.inDescription && Trim(line) != ""
      then st.description + line + " " else st.description
  {
    StepShape(st, line);
    MetaFrame(st, line);
    SectionCollects(Mid(st, line), line);
  }

  /** What one iteration does to the related files. */
  lemma {:induction false} StepRelatedFiles(st: ScanState, line: string)
    ensures Step(st, line).relatedFiles ==
      if Reaches(st, line) && !StartsWith(line, SectionMarker) && st.inRelatedFiles
         && StartsWith(Trim(line), "-")
      then st.relatedFiles + [BulletText(line)] else st.relatedFiles
  {
    StepShape(st, line);
    MetaFrame(st, line);
    SectionCollects(Mid(st, line), line);
  }

  // ---------------------------------------------------------------------
  // The scan, field by field

  /** The title is that of the first title line; it stays empty when
      there is none. */
  lemma {:induction false} ScanTitle(ls: seq<string>)
    ensures (Scan(ls).title == "") == NoTitleLine(ls)
    ensures forall i :: 0 <= i < |ls| && TitleLine(ls[i]) && NoTitleLine(ls[..i]) ==>
              Scan(ls).title == Trim(ls[i][2..])
  {
    TitleBlank(ls);
    forall i | 0 <= i < |ls| && TitleLine(ls[i]) && NoTitleLine(ls[..i])
      ensures Scan(ls).title == Trim(ls[i][2..])
    {
      TitleFirst(ls, i);
    }
  }

  lemma {:induction false} NoTitleSnoc(ls: seq<string>)
    requires |ls| > 0
    ensures NoTitleLine(ls) == (NoTitleLine(ls[..|ls| - 1]) && !TitleLine(ls[|ls| - 1]))
  {
    var before := ls[..|ls| - 1];
    assert forall j :: 0 <= j < |before| ==> before[j] == ls[j];
  }

  lemma {:induction false} TitleBlank(ls: seq<string>)
    ensures (Scan(ls).title == "") == NoTitleLine(ls)
  {
    if ls != [] {
      var before, line := ls[..|ls| - 1], ls[|ls| - 1];
      TitleBlank(before);
      StepTitle(Scan(before), line);
      NoTitleSnoc(ls);
    }
  }

  lemma {:induction false} TitleFirst(ls: seq<string>, i: nat)
    requires i < |ls| && TitleLine(ls[i]) && NoTitleLine(ls[..i])
    ensures Scan(ls).title == Trim(ls[i][2..])
  {
    var n := |ls| - 1;
    var before, line := ls[..n], ls[n];
    StepTitle(Scan(before), line);
    if i == n {
      assert before == ls[..i];
      TitleBlank(before);
    } else {
      assert before[i] == ls[i];
      assert before[..i] == ls[..i];
      TitleFirst(before, i);
    }
  }

  /** Each metadata field holds the value of the last line carrying its
      label, and stays empty when there is none. */
  lemma {:induction false} ScanMetadata(ls: seq<string>, key: MetaKey)
    ensures (forall j :: 0 <= j < |ls| ==> !StartsWith(ls[j], Label(key))) ==> Field(Scan(ls), key) == ""
    ensures forall j :: 0 <= j < |ls| && StartsWith(ls[j], Label(key))
                        && (forall k :: j < k < |ls| ==> !StartsWith(ls[k], Label(key))) ==>
              Field(Scan(ls), key) == MetaValue(ls[j], key)
  {
    MetadataNone(ls, key);
    MetadataAny(ls, key);
  }

  lemma {:induction false} MetadataNone(ls: seq<string>, key: MetaKey)
    ensures (forall j :: 0 <= j < |ls| ==> !StartsWith(ls[j], Label(key))) ==> Field(Scan(ls), key) == ""
  {
    if forall j :: 0 <= j < |ls| ==> !StartsWith(ls[j], Label(key)) {
      MetadataAbsent(ls, key);
    }
  }

  lemma {:induction false} MetadataAny(ls: seq<string>, key: MetaKey)
    ensures forall j :: 0 <= j < |ls| && StartsWith(ls[j], Label(key))
                        && (forall k :: j < k < |ls| ==> !StartsWith(ls[k], Label(key))) ==>
              Field(Scan(ls), key) == MetaValue(ls[j], key)
  {
    forall j | 0 <= j < |ls| && StartsWith(ls[j], Label(key))
               && (forall k :: j < k < |ls| ==> !StartsWith(ls[k], Label(key)))
      ensures Field(Scan(ls), key) == MetaValue(ls[j], key)
    {
      MetadataLast(ls, key, j);
    }
  }

  lemma {:induction false} MetadataAbsent(ls: seq<string>, key: MetaKey)
    requires forall j :: 0 <= j < |ls| ==> !StartsWith(ls[j], Label(key))
    ensures Field(Scan(ls), key) == ""
  {
    if ls != [] {
      var n := |ls| - 1;
      assert forall j :: 0 <= j < n ==> ls[..n][j] == ls[j];
      MetadataAbsent(ls[..n], key);
      StepMetadata(Scan(ls[..n]), ls[n], key);
    }
  }

  lemma {:induction false} MetadataLast(ls: seq<string>, key: MetaKey, j: nat)
    requires j < |ls| && StartsWith(ls[j], Label(key))
    requires forall k :: j < k < |ls| ==> !StartsWith(ls[k], Label(key))
    ensures Field(Scan(ls), key) == MetaValue(ls[j], key)
  {
    var n := |ls| - 1;
    if j == n {
      MetadataAt(ls, key);
    } else {
      var before := ls[..n];
      assert before[j] == ls[j];
      assert forall k :: j < k < n ==> before[k] == ls[k];
      MetadataLast(before, key, j);
      MetadataPast(ls, key);
    }
  }

  /** A line with the label sets the field to its value. */
  lemma {:induction false} MetadataAt(ls: seq<string>, key: MetaKey)
    requires |ls| > 0 && StartsWith(ls[|ls| - 1], Label(key))
    ensures Field(Scan(ls), key) == MetaValue(ls[|ls| - 1], key)
  {
    var n := |ls| - 1;
    LabelShapes(ls[n], key);
    StepMetadata(Scan(ls[..n]), ls[n], key);
  }

  /** A line without the label leaves the field alone. */
  lemma {:induction false} MetadataPast(ls: seq<string>, key: MetaKey)
    requires |ls| > 0 && !StartsWith(ls[|ls| - 1], Label(key))
    ensures Field(Scan(ls), key) == Field(Scan(ls[..|ls| - 1]), key)
  {
    var n := |ls| - 1;
    StepMetadata(Scan(ls[..n]), ls[n], key);
  }

  /** The fence flag is set exactly when an opener was seen and no closer
      after it. */
  lemma {:induction false} ScanFence(ls: seq<string>)
    ensures Scan(ls).inMermaid <==> FenceOpen(ls)
  {
    if ls != [] {
      var n := |ls| - 1;
      var before, line := ls[..n], ls[n];
      ScanFence(before);
      StepFence(Scan(before), line);
      MarkerShapes(line);
      if IsOpener(line) {
        FenceAtOpener(ls);
      } else if IsCloser(line) {
        FenceAtCloser(ls);
      } else {
        FencePastLine(ls);
      }
    }
  }

  lemma {:induction false} FenceAtOpener(ls: seq<string>)
    requires |ls| > 0 && IsOpener(ls[|ls| - 1])
    ensures FenceOpen(ls)
  {
  }

  lemma {:induction false} FenceAtCloser(ls: seq<string>)
    requires |ls| > 0 && IsCloser(ls[|ls| - 1])
    ensures !FenceOpen(ls)
  {
    var n := |ls| - 1;
    forall j | 0 <= j < |ls| && IsOpener(ls[j])
      ensures exists k :: j < k < |ls| && IsCloser(ls[k])
    {
      assert j < n && IsCloser(ls[n]);
    }
  }

  lemma {:induction false} FencePastLine(ls: seq<string>)
    requires |ls| > 0 && !IsOpener(ls[|ls| - 1]) && !IsCloser(ls[|ls| - 1])
    ensures FenceOpen(ls) <==> FenceOpen(ls[..|ls| - 1])
  {
    if FenceOpen(ls[..|ls| - 1]) {
      FenceGrows(ls);
    }
    if FenceOpen(ls) {
      FenceShrinks(ls);
    }
  }

  /** An open fence stays open over a line that is no closer. */
  lemma {:induction false} FenceGrows(ls: seq<string>)
    requires |ls| > 0 && !IsCloser(ls[|ls| - 1]) && FenceOpen(ls[..|ls| - 1])
    ensures FenceOpen(ls)
  {
    var n := |ls| - 1;
    var before := ls[..n];
    var j :| 0 <= j < n && IsOpener(before[j]) && forall k :: j < k < n ==> !IsCloser(before[k]);
    forall k | j < k < |ls| ensures !IsCloser(ls[k]) {
      if k < n {
        assert ls[k] == before[k];
      }
    }
    assert IsOpener(ls[j]);
  }

  /** A fence open after a line that is no opener was open before it. */
  lemma {:induction false} FenceShrinks(ls: seq<string>)
    requires |ls| > 0 && !IsOpener(ls[|ls| - 1]) && FenceOpen(ls)
    ensures FenceOpen(ls[..|ls| - 1])
  {
    var n := |ls| - 1;
    var before := ls[..n];
    var j :| 0 <= j < |ls| && IsOpener(ls[j]) && forall k :: j < k < |ls| ==> !IsCloser(ls[k]);
    assert j < n;
    forall k | j < k < n ensures !IsCloser(before[k]) {
      assert before[k] == ls[k];
    }
    assert IsOpener(before[j]);
  }

  /** Each section flag is set exactly when the last `##` line was that
      section's heading. */
  lemma {:induction false} ScanSections(ls: seq<string>)
    ensures Scan(ls).inDescription <==> SectionOpen(ls, DescriptionHeading)
    ensures Scan(ls).inRelatedFiles <==> SectionOpen(ls, RelatedFilesHeading)
  {
    if ls != [] {
      var n := |ls| - 1;
      var before, line := ls[..n], ls[n];
      ScanSections(before);
      StepSections(Scan(before), line);
      MarkerShapes(line);
      HeadingShapes(line);
      assert forall j :: 0 <= j < n ==> before[j] == ls[j];
      if StartsWith(line, SectionMarker) {
        SectionAtHeading(ls, DescriptionHeading);
        SectionAtHeading(ls, RelatedFilesHeading);
      } else {
        SectionPastLine(ls, DescriptionHeading);
        SectionPastLine(ls, RelatedFilesHeading);
      }
    }
  }

  lemma {:induction false} SectionAtHeading(ls: seq<string>, heading: string)
    requires |ls| > 0 && StartsWith(ls[|ls| - 1], SectionMarker)
    ensures SectionOpen(ls, heading) <==> StartsWith(ls[|ls| - 1], heading)
  {
    if SectionOpen(ls, heading) {
      var j :| 0 <= j < |ls| && StartsWith(ls[j], heading)
               && forall k :: j < k < |ls| ==> !StartsWith(ls[k], SectionMarker);
      assert j == |ls| - 1;
    }
  }

  lemma {:induction false} SectionPastLine(ls: seq<string>, heading: string)
    requires |ls| > 0 && !StartsWith(ls[|ls| - 1], SectionMarker)
    requires StartsWith(heading, SectionMarker)
    ensures SectionOpen(ls, heading) <==> SectionOpen(ls[..|ls| - 1], heading)
  {
    if SectionOpen(ls[..|ls| - 1], heading) {
      SectionGrows(ls, heading);
    }
    if SectionOpen(ls, heading) {
      SectionShrinks(ls, heading);
    }
  }

  /** An open section stays open over a line that is no `##` line. */
  lemma {:induction false} SectionGrows(ls: seq<string>, heading: string)
    requires |ls| > 0 && !StartsWith(ls[|ls| - 1], SectionMarker)
    requires SectionOpen(ls[..|ls| - 1], heading)
    ensures SectionOpen(ls, heading)
  {
    var n := |ls| - 1;
    var before := ls[..n];
    var j :| 0 <= j < n && StartsWith(before[j], heading)
             && forall k :: j < k < n ==> !StartsWith(before[k], SectionMarker);
    forall k | j < k < |ls| ensures !StartsWith(ls[k], SectionMarker) {
      if k < n {
        assert ls[k] == before[k];
      }
    }
    assert StartsWith(ls[j], heading);
  }

  /** A section open after a line that is no `##` line was open before it. */
  lemma {:induction false} SectionShrinks(ls: seq<string>, heading: string)
    requires |ls| > 0 && !StartsWith(ls[|ls| - 1], SectionMarker)
    requires StartsWith(heading, SectionMarker)
    requires SectionOpen(ls, heading)
    ensures SectionOpen(ls[..|ls| - 1], heading)
  {
    var n := |ls| - 1;
    var before := ls[..n];
    var j :| 0 <= j < |ls| && StartsWith(ls[j], heading)
             && forall k :: j < k < |ls| ==> !StartsWith(ls[k], SectionMarker);
    PrefixOfPrefix(ls[j], heading, SectionMarker);
    assert j < n;
    forall k | j < k < n ensures !StartsWith(before[k], SectionMarker) {
      assert before[k] == ls[k];
    }
    assert StartsWith(before[j], heading);
  }

  /** The pass is never in both sections at once. */
  lemma {:induction false} SectionsExclusive(ls: seq<string>)
    ensures !(Scan(ls).inDescription && Scan(ls).inRelatedFiles)
  {
    if ls != [] {
      var before, line := ls[..|ls| - 1], ls[|ls| - 1];
      SectionsExclusive(before);
      StepSections(Scan(before), line);
      HeadingShapes(line);
    }
  }

  /** The iteration-level condition for collecting a line into `part`. */
  predicate Takes(part: Part, st: ScanState, line: string) {
    Reaches(st, line) &&
    match part
    case FenceBody => st.inMermaid
    case DescriptionBody => !StartsWith(line, SectionMarker) && st.inDescription && Trim(line) != ""
    case RelatedFilesBody =>
      !StartsWith(line, SectionMarker) && st.inRelatedFiles && StartsWith(Trim(line), "-")
  }

  /** The iteration-level condition for collecting a line is the
      declarative one. */
  lemma {:induction false} CollectsAtStep(part: Part, ls: seq<string>)
    requires |ls| > 0
    ensures Collects(part, ls[..|ls| - 1], ls[|ls| - 1]) == Takes(part, Scan(ls[..|ls| - 1]), ls[|ls| - 1])
  {
    var before := ls[..|ls| - 1];
    ScanTitle(before);
    ScanFence(before);
    if part != FenceBody {
      ScanSections(before);
    }
  }

  /** The diagram source before trimming: every line collected into the
      fence body, each followed by a line feed. */
  lemma {:induction false} ScanDiagramSource(ls: seq<string>)
    ensures Scan(ls).mermaidCode == Terminated(Collected(FenceBody, ls), "\n")
  {
    if ls != [] {
      var before, line := ls[..|ls| - 1], ls[|ls| - 1];
      ScanDiagramSource(before);
      StepFence(Scan(before), line);
      CollectsAtStep(FenceBody, ls);
      var c := Collected(FenceBody, before);
      if Collects(FenceBody, before, line) {
        assert (c + [line])[..|c|] == c;
        assert Terminated(c + [line], "\n") == Terminated(c, "\n") + line + "\n";
      } else {
        assert Collected(FenceBody, ls) == c;
      }
    }
  }

  /** The description before trimming: every line collected into the
      description body, each followed by a space. */
  lemma {:induction false} ScanDescription(ls: seq<string>)
    ensures Scan(ls).description == Terminated(Collected(DescriptionBody, ls), " ")
  {
    if ls != [] {
      var before, line := ls[..|ls| - 1], ls[|ls| - 1];
      ScanDescription(before);
      StepDescription(Scan(before), line);
      CollectsAtStep(DescriptionBody, ls);
      var c := Collected(DescriptionBody, before);
      if Collects(DescriptionBody, before, line) {
        assert (c + [line])[..|c|] == c;
        assert Terminated(c + [line], " ") == Terminated(c, " ") + line + " ";
      } else {
        assert Collected(DescriptionBody, ls) == c;
      }
    }
  }

  /** The related files: the bullet text of every line collected into the
      related-files body, one entry per line, in order. */
  lemma {:induction false} ScanRelatedFiles(ls: seq<string>)
    ensures Scan(ls).relatedFiles == Bullets(Collected(RelatedFilesBody, ls))
  {
    if ls != [] {
      var before, line := ls[..|ls| - 1], ls[|ls| - 1];
      ScanRelatedFiles(before);
      StepRelatedFiles(Scan(before), line);
      CollectsAtStep(RelatedFilesBody, ls);
      var c := Collected(RelatedFilesBody, before);
      if Collects(RelatedFilesBody, before, line) {
        BulletsSnoc(c, line);
      }
    }
  }

  lemma {:induction false} BulletsSnoc(xs: seq<string>, line: string)
    ensures Bullets(xs + [line]) == Bullets(xs) + [BulletText(line)]
  {
  }

  /** What is collected has the shape the conditions promise: no fence
      marker in the diagram source, no `##` line (of any level) and no blank
      line in the description, only dash lines among the related files. */
  lemma {:induction false} CollectedShapes(ls: seq<string>)
    ensures forall x :: x in Collected(FenceBody, ls) ==> !IsOpener(x) && !IsCloser(x)
    ensures forall x :: x in Collected(DescriptionBody, ls) ==>
              !StartsWith(x, SectionMarker) && Trim(x) != ""
    ensures forall x :: x in Collected(RelatedFilesBody, ls) ==>
              !StartsWith(x, SectionMarker) && StartsWith(Trim(x), "-")
  {
    if ls != [] {
      var before, line := ls[..|ls| - 1], ls[|ls| - 1];
      CollectedShapes(before);
      HeadingShapes(line);
    }
  }

  /** A fence that is never closed captures every later line except
      further openers and `# ` lines. */
  lemma {:induction false} UnterminatedFence(ls: seq<string>, j: nat)
    requires j < |ls| && IsOpener(ls[j])
    requires forall k :: j < k < |ls| ==>
               !IsCloser(ls[k]) && !IsOpener(ls[k]) && !StartsWith(ls[k], TitleMarker)
    ensures Collected(FenceBody, ls) == Collected(FenceBody, ls[..j + 1]) + ls[j + 1..]
  {
    forall k | j < k < |ls| ensures FenceFiller(ls, k) {
    }
    FenceTail(ls, j, |ls|);
    assert ls[..|ls|] == ls;
    assert ls[j + 1..|ls|] == ls[j + 1..];
  }

  /** Line `k` neither closes nor reopens the fence nor is eaten as a title. */
  predicate FenceFiller(ls: seq<string>, k: nat)
    requires k < |ls|
  {
    !IsCloser(ls[k]) && !IsOpener(ls[k]) && !StartsWith(ls[k], TitleMarker)
  }

  /** The induction behind the rule, over the first `m` lines. */
  lemma {:induction false} FenceTail(ls: seq<string>, j: nat, m: nat)
    requires j < m <= |ls| && IsOpener(ls[j])
    requires forall k :: j < k < |ls| ==> FenceFiller(ls, k)
    ensures Collected(FenceBody, ls[..m]) == Collected(FenceBody, ls[..j + 1]) + ls[j + 1..m]
    decreases m
  {
    if m > j + 1 {
      FenceTail(ls, j, m - 1);
      FenceLineAt(ls, j, m);
      var head := Collected(FenceBody, ls[..j + 1]);
      assert Collected(FenceBody, ls[..m]) == Collected(FenceBody, ls[..m - 1]) + [ls[m - 1]];
      assert Collected(FenceBody, ls[..m - 1]) == head + ls[j + 1..m - 1];
      AppendAssoc(head, ls[j + 1..m - 1], [ls[m - 1]]);
      SliceSnoc(ls, j + 1, m - 1);
      assert Collected(FenceBody, ls[..m]) == head + ls[j + 1..m];
    } else {
      assert ls[j + 1..m] == [];
    }
  }

  /** Under an open fence the line after the first `m - 1` lines is collected. */
  lemma {:induction false} FenceLineAt(ls: seq<string>, j: nat, m: nat)
    requires j + 1 < m <= |ls| && IsOpener(ls[j])
    requires forall k :: j < k < |ls| ==> FenceFiller(ls, k)
    ensures Collected(FenceBody, ls[..m]) == Collected(FenceBody, ls[..m - 1]) + [ls[m - 1]]
  {
    var before := ls[..m - 1];
    assert IsOpener(before[j]);
    forall k | j < k < |before| ensures !IsCloser(before[k]) {
      assert FenceFiller(ls, k);
    }
    assert FenceOpen(before);
    assert FenceFiller(ls, m - 1);
    CollectsInFence(before, ls[m - 1]);
    assert ls[..m][..m - 1] == before;
    CollectedLast(FenceBody, ls[..m]);
  }

  lemma {:induction false} CollectedLast(part: Part, ls: seq<string>)
    requires |ls| > 0 && Collects(part, ls[..|ls| - 1], ls[|ls| - 1])
    ensures Collected(part, ls) == Collected(part, ls[..|ls| - 1]) + [ls[|ls| - 1]]
  {
  }

  lemma {:induction false} CollectsInFence(before: seq<string>, line: string)
    requires FenceOpen(before)
    requires !IsCloser(line) && !IsOpener(line) && !StartsWith(line, TitleMarker)
    ensures Collects(FenceBody, before, line)
  {
  }

  // ---------------------------------------------------------------------
  // The returned record

  /** Title rule: the text of the first title line, or `Diagram`. */
  lemma {:induction false} ExtractTitle(markdown: string, now: string)
    ensures var ls, info := Lines(markdown), Extract(markdown, now);
      && (NoTitleLine(ls) ==> info.title == "Diagram")
      && forall i :: 0 <= i < |ls| && TitleLine(ls[i]) && NoTitleLine(ls[..i]) ==>
           info.title == Trim(ls[i][2..])
  {
    ScanTitle(Lines(markdown));
  }

  function InfoField(info: DiagramInfo, key: MetaKey): string {
    match key
    case Generated => info.generated
    case Type => info.kind
    case Context => info.context
  }

  function Default(key: MetaKey, now: string): string {
    match key
    case Generated => now
    case Type => "diagram"
    case Context => ""
  }

  /** Metadata rule: the last line with the label decides; an absent or
      empty value falls back to the default (the supplied timestamp,
      `diagram`, or the empty text). */
  lemma {:induction false} ExtractMetadata(markdown: string, now: string, key: MetaKey)
    ensures var ls, info := Lines(markdown), Extract(markdown, now);
      && ((forall j :: 0 <= j < |ls| ==> !StartsWith(ls[j], Label(key))) ==>
            InfoField(info, key) == Default(key, now))
      && forall j :: 0 <= j < |ls| && StartsWith(ls[j], Label(key))
                     && (forall k :: j < k < |ls| ==> !StartsWith(ls[k], Label(key))) ==>
           InfoField(info, key) ==
             (var v := MetaValue(ls[j], key); if v == "" then Default(key, now) else v)
  {
    ScanMetadata(Lines(markdown), key);
  }

  /** Diagram source rule. */
  lemma {:induction false} ExtractDiagramSource(markdown: string, now: string)
    ensures Extract(markdown, now).mermaidCode
            == Trim(Terminated(Collected(FenceBody, Lines(markdown)), "\n"))
  {
    ScanDiagramSource(Lines(markdown));
  }

  /** Description rule, with its placeholder for an empty result. */
  lemma {:induction false} ExtractDescription(markdown: string, now: string)
    ensures var d := Trim(Terminated(Collected(DescriptionBody, Lines(markdown)), " "));
      Extract(markdown, now).description == if d == "" then "No description provided" else d
  {
    ScanDescription(Lines(markdown));
  }

  /** Related files rule: one entry per collected bullet line. */
  lemma {:induction false} ExtractRelatedFiles(markdown: string, now: string)
    ensures var bullets := Collected(RelatedFilesBody, Lines(markdown));
      && Extract(markdown, now).relatedFiles == Bullets(bullets)
      && |Extract(markdown, now).relatedFiles| == |bullets|
  {
    ScanRelatedFiles(Lines(markdown));
  }

  /** Every collected line is a line of the note. */
  lemma {:induction false} CollectedFromLines(part: Part, ls: seq<string>)
    ensures forall x :: x in Collected(part, ls) ==> x in ls
  {
    if ls != [] {
      var before := ls[..|ls| - 1];
      CollectedFromLines(part, before);
      assert forall x :: x in before ==> x in ls;
    }
  }

  /** A bullet taken from a line without line feeds has none. */
  lemma {:induction false} BulletOneLine(line: string)
    requires '\n' !in line
    ensures '\n' !in BulletText(line)
  {
    TrimKeeps(line, '\n');
    var t := Trim(line);
    if t != [] {
      assert forall i :: 0 <= i < |t| - 1 ==> t[1..][i] == t[i + 1];
      TrimKeeps(t[1..], '\n');
    }
  }

  /** A bullet line `- name`, with any whitespace before the dash, between
      the dash and the name, and after the name, gives exactly `name`. */
  lemma {:induction false} BulletOfDash(indent: string, gap: string, name: string, tail: string)
    requires AllWhitespace(indent) && AllWhitespace(gap) && AllWhitespace(tail)
    requires name != [] && !IsWhitespace(name[0]) && !IsWhitespace(name[|name| - 1])
    ensures BulletText(indent + "-" + gap + name + tail) == name
  {
    var y := "-" + gap + name;
    var x := y + tail;
    var line := indent + "-" + gap + name + tail;
    assert line == indent + x;
    TrimStartSkip(indent, x);
    assert TrimStart(x) == x;
    TrimEndSkip(y, tail);
    assert y[|y| - 1] == name[|name| - 1];
    assert TrimEnd(y) == y;
    assert Trim(line) == y;
    assert y[1..] == gap + name;
    TrimStartSkip(gap, name);
    assert TrimStart(name) == name;
    assert TrimEnd(name) == name;
  }

  /** The extracted related files are single lines. */
  lemma {:induction false} ExtractedFilesOneLine(markdown: string, now: string)
    ensures forall f :: f in Extract(markdown, now).relatedFiles ==> '\n' !in f
  {
    var ls := Lines(markdown);
    var bullets := Collected(RelatedFilesBody, ls);
    ScanRelatedFiles(ls);
    CollectedFromLines(RelatedFilesBody, ls);
    forall f | f in Extract(markdown, now).relatedFiles ensures '\n' !in f {
      var i :| 0 <= i < |bullets| && f == BulletText(bullets[i]);
      assert bullets[i] in ls;
      BulletOneLine(bullets[i]);
    }
  }
}
