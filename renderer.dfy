/** The page renderer (`generateHTML`) with the template text passed in:
    seven global replacements of `{{…}}` placeholders, run one after
    another on the result of the previous one.
 */
module Renderer {
  import opened Text
  import opened Replace
  import opened Extractor
  import opened ExtractorRules

  const TitleToken := "{{TITLE}}"
  const GeneratedToken := "{{GENERATED}}"
  const TypeToken := "{{TYPE}}"
  const ContextToken := "{{CONTEXT}}"
  const MermaidCodeToken := "{{MERMAID_CODE}}"
  const DescriptionToken := "{{DESCRIPTION}}"
  const RelatedFilesToken := "{{RELATED_FILES}}"

  /** Sixteen spaces in front of every list item. */
  const Indent := "                "

  /** One related file as a list item on a line of its own. */
  function ItemLine(file: string): string {
    Indent + "<li>" + file + "</li>"
  }

  /** The placeholder item for an empty list. */
  const NoneItem := ItemLine("None")

  function ItemLines(files: seq<string>): seq<string> {
    seq(|files|, i requires 0 <= i < |files| => ItemLine(files[i]))
  }

  /** `relatedFiles.map(…).join('\n') || NoneItem`: an empty join is falsy.
      The block is never empty: it opens one list item and closes one. */
  function RelatedFilesBlock(files: seq<string>): (r: string)
    ensures StartsWith(r, Indent + "<li>") && EndsWith(r, "</li>")
  {
    ItemLineShape("None");
    ListShape(files);
    var list := Join(ItemLines(files), "\n");
    if list == "" then NoneItem else list
  }

  /** A non-empty list starts as its first item does and ends as its last. */
  lemma {:induction false} ListShape(files: seq<string>)
    ensures files != [] ==>
      var list := Join(ItemLines(files), "\n");
      StartsWith(list, Indent + "<li>") && EndsWith(list, "</li>")
  {
    if files != [] {
      var items := ItemLines(files);
      var list := Join(items, "\n");
      JoinHead(items, "\n");
      JoinLast(items, "\n");
      ItemLineShape(files[0]);
      ItemLineShape(files[|files| - 1]);
      PrefixOfPrefix(list, items[0], Indent + "<li>");
      SuffixOfSuffix(list, items[|items| - 1], "</li>");
    }
  }

  /** One `template.replace(/token/g, value)` step. */
  datatype Substitution = Substitution(token: string, value: string)

  /** The replacements in the order the renderer applies them. */
  function Substitutions(info: DiagramInfo): (subs: seq<Substitution>)
    ensures |subs| == 7
    ensures forall s :: s in subs ==> |s.token| >= 4 && s.token[..2] == "{{"
  {
    [ Substitution(TitleToken, info.title),
      Substitution(GeneratedToken, info.generated),
      Substitution(TypeToken, info.kind),
      Substitution(ContextToken, info.context),
      Substitution(MermaidCodeToken, info.mermaidCode),
      Substitution(DescriptionToken, info.description),
      Substitution(RelatedFilesToken, RelatedFilesBlock(info.relatedFiles)) ]
  }

  predicate Wellformed(subs: seq<Substitution>) {
    forall s :: s in subs ==> s.token != []
  }

  /** The replacements applied in order, each to the text the previous one
      produced. */
  function Apply(template: string, subs: seq<Substitution>): string
    requires Wellformed(subs)
    decreases |subs|
  {
    if subs == [] then template
    else Apply(ReplaceAll(template, subs[0].token, subs[0].value), subs[1..])
  }

  /** `generateHTML(diagramInfo)` for the given template text. */
  function GenerateHTML(info: DiagramInfo, template: string): string {
    Apply(template, Substitutions(info))
  }

  // ---------------------------------------------------------------------
  // The related-files block

  lemma {:induction false} ItemLineInjective(f: string, g: string)
    requires ItemLine(f) == ItemLine(g)
    ensures f == g
  {
    var n := |Indent + "<li>"|;
    assert |f| == |g|;
    assert f == ItemLine(f)[n..n + |f|];
    assert g == ItemLine(g)[n..n + |g|];
  }

  lemma {:induction false} JoinEmpty(parts: seq<string>, sep: string)
    requires forall p :: p in parts ==> p != ""
    ensures Join(parts, sep) == "" <==> parts == []
  {
    if |parts| > 1 {
      assert parts[0] in parts;
      assert Join(parts, sep) == parts[0] + sep + Join(parts[1..], sep);
    } else if |parts| == 1 {
      assert parts[0] in parts;
    }
  }

  lemma {:induction false} ItemLineShape(file: string)
    ensures StartsWith(ItemLine(file), Indent + "<li>") && EndsWith(ItemLine(file), "</li>")
    ensures ItemLine(file) != "" && ('\n' !in file ==> '\n' !in ItemLine(file))
  {
    assert ItemLine(file) == (Indent + "<li>") + (file + "</li>");
  }

  lemma {:induction false} ItemLinesShape(files: seq<string>)
    requires forall f :: f in files ==> '\n' !in f
    ensures forall p :: p in ItemLines(files) ==> p != "" && '\n' !in p
  {
    forall p | p in ItemLines(files) ensures p != "" && '\n' !in p {
      var i :| 0 <= i < |files| && p == ItemLine(files[i]);
      assert files[i] in files;
      ItemLineShape(files[i]);
    }
  }

  /** With files free of line feeds, the block is one `<li>` line per file,
      or the single `None` line for no files: `max(1, |files|)` lines. */
  lemma {:induction false} BlockLines(files: seq<string>)
    requires forall f :: f in files ==> '\n' !in f
    ensures var lines := SplitOn(RelatedFilesBlock(files), "\n");
      && lines == (if files == [] then [NoneItem] else ItemLines(files))
      && |lines| == (if files == [] then 1 else |files|)
      && forall l :: l in lines ==> StartsWith(l, Indent + "<li>") && EndsWith(l, "</li>")
  {
    var items := ItemLines(files);
    ItemLinesShape(files);
    JoinEmpty(items, "\n");
    if files == [] {
      ItemLineShape("None");
      SplitWhole(NoneItem, '\n');
    } else {
      SplitJoin(items, '\n');
      ItemLinesEnds(files);
    }
  }

  lemma {:induction false} ItemLinesEnds(files: seq<string>)
    ensures forall l :: l in ItemLines(files) ==> StartsWith(l, Indent + "<li>") && EndsWith(l, "</li>")
  {
    forall l | l in ItemLines(files) ensures StartsWith(l, Indent + "<li>") && EndsWith(l, "</li>") {
      var i :| 0 <= i < |files| && l == ItemLine(files[i]);
      ItemLineShape(files[i]);
    }
  }

  /** The `None` line appears exactly for no files, except that a single
      file literally named `None` renders the same block. */
  lemma {:induction false} BlockIsNone(files: seq<string>)
    requires forall f :: f in files ==> '\n' !in f
    ensures SplitOn(RelatedFilesBlock(files), "\n") == [NoneItem] <==> files == [] || files == ["None"]
  {
    BlockLines(files);
    if files != [] && ItemLines(files) == [NoneItem] {
      ItemLineInjective(files[0], "None");
      assert files == [files[0]];
    }
  }

  /** The block built from `$`-free file names is `$`-free. */
  lemma {:induction false} BlockPlain(files: seq<string>)
    requires forall f :: f in files ==> '$' !in f
    ensures '$' !in RelatedFilesBlock(files)
  {
    var items := ItemLines(files);
    forall p | p in items ensures '$' !in p {
      var i :| 0 <= i < |files| && p == ItemLine(files[i]);
      assert files[i] in files;
    }
    JoinFree(items, "\n", '$');
  }

  // ---------------------------------------------------------------------
  // The substitutions

  /** Replacements of placeholders the text does not hold change nothing. */
  lemma {:induction false} ApplyUntouched(template: string, subs: seq<Substitution>)
    requires Wellformed(subs)
    requires forall s :: s in subs ==> !Contains(template, s.token)
    ensures Apply(template, subs) == template
    decreases |subs|
  {
    if subs != [] {
      ReplaceAllAbsent(template, subs[0].token, subs[0].value);
      assert forall s :: s in subs[1..] ==> s in subs;
      ApplyUntouched(template, subs[1..]);
    }
  }

  /** A template without placeholders comes back unchanged. */
  lemma {:induction false} GenerateHTMLUntouched(info: DiagramInfo, template: string)
    requires forall s :: s in Substitutions(info) ==> !Contains(template, s.token)
    ensures GenerateHTML(info, template) == template
  {
    ApplyUntouched(template, Substitutions(info));
  }

  /** The replacements run in list order: the last one works on what the
      ones before it produced. */
  lemma {:induction false} ApplySnoc(template: string, subs: seq<Substitution>, last: Substitution)
    requires Wellformed(subs + [last])
    ensures Wellformed(subs)
    ensures Apply(template, subs + [last]) ==
            ReplaceAll(Apply(template, subs), last.token, last.value)
    decreases |subs|
  {
    assert forall s :: s in subs ==> s in subs + [last];
    if subs == [] {
      assert ([last])[1..] == [];
    } else {
      assert (subs + [last])[1..] == subs[1..] + [last];
      ApplySnoc(ReplaceAll(template, subs[0].token, subs[0].value), subs[1..], last);
    }
  }

  /** The list on the page has one `<li>` line per bullet line of the
      note's related-files section, or the single `None` line. */
  lemma {:induction false} PageFileLines(markdown: string, now: string)
    ensures var bullets := Collected(RelatedFilesBody, Lines(markdown));
      |SplitOn(RelatedFilesBlock(Extract(markdown, now).relatedFiles), "\n")|
        == if bullets == [] then 1 else |bullets|
  {
    ExtractedFilesOneLine(markdown, now);
    ExtractRelatedFiles(markdown, now);
    BlockLines(Extract(markdown, now).relatedFiles);
  }

  /** Each step in split-and-join form: cut the text at every occurrence
      of the placeholder, put the value in every cut. */
  function CutAndFill(template: string, subs: seq<Substitution>): string
    requires Wellformed(subs)
    decreases |subs|
  {
    if subs == [] then template
    else CutAndFill(Join(SplitOn(template, subs[0].token), subs[0].value), subs[1..])
  }

  lemma {:induction false} ApplyLiteral(template: string, subs: seq<Substitution>)
    requires Wellformed(subs)
    requires forall s :: s in subs ==> '$' !in s.value
    ensures Apply(template, subs) == CutAndFill(template, subs)
    decreases |subs|
  {
    if subs != [] {
      ReplaceAllEvery(template, subs[0].token, subs[0].value);
      assert forall s :: s in subs[1..] ==> s in subs;
      ApplyLiteral(ReplaceAll(template, subs[0].token, subs[0].value), subs[1..]);
    }
  }

  predicate PlainInfo(info: DiagramInfo) {
    && '$' !in info.title && '$' !in info.generated && '$' !in info.kind && '$' !in info.context
    && '$' !in info.mermaidCode && '$' !in info.description
    && forall f :: f in info.relatedFiles ==> '$' !in f
  }

  /** For values without `$`, the page is the template cut at every
      placeholder occurrence present at its step and filled with the
      value, in the order title, generated, type, context, diagram source,
      description, related files. */
  lemma {:induction false} GenerateHTMLLiteral(info: DiagramInfo, template: string)
    requires PlainInfo(info)
    ensures GenerateHTML(info, template) == CutAndFill(template, Substitutions(info))
  {
    BlockPlain(info.relatedFiles);
    ApplyLiteral(template, Substitutions(info));
  }

  /** A value whose text is `$&` puts the placeholder itself back: the
      replacement is not inserted literally. */
  lemma {:induction false} MatchedTextSpecial()
    ensures ReplaceAll("<{{TITLE}}>", TitleToken, "$&") == "<{{TITLE}}>"
  {
    var s := "<{{TITLE}}>";
    assert !StartsWith(s, TitleToken);
    assert StartsWith(s[1..], TitleToken);
    assert s[10..] == ">";
    assert !StartsWith(s[10..], TitleToken);
  }
}
