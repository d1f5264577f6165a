/** The command wrapper's one piece of logic: where the page is written. */
module Cli {
  import opened Text

  datatype Option<T> = None | Some(value: T)

  const MarkdownSuffix := ".md"
  const HtmlSuffix := ".html"

  /** `args[1] || inputFile.replace(/\.md$/, '.html')`: a non-empty second
      argument wins; otherwise a trailing `.md` becomes `.html`, and an
      input without one is returned as it is. */
  function OutputPath(second: Option<string>, input: string): string {
    if second.Some? && second.value != "" then second.value
    else if EndsWith(input, MarkdownSuffix) then input[..|input| - |MarkdownSuffix|] + HtmlSuffix
    else input
  }

  /** A non-empty second argument is used as it is. */
  lemma {:induction false} OutputPathGiven(second: string, input: string)
    requires second != ""
    ensures OutputPath(Some(second), input) == second
  {
  }

  /** An empty second argument is falsy and counts as none. */
  lemma {:induction false} OutputPathEmptyGiven(input: string)
    ensures OutputPath(Some(""), input) == OutputPath(None, input)
  {
  }

  /** A Markdown name keeps its stem and gets the `.html` suffix. */
  lemma {:induction false} OutputPathMarkdown(stem: string)
    ensures OutputPath(None, stem + MarkdownSuffix) == stem + HtmlSuffix
  {
    var input := stem + MarkdownSuffix;
    assert input[|input| - |MarkdownSuffix|..] == MarkdownSuffix;
    assert input[..|input| - |MarkdownSuffix|] == stem;
  }

  /** Without a second argument the page goes over the input file exactly
      when the input does not end in `.md`; otherwise it ends in `.html`. */
  lemma {:induction false} OutputPathOverwrites(input: string)
    ensures OutputPath(None, input) == input <==> !EndsWith(input, MarkdownSuffix)
    ensures EndsWith(input, MarkdownSuffix) ==> EndsWith(OutputPath(None, input), HtmlSuffix)
  {
    if EndsWith(input, MarkdownSuffix) {
      var out := OutputPath(None, input);
      assert |out| == |input| + 2;
      assert out[|out| - |HtmlSuffix|..] == HtmlSuffix;
    }
  }

  /** Deriving the name twice gives the same name. */
  lemma {:induction false} OutputPathIdempotent(input: string)
    ensures OutputPath(None, OutputPath(None, input)) == OutputPath(None, input)
  {
    OutputPathOverwrites(input);
    var out := OutputPath(None, input);
    if EndsWith(input, MarkdownSuffix) {
      assert out[|out| - 1] == 'l';
      assert !EndsWith(out, MarkdownSuffix);
    }
  }

  /** A name like `foo.txt` is not given an `.html` suffix. */
  lemma {:induction false} OutputPathOtherSuffix()
    ensures OutputPath(None, "foo.txt") == "foo.txt"
  {
    assert "foo.txt"[4..] != MarkdownSuffix;
  }
}
