/**
  Blockquotes: the single-line `>` form and the `{quote}` block form, and
  how the line-break tokens a text run produced are turned back into line
  feeds inside the block.
 */
module Quotes {
  import opened Strings
  import opened Escape
  import opened Mdast
  import opened Converter
  import opened Rendering

  /** A blockquote takes the block form exactly when its trimmed rendered
      children contain a line-break token; the block holds that content with
      every token turned back into a line feed, and the single-line form
      holds the content after `>`. */
  lemma {:induction false} BlockquoteForms(cs: seq<Node>, st: State)
    requires AllWellFormed(cs)
    ensures WellFormed(Blockquote(cs))
    ensures var content := Trim(RenderAll(cs, false, st));
      var r := Render(Blockquote(cs), st);
      && (StartsWith(r, "{quote}\n") <==> Contains(content, "&br;"))
      && (Contains(content, "&br;") ==> r == "{quote}\n" + ReplaceAll(content, "&br;", "\n") + "\n{/quote}\n\n")
      && (!Contains(content, "&br;") ==> r == ">" + content + "\n\n")
  {
    QuoteIsMarkup(cs, st);
    QuoteMarkupForms(RenderAll(cs, false, st));
  }

  /** `processBlockquote` applies the quote markup to its rendered children. */
  lemma QuoteIsMarkup(cs: seq<Node>, st: State)
    requires AllWellFormed(cs)
    ensures WellFormed(Blockquote(cs))
    ensures Render(Blockquote(cs), st) == QuoteMarkup(RenderAll(cs, false, st))
  {
    assert WellFormed(Blockquote(cs));
    QuoteStep(Blockquote(cs), st);
    KidsIsConcat(Blockquote(cs), st);
  }

  lemma QuoteStep(n: Node, st: State)
    requires n.Blockquote? && WellFormed(n)
    ensures Exec(n, false, st).out == QuoteMarkup(ExecKids(n, st).out)
  {
    assert Exec(n, false, st) == ProcessBlockquote(n, st);
  }

  /** The text of a quoted paragraph, as the quote sees it: its line feeds
      replaced by the token, nothing escaped, followed by the paragraph's
      blank line. */
  lemma QuotedParagraph(v: string, st: State)
    requires !HasSpecialPair(v)
    ensures AllWellFormed([Paragraph([Text(v)])])
    ensures RenderAll([Paragraph([Text(v)])], false, st) == ReplaceChar(v, '\n', "&br;") + "\n\n"
  {
    var p := Paragraph([Text(v)]);
    assert WellFormed(Text(v)) && WellFormed(p);
    OneChild(p, false, st);
    OneChild(Text(v), false, st);
    PassThrough([Text(v)], st);
    TextRendering(v, st);
    BreaksNeedNoEscape(v);
  }

  lemma OneChild(n: Node, underItem: bool, st: State)
    requires WellFormed(n)
    ensures AllWellFormed([n])
    ensures RenderAll([n], underItem, st) == Exec(n, underItem, st).out
  {
    assert [n][1..] == [];
  }

  /** The trimmed content a quote sees for one paragraph of trimmed text:
      the text with its line feeds replaced by the token. */
  lemma QuotedContent(v: string, st: State)
    requires IsTrimmed(v) && !HasSpecialPair(v)
    ensures AllWellFormed([Paragraph([Text(v)])])
    ensures Trim(RenderAll([Paragraph([Text(v)])], false, st)) == ReplaceChar(v, '\n', "&br;")
  {
    var w := ReplaceChar(v, '\n', "&br;");
    QuotedParagraph(v, st);
    ReplaceCharShape(v, '\n', "&br;");
    assert IsTrimmed(w);
    assert AllSpace("\n\n");
    TrimDropsTrailingSpace(w, "\n\n");
  }

  /** Quoting one paragraph of several lines gives a `{quote}` block holding
      exactly those lines, when the text needs no escaping, has no
      surrounding whitespace and does not itself contain the token. */
  lemma MultiLineQuote(v: string, st: State)
    requires '\n' in v && IsTrimmed(v)
    requires !HasSpecialPair(v) && !Contains(v, "&br;")
    ensures WellFormed(Blockquote([Paragraph([Text(v)])]))
    ensures Render(Blockquote([Paragraph([Text(v)])]), st) == "{quote}\n" + v + "\n{/quote}\n\n"
  {
    QuotedContent(v, st);
    QuoteIsMarkup([Paragraph([Text(v)])], st);
    BlockMarkup(v, RenderAll([Paragraph([Text(v)])], false, st));
  }

  /** The quote markup of rendered children whose trimmed form is `v` with
      its line feeds replaced by the token, when `v` spans several lines. */
  lemma BlockMarkup(v: string, rendered: string)
    requires '\n' in v && !Contains(v, "&br;")
    requires Trim(rendered) == ReplaceChar(v, '\n', "&br;")
    ensures QuoteMarkup(rendered) == "{quote}\n" + v + "\n{/quote}\n\n"
  {
    ReplacedCharShowsToken(v, "&br;");
    BreakTokenRoundTrip(v, "&br;");
    QuoteMarkupForms(rendered);
  }

  /** Quoting one single-line paragraph gives `>` and the line. */
  lemma SingleLineQuote(v: string, st: State)
    requires '\n' !in v && IsTrimmed(v)
    requires !HasSpecialPair(v) && !Contains(v, "&br;")
    ensures WellFormed(Blockquote([Paragraph([Text(v)])]))
    ensures Render(Blockquote([Paragraph([Text(v)])]), st) == ">" + v + "\n\n"
  {
    QuotedContent(v, st);
    BlockquoteForms([Paragraph([Text(v)])], st);
  }
}
