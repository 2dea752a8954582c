/**
  Cutting inline Markdown into text runs: text is gathered until something that is not prose, and
  every piece of valid math is recorded as the span of its delimited source.
 */
module Spans {
  import opened Trimming

  /** The renderer's verdict, the closing delimiter of an opening one, and white space as `trim` sees it. */
  datatype Lexicon = Lexicon(valid: string -> bool, close: string -> string, space: char -> bool)

  const MIN_RUN: nat := 3
  const MAX_RUN: nat := 2000

  /** Inline tokens: text, a line break, math, something that ends a run, or something that is skipped. */
  datatype Token = Text(content: string) | Break | Math(markup: string, tex: string) | Divider | Other

  datatype Span = Span(start: nat, end: nat, markup: string, tex: string)

  datatype Run = Run(text: string, spans: seq<Span>)

  function Delimited(markup: string, tex: string, lexicon: Lexicon): string {
    markup + tex + lexicon.close(markup)
  }

  function Raw(t: Token, lexicon: Lexicon): string {
    match t
    case Text(content) => content
    case Break => " "
    case Math(markup, tex) => Delimited(markup, tex, lexicon)
    case _ => ""
  }

  // ---- what a stretch of tokens between two dividers amounts to ----

  function TextOf(tokens: seq<Token>, lexicon: Lexicon): string {
    if tokens == [] then "" else TextOf(tokens[..|tokens|-1], lexicon) + Raw(tokens[|tokens|-1], lexicon)
  }

  function SpansOf(tokens: seq<Token>, lexicon: Lexicon): seq<Span> {
    if tokens == [] then []
    else
      var before, t := tokens[..|tokens|-1], tokens[|tokens|-1];
      var at := |TextOf(before, lexicon)|;
      SpansOf(before, lexicon) +
      (if t.Math? && lexicon.valid(t.tex) then [Span(at, at + |Raw(t, lexicon)|, t.markup, t.tex)] else [])
  }

  function TrimEnd(s: string, lexicon: Lexicon): (r: string)
    ensures |r| <= |s| && r == s[..|r|]
    ensures forall k :: |r| <= k < |s| ==> lexicon.space(s[k])
  {
    if s != [] && lexicon.space(s[|s|-1]) then TrimEnd(s[..|s|-1], lexicon) else s
  }

  /** Leading white space that trimming drops. */
  function Lead(s: string, lexicon: Lexicon): (n: nat)
    ensures n <= |s|
  {
    TrimStartTakesSpace(s, lexicon.space);
    |s| - |TrimStart(s, lexicon.space)|
  }

  function Trim(s: string, lexicon: Lexicon): (r: string)
    ensures Lead(s, lexicon) + |r| <= |s| && r == s[Lead(s, lexicon)..Lead(s, lexicon) + |r|]
    ensures forall k :: Lead(s, lexicon) + |r| <= k < |s| ==> lexicon.space(s[k])
  {
    TrimStartTakesSpace(s, lexicon.space);
    var t := TrimStart(s, lexicon.space);
    assert t == s[Lead(s, lexicon)..];
    assert forall k :: Lead(s, lexicon) <= k < |s| ==> s[k] == t[k - Lead(s, lexicon)];
    TrimEnd(t, lexicon)
  }

  /** Positions moved by the trimmed lead; spans that trimming cut into are dropped. */
  function Shifted(spans: seq<Span>, lead: nat, length: nat): seq<Span> {
    if spans == [] then []
    else
      var s := spans[0];
      (if lead <= s.start && s.end - lead <= length && s.end >= lead
       then [Span(s.start - lead, s.end - lead, s.markup, s.tex)] else []) + Shifted(spans[1..], lead, length)
  }

  function RunOf(tokens: seq<Token>, lexicon: Lexicon): Run {
    var text := TextOf(tokens, lexicon);
    var run := Trim(text, lexicon);
    Run(run, Shifted(SpansOf(tokens, lexicon), Lead(text, lexicon), |run|))
  }

  /** Every span is the delimited source of its math, and spans follow each other without overlap. */
  ghost predicate Exact(text: string, spans: seq<Span>, lexicon: Lexicon) {
    && (forall i :: 0 <= i < |spans| ==>
          && spans[i].start <= spans[i].end <= |text|
          && text[spans[i].start..spans[i].end] == Delimited(spans[i].markup, spans[i].tex, lexicon)
          && lexicon.valid(spans[i].tex))
    && (forall i, j :: 0 <= i < j < |spans| ==> spans[i].end <= spans[j].start)
  }

  lemma Unfold(tokens: seq<Token>, lexicon: Lexicon)
    requires tokens != []
    ensures var before, t := tokens[..|tokens|-1], tokens[|tokens|-1];
            && TextOf(tokens, lexicon) == TextOf(before, lexicon) + Raw(t, lexicon)
            && SpansOf(tokens, lexicon) ==
               if t.Math? && lexicon.valid(t.tex)
               then SpansOf(before, lexicon) + [Span(|TextOf(before, lexicon)|, |TextOf(tokens, lexicon)|, t.markup, t.tex)]
               else SpansOf(before, lexicon)
  {
  }

  lemma {:induction false} SpansAreExact(tokens: seq<Token>, lexicon: Lexicon)
    ensures Exact(TextOf(tokens, lexicon), SpansOf(tokens, lexicon), lexicon)
    decreases |tokens|
  {
    hide TextOf, SpansOf, Exact;
    if tokens == [] {
      NothingGathered(lexicon);
      NothingIsExact(lexicon);
    } else {
      var before, t := tokens[..|tokens|-1], tokens[|tokens|-1];
      SpansAreExact(before, lexicon);
      Unfold(tokens, lexicon);
      ExactGrows(TextOf(before, lexicon), Raw(t, lexicon), SpansOf(before, lexicon), lexicon);
      if t.Math? && lexicon.valid(t.tex) {
        ExactPush(TextOf(before, lexicon), SpansOf(before, lexicon), t.markup, t.tex, lexicon);
      }
    }
  }

  lemma NothingIsExact(lexicon: Lexicon)
    ensures Exact("", [], lexicon)
  {
  }

  lemma ExactGrows(text: string, more: string, spans: seq<Span>, lexicon: Lexicon)
    requires Exact(text, spans, lexicon)
    ensures Exact(text + more, spans, lexicon)
  {
    forall i | 0 <= i < |spans|
      ensures (text + more)[spans[i].start..spans[i].end] == Delimited(spans[i].markup, spans[i].tex, lexicon)
    {
      assert (text + more)[spans[i].start..spans[i].end] == text[spans[i].start..spans[i].end];
    }
  }

  lemma ExactPush(text: string, spans: seq<Span>, markup: string, tex: string, lexicon: Lexicon)
    requires Exact(text, spans, lexicon) && lexicon.valid(tex)
    ensures var raw := Delimited(markup, tex, lexicon);
            Exact(text + raw, spans + [Span(|text|, |text| + |raw|, markup, tex)], lexicon)
  {
    var raw := Delimited(markup, tex, lexicon);
    ExactGrows(text, raw, spans, lexicon);
    assert (text + raw)[|text|..|text| + |raw|] == raw;
  }

  ghost predicate StartFrom(spans: seq<Span>, low: int) {
    forall i :: 0 <= i < |spans| ==> low <= spans[i].start
  }

  lemma {:induction false} ShiftedStartFrom(spans: seq<Span>, low: int, lead: nat, length: nat)
    requires StartFrom(spans, low)
    ensures StartFrom(Shifted(spans, lead, length), low - lead)
    decreases |spans|
  {
    if spans != [] {
      ShiftedStartFrom(spans[1..], low, lead, length);
    }
  }

  lemma {:induction false} ShiftedIsExact(text: string, spans: seq<Span>, lead: nat, length: nat, lexicon: Lexicon)
    requires lead + length <= |text| && Exact(text, spans, lexicon)
    ensures Exact(text[lead..lead + length], Shifted(spans, lead, length), lexicon)
    decreases |spans|
  {
    hide Exact;
    var run := text[lead..lead + length];
    if spans == [] {
      ExactAnywhere(run, lexicon);
    } else {
      var s, rest := spans[0], Shifted(spans[1..], lead, length);
      HeadOfExact(text, spans, lexicon);
      ShiftedIsExact(text, spans[1..], lead, length, lexicon);
      if lead <= s.start && s.end - lead <= length && s.end >= lead {
        SliceOfSlice(text, lead, length, s.start, s.end);
        ShiftedStartFrom(spans[1..], s.end, lead, length);
        ExactCons(run, Span(s.start - lead, s.end - lead, s.markup, s.tex), rest, lexicon);
      } else {
        assert [] + rest == rest;
      }
    }
  }

  lemma SliceOfSlice(text: string, lead: nat, length: nat, start: nat, end: nat)
    requires lead <= start <= end <= lead + length <= |text|
    ensures text[lead..lead + length][start - lead..end - lead] == text[start..end]
  {
    var run := text[lead..lead + length];
    assert forall k :: 0 <= k < length ==> run[k] == text[lead + k];
    var cut := run[start - lead..end - lead];
    assert |cut| == end - start && forall k :: 0 <= k < |cut| ==> cut[k] == run[start - lead + k] == text[start + k];
  }

  lemma ExactAnywhere(text: string, lexicon: Lexicon)
    ensures Exact(text, [], lexicon)
  {
  }

  lemma HeadOfExact(text: string, spans: seq<Span>, lexicon: Lexicon)
    requires spans != [] && Exact(text, spans, lexicon)
    ensures var s := spans[0];
            && s.start <= s.end <= |text| && lexicon.valid(s.tex)
            && text[s.start..s.end] == Delimited(s.markup, s.tex, lexicon)
    ensures Exact(text, spans[1..], lexicon) && StartFrom(spans[1..], spans[0].end)
  {
  }

  lemma ExactCons(text: string, s: Span, spans: seq<Span>, lexicon: Lexicon)
    requires Exact(text, spans, lexicon) && s.start <= s.end <= |text| && lexicon.valid(s.tex)
    requires text[s.start..s.end] == Delimited(s.markup, s.tex, lexicon)
    requires forall k :: 0 <= k < |spans| ==> s.end <= spans[k].start
    ensures Exact(text, [s] + spans, lexicon)
  {
  }

  /** In every run the spans name exactly their delimited source, in order and disjoint. */
  lemma RunIsExact(tokens: seq<Token>, lexicon: Lexicon)
    ensures Exact(RunOf(tokens, lexicon).text, RunOf(tokens, lexicon).spans, lexicon)
  {
    hide Exact, Shifted;
    var text := TextOf(tokens, lexicon);
    SpansAreExact(tokens, lexicon);
    ShiftedIsExact(text, SpansOf(tokens, lexicon), Lead(text, lexicon), |Trim(text, lexicon)|, lexicon);
  }

  // ---- trimming cuts into no span ----

  function MathOf(tokens: seq<Token>, lexicon: Lexicon): seq<(string, string)> {
    if tokens == [] then []
    else
      var t := tokens[|tokens|-1];
      MathOf(tokens[..|tokens|-1], lexicon) + (if t.Math? && lexicon.valid(t.tex) then [(t.markup, t.tex)] else [])
  }

  function Named(spans: seq<Span>): seq<(string, string)> {
    if spans == [] then [] else [(spans[0].markup, spans[0].tex)] + Named(spans[1..])
  }

  /** Delimiters are not blank at the outside. */
  predicate SolidDelimiters(tokens: seq<Token>, lexicon: Lexicon) {
    forall i :: 0 <= i < |tokens| && tokens[i].Math? ==>
      var m, c := tokens[i].markup, lexicon.close(tokens[i].markup);
      m != "" && c != "" && !lexicon.space(m[0]) && !lexicon.space(c[|c|-1])
  }

  ghost predicate SolidSpans(text: string, spans: seq<Span>, lexicon: Lexicon) {
    forall i :: 0 <= i < |spans| ==>
      && spans[i].start < spans[i].end <= |text|
      && !lexicon.space(text[spans[i].start]) && !lexicon.space(text[spans[i].end - 1])
  }

  lemma SolidGrows(text: string, more: string, spans: seq<Span>, lexicon: Lexicon)
    requires SolidSpans(text, spans, lexicon)
    ensures SolidSpans(text + more, spans, lexicon)
  {
  }

  lemma SolidPush(text: string, raw: string, span: Span, spans: seq<Span>, lexicon: Lexicon)
    requires SolidSpans(text + raw, spans, lexicon) && span.start == |text| && span.end == |text + raw| && raw != ""
    requires !lexicon.space(raw[0]) && !lexicon.space(raw[|raw|-1])
    ensures SolidSpans(text + raw, spans + [span], lexicon)
  {
  }

  lemma DelimitedIsSolid(markup: string, tex: string, lexicon: Lexicon)
    requires var c := lexicon.close(markup);
             markup != "" && c != "" && !lexicon.space(markup[0]) && !lexicon.space(c[|c|-1])
    ensures var raw := Delimited(markup, tex, lexicon);
            raw != "" && !lexicon.space(raw[0]) && !lexicon.space(raw[|raw|-1])
  {
  }

  lemma {:induction false} SpansAreSolid(tokens: seq<Token>, lexicon: Lexicon)
    requires SolidDelimiters(tokens, lexicon)
    ensures SolidSpans(TextOf(tokens, lexicon), SpansOf(tokens, lexicon), lexicon)
    decreases |tokens|
  {
    hide TextOf, SpansOf, SolidSpans, Delimited;
    if tokens == [] {
      NothingGathered(lexicon);
      NothingIsSolid(lexicon);
    } else {
      var n := |tokens| - 1;
      var before, t := tokens[..n], tokens[n];
      SpansAreSolid(before, lexicon);
      Unfold(tokens, lexicon);
      SolidGrows(TextOf(before, lexicon), Raw(t, lexicon), SpansOf(before, lexicon), lexicon);
      if t.Math? && lexicon.valid(t.tex) {
        assert tokens[n].Math?;
        DelimitedIsSolid(t.markup, t.tex, lexicon);
        SolidPush(TextOf(before, lexicon), Raw(t, lexicon),
                  Span(|TextOf(before, lexicon)|, |TextOf(tokens, lexicon)|, t.markup, t.tex), SpansOf(before, lexicon), lexicon);
      }
    }
  }

  lemma NothingIsSolid(lexicon: Lexicon)
    ensures SolidSpans("", [], lexicon)
  {
  }

  /** Every piece of valid math has its span in the run, in order: the filter after trimming drops none. */
  lemma NoSpanIsLost(tokens: seq<Token>, lexicon: Lexicon)
    requires SolidDelimiters(tokens, lexicon)
    ensures Named(RunOf(tokens, lexicon).spans) == MathOf(tokens, lexicon)
  {
    hide Exact, Shifted;
    var text := TextOf(tokens, lexicon);
    SpansAreSolid(tokens, lexicon);
    SolidSpansSurvive(text, SpansOf(tokens, lexicon), lexicon);
    NamedSpans(tokens, lexicon);
  }

  /** Trimming keeps every character that is not white space. */
  lemma TrimKeeps(text: string, k: nat, lexicon: Lexicon)
    requires k < |text| && !lexicon.space(text[k])
    ensures Lead(text, lexicon) <= k < Lead(text, lexicon) + |Trim(text, lexicon)|
  {
    TrimStartTakesSpace(text, lexicon.space);
  }

  lemma {:induction false} SolidSpansSurvive(text: string, spans: seq<Span>, lexicon: Lexicon)
    requires SolidSpans(text, spans, lexicon)
    ensures Named(Shifted(spans, Lead(text, lexicon), |Trim(text, lexicon)|)) == Named(spans)
    decreases |spans|
  {
    hide Lead, Trim;
    if spans != [] {
      var lead, length, s := Lead(text, lexicon), |Trim(text, lexicon)|, spans[0];
      SolidSpansSurvive(text, spans[1..], lexicon);
      TrimKeeps(text, s.start, lexicon);
      TrimKeeps(text, s.end - 1, lexicon);
      var shifted := Span(s.start - lead, s.end - lead, s.markup, s.tex);
      assert ([shifted] + Shifted(spans[1..], lead, length))[1..] == Shifted(spans[1..], lead, length);
    }
  }

  lemma {:induction false} NamedAppend(a: seq<Span>, b: seq<Span>)
    ensures Named(a + b) == Named(a) + Named(b)
    decreases |a|
  {
    if a == [] {
      assert a + b == b;
    } else {
      assert (a + b)[1..] == a[1..] + b;
      NamedAppend(a[1..], b);
    }
  }

  lemma {:induction false} NamedSpans(tokens: seq<Token>, lexicon: Lexicon)
    ensures Named(SpansOf(tokens, lexicon)) == MathOf(tokens, lexicon)
    decreases |tokens|
  {
    if tokens != [] {
      var before, t := tokens[..|tokens|-1], tokens[|tokens|-1];
      NamedSpans(before, lexicon);
      var at := |TextOf(before, lexicon)|;
      var last := if t.Math? && lexicon.valid(t.tex) then [Span(at, at + |Raw(t, lexicon)|, t.markup, t.tex)] else [];
      NamedAppend(SpansOf(before, lexicon), last);
    }
  }

  // ---- the runs of a whole paragraph ----

  /** The run a finished stretch yields, unless it is too short or too long. */
  function Yielded(tokens: seq<Token>, lexicon: Lexicon): seq<Run> {
    var run := RunOf(tokens, lexicon);
    if MIN_RUN <= |run.text| <= MAX_RUN then [run] else []
  }

  function Stretches(tokens: seq<Token>): (stretches: seq<seq<Token>>)
    ensures stretches != []
  {
    if tokens == [] then [[]]
    else
      var before := Stretches(tokens[..|tokens|-1]);
      var n, t := |before| - 1, tokens[|tokens|-1];
      if t.Divider? then before + [[]] else before[..n] + [before[n] + [t]]
  }

  function AllYielded(stretches: seq<seq<Token>>, lexicon: Lexicon): seq<Run> {
    if stretches == [] then []
    else AllYielded(stretches[..|stretches|-1], lexicon) + Yielded(stretches[|stretches|-1], lexicon)
  }

  /** What stands for a token in the text of its stretch. */
  ghost predicate StandsFor(t: Token, text: string, lexicon: Lexicon) {
    match t
    case Text(content) => text == content
    case Break => |text| == 1 && text[0] == ' '
    case Math(markup, tex) =>
      |text| == |markup| + |tex| + |lexicon.close(markup)| && markup <= text && text[|markup|..|markup| + |tex|] == tex
      && text[|markup| + |tex|..] == lexicon.close(markup)
    case _ => text == ""
  }

  lemma {:induction false} PrefixOfText(tokens: seq<Token>, k: nat, lexicon: Lexicon)
    requires k <= |tokens|
    ensures TextOf(tokens[..k], lexicon) <= TextOf(tokens, lexicon)
    decreases |tokens| - k
  {
    if k < |tokens| {
      PrefixOfText(tokens, k + 1, lexicon);
      assert tokens[..k+1][..k] == tokens[..k];
    } else {
      assert tokens[..k] == tokens;
    }
  }

  /** Nothing of a stretch is lost or added: the text is what stands for its tokens, one after the other. */
  lemma TokensStandInText(tokens: seq<Token>, k: nat, lexicon: Lexicon)
    requires k < |tokens|
    ensures var low, high := |TextOf(tokens[..k], lexicon)|, |TextOf(tokens[..k+1], lexicon)|;
            low <= high <= |TextOf(tokens, lexicon)| && StandsFor(tokens[k], TextOf(tokens, lexicon)[low..high], lexicon)
    ensures TextOf(tokens[..0], lexicon) == "" && tokens[..|tokens|] == tokens
  {
    hide TextOf;
    var before, raw := TextOf(tokens[..k], lexicon), Raw(tokens[k], lexicon);
    TextGrows(tokens, k, lexicon);
    PrefixOfText(tokens, k + 1, lexicon);
    assert TextOf(tokens, lexicon)[|before|..|before| + |raw|] == raw;
    RawStandsFor(tokens[k], lexicon);
  }

  lemma TextGrows(tokens: seq<Token>, k: nat, lexicon: Lexicon)
    requires k < |tokens|
    ensures TextOf(tokens[..k+1], lexicon) == TextOf(tokens[..k], lexicon) + Raw(tokens[k], lexicon)
    ensures TextOf(tokens[..0], lexicon) == "" && tokens[..|tokens|] == tokens
  {
    assert tokens[..k+1][..k] == tokens[..k];
  }

  lemma RawStandsFor(t: Token, lexicon: Lexicon)
    ensures StandsFor(t, Raw(t, lexicon), lexicon)
  {
  }

  /** The stretches with a divider between any two. */
  function Joined(stretches: seq<seq<Token>>): seq<Token>
    decreases |stretches|, 1
  {
    if stretches == [] then [] else BeforeLast(stretches) + stretches[|stretches|-1]
  }

  function BeforeLast(stretches: seq<seq<Token>>): seq<Token>
    requires stretches != []
    decreases |stretches|, 0
  {
    if |stretches| == 1 then [] else Joined(stretches[..|stretches|-1]) + [Divider]
  }

  lemma JoinedLast(before: seq<seq<Token>>, last: seq<Token>)
    ensures Joined(before + [last]) == (if before == [] then [] else Joined(before) + [Divider]) + last
  {
    assert (before + [last])[..|before|] == before;
  }

  lemma Regroup(a: seq<Token>, b: seq<Token>, t: Token)
    ensures a + (b + [t]) == (a + b) + [t]
  {
  }

  lemma JoinedGrows(before: seq<seq<Token>>, last: seq<Token>, t: Token)
    ensures Joined(before + [last + [t]]) == Joined(before + [last]) + [t]
    ensures Joined(before + [last] + [[]]) == Joined(before + [last]) + [Divider]
  {
    hide Joined;
    JoinedLast(before, last);
    JoinedLast(before, last + [t]);
    JoinedLast(before + [last], []);
    Regroup(if before == [] then [] else Joined(before) + [Divider], last, t);
    assert Joined(before + [last]) + [Divider] + [] == Joined(before + [last]) + [Divider];
  }

  lemma NoStretch()
    ensures Stretches([]) == [[]] && Joined([[]]) == []
  {
  }

  ghost predicate Undivided(stretches: seq<seq<Token>>) {
    forall s, k :: 0 <= s < |stretches| && 0 <= k < |stretches[s]| ==> !stretches[s][k].Divider?
  }

  lemma StillUndivided(before: seq<seq<Token>>, last: seq<Token>, t: Token)
    requires Undivided(before + [last])
    ensures Undivided(before + [last] + [[]]) && (!t.Divider? ==> Undivided(before + [last + [t]]))
  {
    var all := before + [last];
    assert forall s :: 0 <= s < |before| ==> all[s] == before[s];
    assert all[|before|] == last;
  }

  /** A paragraph is its stretches with the dividers between them, and no stretch holds a divider. */
  lemma {:induction false} StretchesJoin(tokens: seq<Token>)
    ensures Joined(Stretches(tokens)) == tokens && Undivided(Stretches(tokens))
    decreases |tokens|
  {
    hide Joined, Undivided;
    if tokens == [] {
      NoStretch();
      NothingDivided();
    } else {
      var n := |tokens| - 1;
      StretchesJoin(tokens[..n]);
      var all := Stretches(tokens[..n]);
      var before, last := all[..|all|-1], all[|all|-1];
      assert all == before + [last] && tokens == tokens[..n] + [tokens[n]];
      JoinedGrows(before, last, tokens[n]);
      StillUndivided(before, last, tokens[n]);
    }
  }

  lemma NothingDivided()
    ensures Undivided([[]])
  {
  }

  /** Every run yielded is that of one of the stretches, in their order, trimmed, and 3 to 2000 characters long. */
  lemma {:induction false} RunsOfStretches(stretches: seq<seq<Token>>, lexicon: Lexicon)
    ensures forall r :: r in AllYielded(stretches, lexicon) ==>
              3 <= |r.text| <= 2000 && !lexicon.space(r.text[0]) && !lexicon.space(r.text[|r.text|-1])
    ensures forall s :: s in stretches && 3 <= |RunOf(s, lexicon).text| <= 2000 ==> RunOf(s, lexicon) in AllYielded(stretches, lexicon)
    ensures |AllYielded(stretches, lexicon)| <= |stretches|
    decreases |stretches|
  {
    hide TextOf, SpansOf, Shifted, Lead, Trim;
    if stretches != [] {
      var n := |stretches| - 1;
      RunsOfStretches(stretches[..n], lexicon);
      TrimmedText(TextOf(stretches[n], lexicon), lexicon);
      forall s | s in stretches && 3 <= |RunOf(s, lexicon).text| <= 2000 ensures RunOf(s, lexicon) in AllYielded(stretches, lexicon) {
        assert s == stretches[n] || s in stretches[..n];
      }
    }
  }

  lemma TrimmedText(text: string, lexicon: Lexicon)
    ensures var r := Trim(text, lexicon); r != "" ==> !lexicon.space(r[0]) && !lexicon.space(r[|r|-1])
  {
    TrimStartTakesSpace(text, lexicon.space);
    TrimEndStops(TrimStart(text, lexicon.space), lexicon);
  }

  lemma {:induction false} TrimEndStops(s: string, lexicon: Lexicon)
    ensures var r := TrimEnd(s, lexicon); r != "" ==> !lexicon.space(r[|r|-1])
    decreases |s|
  {
    if s != [] && lexicon.space(s[|s|-1]) {
      TrimEndStops(s[..|s|-1], lexicon);
    }
  }

  class Segmenter {
    const lexicon: Lexicon
    var text: string
    var spans: seq<Span>
    var runs: seq<Run>

    constructor (lexicon: Lexicon)
      ensures this.lexicon == lexicon && text == "" && spans == [] && runs == []
    {
      this.lexicon := lexicon;
      text, spans, runs := "", [], [];
    }

    /** Gathered so far: exactly the given tokens. */
    ghost predicate Gathered(tokens: seq<Token>)
      reads this
    {
      text == TextOf(tokens, lexicon) && spans == SpansOf(tokens, lexicon)
    }

    method Flush(ghost tokens: seq<Token>)
      requires Gathered(tokens)
      modifies this
      ensures Gathered([]) && runs == old(runs) + Yielded(tokens, lexicon)
    {
      var lead := |text| - |TrimStart(text, lexicon.space)|;
      var run := Trim(text, lexicon);
      if |run| >= MIN_RUN && |run| <= MAX_RUN {
        runs := runs + [Run(run, Shifted(spans, lead, |run|))];
      }
      text, spans := "", [];
    }

    method Take(t: Token, ghost tokens: seq<Token>)
      requires Gathered(tokens) && !t.Divider?
      modifies this`text, this`spans
      ensures Gathered(tokens + [t])
    {
      assert (tokens + [t])[..|tokens|] == tokens;
      match t
      case Text(content) => text := text + content;
      case Break => text := text + " ";
      case Math(markup, tex) =>
        var raw := markup + tex + lexicon.close(markup);
        if lexicon.valid(tex) {
          spans := spans + [Span(|text|, |text| + |raw|, markup, tex)];
        }
        text := text + raw;
      case Other =>
    }
  }

  method InlineRuns(tokens: seq<Token>, lexicon: Lexicon) returns (runs: seq<Run>)
    ensures runs == AllYielded(Stretches(tokens), lexicon)
  {
    hide Yielded, TextOf, SpansOf, RunOf;
    var s := new Segmenter(lexicon);
    NothingGathered(lexicon);
    ghost var stretches: seq<seq<Token>> := [[]];
    var i := 0;
    while i < |tokens|
      invariant 0 <= i <= |tokens| && s.lexicon == lexicon
      invariant stretches == Stretches(tokens[..i]) && stretches != []
      invariant s.Gathered(stretches[|stretches|-1])
      invariant s.runs == AllYielded(stretches[..|stretches|-1], lexicon)
    {
      assert tokens[..i+1][..i] == tokens[..i];
      ghost var n := |stretches| - 1;
      if tokens[i].Divider? {
        s.Flush(stretches[n]);
        assert (stretches + [[]])[..n+1] == stretches;
        stretches := stretches + [[]];
      } else {
        s.Take(tokens[i], stretches[n]);
        assert (stretches[..n] + [stretches[n] + [tokens[i]]])[..n] == stretches[..n];
        stretches := stretches[..n] + [stretches[n] + [tokens[i]]];
      }
      i := i + 1;
    }
    assert tokens[..i] == tokens;
    s.Flush(stretches[|stretches|-1]);
    runs := s.runs;
  }

  lemma NothingGathered(lexicon: Lexicon)
    ensures TextOf([], lexicon) == "" && SpansOf([], lexicon) == []
  {
  }
}
