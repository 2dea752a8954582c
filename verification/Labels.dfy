/**
  Training rows from segmented runs: every math span is replaced by its rewritten form while labels
  record where it went, and code lines get labels where short tokens look like math.
 */
module Labels {
  import opened Wrappers
  import Spans

  datatype Place = Place(start: nat, end: nat)

  datatype Label = Label(start: nat, end: nat, kind: string)

  // ---- substitution ----

  /** Places in order and disjoint, within the first `high` characters. */
  ghost predicate Placed(places: seq<Place>, high: nat) {
    && (forall i :: 0 <= i < |places| ==> places[i].start <= places[i].end <= high)
    && (forall i, j :: 0 <= i < j < |places| ==> places[i].end <= places[j].start)
  }

  function Slice(text: string, low: nat, high: nat): string {
    if low <= high <= |text| then text[low..high] else ""
  }

  function EndOf(places: seq<Place>): nat {
    if places == [] then 0 else places[|places|-1].end
  }

  /** The text in front of each place, back to the place before. */
  function Gaps(text: string, places: seq<Place>): (gaps: seq<string>)
    ensures |gaps| == |places|
  {
    if places == [] then []
    else
      var n := |places| - 1;
      Gaps(text, places[..n]) + [Slice(text, EndOf(places[..n]), places[n].start)]
  }

  /** The text at each place. */
  function Fills(text: string, places: seq<Place>): (fills: seq<string>)
    ensures |fills| == |places|
    ensures forall i :: 0 <= i < |places| ==> fills[i] == Slice(text, places[i].start, places[i].end)
  {
    if places == [] then []
    else
      var n := |places| - 1;
      Fills(text, places[..n]) + [Slice(text, places[n].start, places[n].end)]
  }

  function Woven(gaps: seq<string>, fills: seq<string>): string
    requires |gaps| == |fills|
  {
    if gaps == [] then ""
    else
      var n := |gaps| - 1;
      Woven(gaps[..n], fills[..n]) + gaps[n] + fills[n]
  }

  function Positions(gaps: seq<string>, fills: seq<string>): (places: seq<Place>)
    requires |gaps| == |fills|
    ensures |places| == |gaps|
  {
    if gaps == [] then []
    else
      var n := |gaps| - 1;
      var start := |Woven(gaps[..n], fills[..n])| + |gaps[n]|;
      Positions(gaps[..n], fills[..n]) + [Place(start, start + |fills[n]|)]
  }

  /** The text with the given texts at the given places. */
  function Substituted(text: string, places: seq<Place>, news: seq<string>): string
    requires |news| == |places|
  {
    Woven(Gaps(text, places), news) + Slice(text, EndOf(places), |text|)
  }

  /** Where the new texts are then. */
  function Moved(text: string, places: seq<Place>, news: seq<string>): (moved: seq<Place>)
    requires |news| == |places|
    ensures |moved| == |places|
  {
    Positions(Gaps(text, places), news)
  }

  lemma SliceMiddle(a: string, b: string, c: string)
    ensures Slice(a + b + c, |a|, |a + b|) == b
  {
  }

  lemma PlacedPush(places: seq<Place>, place: Place, middle: nat)
    requires Placed(places, middle) && EndOf(places) <= middle <= place.start <= place.end
    ensures Placed(places + [place], place.end)
  {
  }

  lemma UnfoldWoven(gaps: seq<string>, fills: seq<string>)
    requires |gaps| == |fills| > 0
    ensures var n := |gaps| - 1;
            var w := Woven(gaps[..n], fills[..n]);
            && Woven(gaps, fills) == w + gaps[n] + fills[n]
            && Positions(gaps, fills) == Positions(gaps[..n], fills[..n]) + [Place(|w + gaps[n]|, |w + gaps[n] + fills[n]|)]
  {
  }

  lemma UnfoldCut(text: string, places: seq<Place>, place: Place)
    ensures Gaps(text, places + [place]) == Gaps(text, places) + [Slice(text, EndOf(places), place.start)]
    ensures Fills(text, places + [place]) == Fills(text, places) + [Slice(text, place.start, place.end)]
  {
    assert (places + [place])[..|places|] == places;
  }

  /** Cutting a woven text at its positions gives back what it was woven from. */
  lemma {:induction false} CutWoven(gaps: seq<string>, fills: seq<string>, after: string)
    requires |gaps| == |fills|
    ensures var built := Woven(gaps, fills) + after;
            var places := Positions(gaps, fills);
            && Placed(places, |Woven(gaps, fills)|) && EndOf(places) == |Woven(gaps, fills)|
            && Gaps(built, places) == gaps && Fills(built, places) == fills
    decreases |gaps|
  {
    hide Woven, Positions, Gaps, Fills, Slice, Placed;
    if gaps == [] {
      NothingWoven(after);
      assert fills == [];
    } else {
      var n := |gaps| - 1;
      var w, gap, fill := Woven(gaps[..n], fills[..n]), gaps[n], fills[n];
      UnfoldWoven(gaps, fills);
      CutWoven(gaps[..n], fills[..n], gap + fill + after);
      var built := Woven(gaps, fills) + after;
      assert built == w + (gap + fill + after) == w + gap + (fill + after) == (w + gap) + fill + after;
      SliceMiddle(w, gap, fill + after);
      SliceMiddle(w + gap, fill, after);
      var place := Place(|w + gap|, |w + gap + fill|);
      UnfoldCut(built, Positions(gaps[..n], fills[..n]), place);
      PlacedPush(Positions(gaps[..n], fills[..n]), place, |w|);
      assert gaps == gaps[..n] + [gap] && fills == fills[..n] + [fill];
    }
  }

  lemma NothingWoven(after: string)
    ensures Woven([], []) == "" && Positions([], []) == [] && Gaps(after, []) == [] && Fills(after, []) == []
    ensures Placed([], 0) && "" + after == after
  {
  }

  /** A text is woven from its own gaps and fills. */
  lemma {:induction false} WeaveBack(text: string, places: seq<Place>)
    requires Placed(places, |text|)
    ensures EndOf(places) <= |text| && Woven(Gaps(text, places), Fills(text, places)) == text[..EndOf(places)]
    decreases |places|
  {
    hide Placed, Slice, Woven, Gaps, Fills;
    if places == [] {
      NothingWoven(text);
    } else {
      var n := |places| - 1;
      LastPlaced(places, |text|);
      WeaveBack(text, places[..n]);
      UnfoldCut(text, places[..n], places[n]);
      assert places == places[..n] + [places[n]];
      UnfoldWoven(Gaps(text, places), Fills(text, places));
      JoinSlices(text, EndOf(places[..n]), places[n].start, places[n].end);
    }
  }

  lemma JoinSlices(text: string, low: nat, middle: nat, high: nat)
    requires low <= middle <= high <= |text|
    ensures text[..low] + Slice(text, low, middle) + Slice(text, middle, high) == text[..high]
  {
  }

  lemma LastPlaced(places: seq<Place>, high: nat)
    requires places != [] && Placed(places, high)
    ensures var n := |places| - 1;
            Placed(places[..n], high) && EndOf(places[..n]) <= places[n].start <= places[n].end <= high
  {
  }

  /**
    Each label covers exactly its substituted text, labels are in order and disjoint, and substituting
    the originals back at the labels gives the run again.
   */
  lemma LabelsAreExact(text: string, places: seq<Place>, news: seq<string>)
    requires |news| == |places| && Placed(places, |text|)
    ensures var built := Substituted(text, places, news);
            var moved := Moved(text, places, news);
            && Placed(moved, |built|) && Fills(built, moved) == news
            && Substituted(built, moved, Fills(text, places)) == text
  {
    hide Woven, Positions, Gaps, Fills;
    var tail := Slice(text, EndOf(places), |text|);
    CutWoven(Gaps(text, places), news, tail);
    WeaveBack(text, places);
    var w := Woven(Gaps(text, places), news);
    assert Slice(w + tail, |w|, |w + tail|) == tail;
    assert text[..EndOf(places)] + tail == text;
  }

  // ---- building a row ----

  datatype Row = Row(text: string, labels: seq<Label>)

  /** The labels for the new texts at their places. */
  ghost predicate Labelled(labels: seq<Label>, places: seq<Place>, news: seq<string>, classify: string -> string) {
    && |labels| == |places| == |news|
    && forall i :: 0 <= i < |places| ==> labels[i] == Label(places[i].start, places[i].end, classify(news[i]))
  }

  predicate Failed(math: Option<string>) {
    math.None? || math.value == ""
  }

  function Converted(maths: seq<Option<string>>): (news: seq<string>)
    ensures |news| == |maths|
    ensures forall i :: 0 <= i < |maths| ==> news[i] == if maths[i].Some? then maths[i].value else ""
  {
    if maths == [] then []
    else Converted(maths[..|maths|-1]) + [if maths[|maths|-1].Some? then maths[|maths|-1].value else ""]
  }

  /** One more place filled. */
  lemma FillOne(text: string, places: seq<Place>, news: seq<string>, i: nat)
    requires |news| == |places| && i < |places| && Placed(places, |text|)
    ensures EndOf(places[..i]) <= places[i].start <= places[i].end <= |text|
    ensures var w := Woven(Gaps(text, places[..i]), news[..i]) + text[EndOf(places[..i])..places[i].start];
            && Woven(Gaps(text, places[..i+1]), news[..i+1]) == w + news[i]
            && Moved(text, places[..i+1], news[..i+1]) == Moved(text, places[..i], news[..i]) + [Place(|w|, |w + news[i]|)]
  {
    hide Woven, Positions, Gaps;
    assert places[..i+1] == places[..i] + [places[i]];
    assert places[..i] != [] ==> places[..i][i-1] == places[i-1];
    UnfoldCut(text, places[..i], places[i]);
    var gaps := Gaps(text, places[..i+1]);
    UnfoldWoven(gaps, news[..i+1]);
    assert gaps[..i] == Gaps(text, places[..i]) && news[..i+1][..i] == news[..i];
  }

  /**
    A row for a run with math: `maths` are the rewritten formulas, missing where a conversion failed.
    One missing or empty formula drops the run.
   */
  method BuildRow(text: string, places: seq<Place>, maths: seq<Option<string>>, classify: string -> string)
    returns (row: Option<Row>)
    requires |maths| == |places| && Placed(places, |text|)
    ensures row.None? <==> exists i :: 0 <= i < |maths| && Failed(maths[i])
    ensures row.Some? ==> forall i :: 0 <= i < |maths| ==> maths[i].Some? && maths[i].value != ""
    ensures row.Some? ==>
              && row.value.text == Substituted(text, places, Converted(maths))
              && Labelled(row.value.labels, Moved(text, places, Converted(maths)), Converted(maths), classify)
  {
    hide Woven, Gaps, Moved, EndOf;
    ghost var news := Converted(maths);
    var built := "";
    var labels: seq<Label> := [];
    var last := 0;
    var i := 0;
    NothingFilled(text);
    assert places[..0] == [] && news[..0] == [];
    while i < |places|
      invariant 0 <= i <= |places|
      invariant forall k :: 0 <= k < i ==> !Failed(maths[k])
      invariant built == Woven(Gaps(text, places[..i]), news[..i])
      invariant Labelled(labels, Moved(text, places[..i], news[..i]), news[..i], classify)
      invariant last == EndOf(places[..i]) <= |text|
    {
      if Failed(maths[i]) {
        return None;
      }
      var math := maths[i].value;
      FillOne(text, places, news, i);
      EndOfNext(places, i);
      assert news[..i+1] == news[..i] + [math];
      built := built + text[last..places[i].start];
      labels := labels + [Label(|built|, |built| + |math|, classify(math))];
      built := built + math;
      last := places[i].end;
      i := i + 1;
    }
    assert places[..i] == places && news[..i] == news;
    built := built + text[last..];
    row := Some(Row(built, labels));
  }

  lemma EndOfNext(places: seq<Place>, i: nat)
    requires i < |places|
    ensures EndOf(places[..i+1]) == places[i].end
  {
  }

  lemma NothingFilled(text: string)
    ensures Woven(Gaps(text, []), []) == "" && Moved(text, [], []) == [] && EndOf([]) == 0
  {
  }

  // ---- from paragraph to row ----

  function PlacesOf(spans: seq<Spans.Span>): (places: seq<Place>)
    ensures |places| == |spans|
    ensures forall i :: 0 <= i < |spans| ==> places[i] == Place(spans[i].start, spans[i].end)
  {
    if spans == [] then [] else PlacesOf(spans[..|spans|-1]) + [Place(spans[|spans|-1].start, spans[|spans|-1].end)]
  }

  /**
    From any stretch of tokens: what a row replaces is exactly the delimited math, its labels cover
    exactly the replacements, and putting the math back gives the run.
   */
  lemma RowOfRunIsExact(tokens: seq<Spans.Token>, lexicon: Spans.Lexicon, news: seq<string>)
    requires |news| == |Spans.RunOf(tokens, lexicon).spans|
    ensures var run := Spans.RunOf(tokens, lexicon);
            var places := PlacesOf(run.spans);
            var built, moved := Substituted(run.text, places, news), Moved(run.text, places, news);
            && (forall i :: 0 <= i < |places| ==>
                  Fills(run.text, places)[i] == Spans.Delimited(run.spans[i].markup, run.spans[i].tex, lexicon))
            && Placed(moved, |built|) && Fills(built, moved) == news
            && Substituted(built, moved, Fills(run.text, places)) == run.text
  {
    hide Substituted, Moved, Spans.RunOf;
    Spans.RunIsExact(tokens, lexicon);
    var run := Spans.RunOf(tokens, lexicon);
    LabelsAreExact(run.text, PlacesOf(run.spans), news);
  }

  // ---- code lines ----

  /** A word of a code line: where it is, whether it is short, and whether it holds an operator. */
  datatype Word = Word(start: nat, end: nat, short: bool, op: bool)

  ghost predicate InText(words: seq<Word>) {
    && (forall i :: 0 <= i < |words| ==> words[i].start < words[i].end && (words[i].op ==> words[i].short))
    && (forall i, j :: 0 <= i < j < |words| ==> words[i].end <= words[j].start)
  }

  ghost predicate AllShort(words: seq<Word>, i: nat, j: nat) {
    forall k :: i <= k < j && k < |words| ==> words[k].short
  }

  /** The word stands in an unbroken run of short words that holds an operator. */
  ghost predicate NearOperator(words: seq<Word>, k: nat) {
    exists i, j, m :: 0 <= i <= k < j <= |words| && i <= m < j && AllShort(words, i, j) && words[m].op
  }

  ghost predicate Inside(word: Word, spans: seq<Place>) {
    exists s :: s in spans && s.start <= word.start && word.end <= s.end
  }

  /** Each span runs from the start of a word to the end of one. */
  ghost predicate OnWords(words: seq<Word>, spans: seq<Place>) {
    forall s :: s in spans ==>
      exists i, j :: 0 <= i <= j < |words| && s.start == words[i].start && s.end == words[j].end && AllShort(words, i, j + 1)
  }

  /** Spans so far end before word `i`, and cover exactly the earlier words near an operator. */
  ghost predicate CoversUpTo(words: seq<Word>, spans: seq<Place>, i: nat) {
    && i <= |words|
    && (i < |words| ==> forall s :: s in spans ==> s.end <= words[i].start)
    && (forall k :: 0 <= k < i ==> (Inside(words[k], spans) <==> NearOperator(words, k)))
    && (forall a, b :: 0 <= a < b < |spans| ==> spans[a].end <= spans[b].start)
  }

  /** A word that is not short stands after `low` and before `high`. */
  ghost predicate LongBetween(words: seq<Word>, low: nat, high: nat) {
    exists k :: 0 <= k < |words| && !words[k].short && low <= words[k].start && words[k].end <= high
  }

  /** Between two neighbouring spans stands a word that is not short: a run has one span. */
  ghost predicate Separated(words: seq<Word>, spans: seq<Place>) {
    forall a :: 0 <= a < |spans| - 1 ==> LongBetween(words, spans[a].end, spans[a+1].start)
  }

  /** A run that starts at word `i` is already parted from the last span. */
  ghost predicate Parted(words: seq<Word>, spans: seq<Place>, i: nat) {
    spans != [] && i < |words| && words[i].short ==> LongBetween(words, spans[|spans|-1].end, words[i].start)
  }

  lemma NotNear(words: seq<Word>, k: nat)
    requires k < |words| && !words[k].short
    ensures !NearOperator(words, k)
  {
  }

  /** In a maximal run of short words, every word is near an operator just when one of them holds one. */
  lemma RunDecides(words: seq<Word>, i: nat, j: nat, k: nat)
    requires i <= k < j <= |words| && AllShort(words, i, j)
    requires i == 0 || !words[i-1].short
    requires j == |words| || !words[j].short
    ensures NearOperator(words, k) <==> exists m :: i <= m < j && words[m].op
  {
    if NearOperator(words, k) {
      var a, b, m :| 0 <= a <= k < b <= |words| && a <= m < b && AllShort(words, a, b) && words[m].op;
      assert i <= a && b <= j;
    }
  }

  method AmbiguousSpans(words: seq<Word>) returns (spans: seq<Place>)
    requires InText(words)
    ensures forall k :: 0 <= k < |words| ==> (Inside(words[k], spans) <==> NearOperator(words, k))
    ensures forall a, b :: 0 <= a < b < |spans| ==> spans[a].end <= spans[b].start
    ensures OnWords(words, spans) && Separated(words, spans)
  {
    hide OnWords, CoversUpTo, LongBetween;
    NothingCovered(words);
    spans := [];
    var i := 0;
    while i < |words|
      invariant i <= |words| && CoversUpTo(words, spans, i) && OnWords(words, spans)
      invariant Separated(words, spans) && Parted(words, spans, i)
      invariant i == 0 || i == |words| || !words[i-1].short || !words[i].short
      decreases |words| - i
    {
      if !words[i].short {
        SkipWord(words, spans, i);
        LongParts(words, spans, i);
        i := i + 1;
      } else {
        var j := i;
        var op := false;
        while j < |words| && words[j].short
          invariant i <= j <= |words| && AllShort(words, i, j)
          invariant op <==> exists m :: i <= m < j && words[m].op
        {
          if words[j].op { op := true; }
          j := j + 1;
        }
        TakeRun(words, spans, i, j, op);
        if op {
          PushOnWords(words, spans, i, j - 1);
          spans := spans + [Place(words[i].start, words[j-1].end)];
        }
        i := j;
      }
    }
    AllCovered(words, spans);
  }

  lemma LongParts(words: seq<Word>, spans: seq<Place>, i: nat)
    requires InText(words) && i < |words| && !words[i].short && CoversUpTo(words, spans, i)
    ensures Parted(words, spans, i + 1)
  {
    if spans != [] && i + 1 < |words| {
      assert spans[|spans|-1] in spans;
      assert words[i].end <= words[i+1].start;
    }
  }

  lemma NothingCovered(words: seq<Word>)
    ensures CoversUpTo(words, [], 0) && OnWords(words, [])
  {
  }

  lemma AllCovered(words: seq<Word>, spans: seq<Place>)
    requires CoversUpTo(words, spans, |words|)
    ensures forall k :: 0 <= k < |words| ==> (Inside(words[k], spans) <==> NearOperator(words, k))
    ensures forall a, b :: 0 <= a < b < |spans| ==> spans[a].end <= spans[b].start
  {
  }

  lemma PushOnWords(words: seq<Word>, spans: seq<Place>, i: nat, j: nat)
    requires OnWords(words, spans) && i <= j < |words| && AllShort(words, i, j + 1)
    ensures OnWords(words, spans + [Place(words[i].start, words[j].end)])
  {
    hide AllShort;
  }

  /** Spans that end before a word do not reach it. */
  lemma NotReached(words: seq<Word>, spans: seq<Place>, i: nat, k: nat)
    requires InText(words) && i <= k < |words| && forall s :: s in spans ==> s.end <= words[i].start
    ensures !Inside(words[k], spans)
  {
    assert i < k ==> words[i].end <= words[k].start;
  }

  lemma SkipWord(words: seq<Word>, spans: seq<Place>, i: nat)
    requires InText(words) && CoversUpTo(words, spans, i) && i < |words| && !words[i].short
    ensures CoversUpTo(words, spans, i + 1)
  {
    NotNear(words, i);
    NotReached(words, spans, i, i);
    assert i + 1 < |words| ==> words[i].start < words[i].end <= words[i+1].start;
  }

  lemma TakeRun(words: seq<Word>, spans: seq<Place>, i: nat, j: nat, op: bool)
    requires InText(words) && CoversUpTo(words, spans, i) && i < j <= |words| && AllShort(words, i, j)
    requires (i == 0 || !words[i-1].short) && (j == |words| || !words[j].short)
    requires op <==> exists m :: i <= m < j && words[m].op
    ensures CoversUpTo(words, if op then spans + [Place(words[i].start, words[j-1].end)] else spans, j)
  {
    hide NearOperator, AllShort;
    var last := Place(words[i].start, words[j-1].end);
    var more := if op then spans + [last] else spans;
    forall k | 0 <= k < j ensures Inside(words[k], more) <==> NearOperator(words, k) {
      InsideMore(words, spans, last, i, j, k);
      if k >= i {
        RunDecides(words, i, j, k);
        NotReached(words, spans, i, k);
      }
    }
    assert j < |words| ==> words[j-1].end <= words[j].start && words[i].start <= words[j].start;
  }

  /** The new span covers exactly the words of its run. */
  lemma InsideMore(words: seq<Word>, spans: seq<Place>, last: Place, i: nat, j: nat, k: nat)
    requires InText(words) && i < j <= |words| && k < j && last == Place(words[i].start, words[j-1].end)
    ensures Inside(words[k], spans + [last]) <==> Inside(words[k], spans) || k >= i
  {
    assert k < i ==> words[k].start < words[k].end <= words[i].start;
    assert k > i ==> words[i].end <= words[k].start;
    assert k < j - 1 ==> words[k].end <= words[j-1].start;
    if k >= i {
      assert last in spans + [last];
    }
    if Inside(words[k], spans) {
      var s :| s in spans && s.start <= words[k].start && words[k].end <= s.end;
      assert s in spans + [last];
    }
  }
}
