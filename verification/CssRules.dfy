/**
  Removing unused rules from a stylesheet by line ranges: finding the range of a class's rule,
  keeping ranges that do not overlap, splicing them out from the bottom up, and collapsing blanks.
 */
module CssRules {
  import opened StableSort
  import opened Trimming

  /** White space as `trim` sees it, and the heuristic for a selector list; both are arbitrary here. */
  datatype Lexicon = Lexicon(space: char -> bool, grouped: seq<string> -> bool)

  datatype Range = Range(start: nat, end: nat)

  datatype Found = NoRule | Grouped(range: Range) | Rule(range: Range)

  // ---- lines ----

  predicate Opens(line: string) { '{' in line }

  predicate Closes(line: string) { '}' in line }

  predicate Blank(line: string, lexicon: Lexicon) {
    TrimStart(line, lexicon.space) == []
  }

  /** Looks like part of a comment: trimmed, it starts with a star or a slash and a star. */
  predicate CommentLike(line: string, lexicon: Lexicon) {
    var t := TrimStart(line, lexicon.space);
    "*" <= t || "/*" <= t
  }

  /** Comment openings and starred lines look like comments, indented or not; no other text does. */
  lemma CommentForms(text: string, c: char, lexicon: Lexicon)
    requires !lexicon.space('*') && !lexicon.space('/')
    ensures CommentLike("/*" + text, lexicon) && CommentLike("*" + text, lexicon)
    ensures !lexicon.space(c) && c != '*' && c != '/' ==> !CommentLike([c] + text, lexicon)
    ensures lexicon.space(c) ==> (CommentLike([c] + text, lexicon) <==> CommentLike(text, lexicon))
  {
    assert ([c] + text)[1..] == text;
    assert ("/*" + text)[0] == '/' && ("/*" + text)[1] == '*' && ("*" + text)[0] == '*';
  }

  /** Opening minus closing braces. */
  function Net(line: string): int {
    if line == [] then 0
    else Net(line[..|line|-1]) + (if line[|line|-1] == '{' then 1 else if line[|line|-1] == '}' then -1 else 0)
  }

  // ---- the range of a rule ----

  /** Scanning back from line `i` for the brace that ends what comes before the selector. */
  function SelectorStart(lines: seq<string>, i: nat, first: bool): (s: nat)
    requires i < |lines|
    ensures s <= if first then i else i + 1
  {
    if Opens(lines[i]) then i
    else if Closes(lines[i]) && !first then i + 1
    else if i == 0 then 0
    else SelectorStart(lines, i - 1, false)
  }

  function NextOpen(lines: seq<string>, i: nat): (b: nat)
    requires i <= |lines|
    ensures i <= b <= |lines| && (b < |lines| ==> Opens(lines[b]))
    ensures forall k :: i <= k < b ==> !Opens(lines[k])
    decreases |lines| - i
  {
    if i == |lines| || Opens(lines[i]) then i else NextOpen(lines, i + 1)
  }

  /** The first line at which the braces counted so far cancel out. */
  function RuleEnd(lines: seq<string>, i: nat, depth: int): (e: nat)
    requires i <= |lines|
    ensures i <= e <= |lines|
    decreases |lines| - i
  {
    if i == |lines| || depth + Net(lines[i]) == 0 then i else RuleEnd(lines, i + 1, depth + Net(lines[i]))
  }

  function CommentScan(lines: seq<string>, s: nat, lexicon: Lexicon): (c: nat)
    requires s <= |lines|
    ensures c <= s
    ensures forall k :: c <= k < s ==> CommentLike(lines[k], lexicon) || Blank(lines[k], lexicon)
  {
    if s > 0 && (CommentLike(lines[s-1], lexicon) || Blank(lines[s-1], lexicon)) then CommentScan(lines, s - 1, lexicon) else s
  }

  predicate HasBlank(lines: seq<string>, low: nat, high: nat, lexicon: Lexicon)
    requires high <= |lines|
  {
    exists k :: low <= k < high && Blank(lines[k], lexicon)
  }

  /** The comment above goes with the rule unless a blank line stands between. */
  function AttachedStart(lines: seq<string>, s: nat, lexicon: Lexicon): (c: nat)
    requires s <= |lines|
    ensures c <= s
  {
    var c := CommentScan(lines, s, lexicon);
    if HasBlank(lines, c, s, lexicon) then s else c
  }

  function RuleAt(lines: seq<string>, i: nat, lexicon: Lexicon): Found
    requires i < |lines|
  {
    var s := SelectorStart(lines, i, true);
    var b := NextOpen(lines, s);
    if b == |lines| then NoRule
    else if lexicon.grouped(lines[s..b+1]) then Grouped(Range(s, b))
    else
      var e := RuleEnd(lines, b, 0);
      if e == |lines| then NoRule else Rule(Range(AttachedStart(lines, s, lexicon), e))
  }

  lemma {:induction false} SelectorStartMonotone(lines: seq<string>, i: nat, j: nat)
    requires i <= j < |lines|
    ensures SelectorStart(lines, i, true) <= SelectorStart(lines, j, true)
    ensures i < j ==> SelectorStart(lines, i, true) <= SelectorStart(lines, j, false)
  {
    if i < j && !Opens(lines[j]) {
      if i < j - 1 {
        SelectorStartMonotone(lines, i, j - 1);
      } else {
        assert SelectorStart(lines, i, false) >= SelectorStart(lines, i, true);
      }
    }
  }

  lemma {:induction false} CommentScanPasses(lines: seq<string>, s: nat, t: nat, lexicon: Lexicon)
    requires s <= t <= |lines| && CommentScan(lines, t, lexicon) <= s
    ensures CommentScan(lines, s, lexicon) == CommentScan(lines, t, lexicon)
  {
    if s < t {
      CommentScanPasses(lines, s, t - 1, lexicon);
    }
  }

  lemma AttachedStartMonotone(lines: seq<string>, s: nat, t: nat, lexicon: Lexicon)
    requires s <= t <= |lines|
    ensures AttachedStart(lines, s, lexicon) <= AttachedStart(lines, t, lexicon)
  {
    var c := CommentScan(lines, t, lexicon);
    if c <= s {
      CommentScanPasses(lines, s, t, lexicon);
      if HasBlank(lines, c, s, lexicon) {
        var k :| c <= k < s && Blank(lines[k], lexicon);
        assert HasBlank(lines, c, t, lexicon);
      }
    }
  }

  /** A rule found for a later line does not start earlier. */
  lemma RuleStartsMonotone(lines: seq<string>, i: nat, j: nat, lexicon: Lexicon)
    requires i <= j < |lines| && RuleAt(lines, i, lexicon).Rule? && RuleAt(lines, j, lexicon).Rule?
    ensures RuleAt(lines, i, lexicon).range.start <= RuleAt(lines, j, lexicon).range.start
  {
    SelectorStartMonotone(lines, i, j);
    AttachedStartMonotone(lines, SelectorStart(lines, i, true), SelectorStart(lines, j, true), lexicon);
  }

  /** Walking back from line `i`, the first line with a brace opens one. */
  ghost predicate InsideBraces(lines: seq<string>, i: nat) {
    i < |lines| && exists k :: 0 <= k < i && Opens(lines[k]) && NoBraces(lines, k + 1, i)
  }

  ghost predicate NoBraces(lines: seq<string>, low: nat, high: nat) {
    forall m :: low <= m < high && m < |lines| ==> !Opens(lines[m]) && !Closes(lines[m])
  }

  lemma {:induction false} ScanStops(lines: seq<string>, i: nat, j: nat)
    requires i < j < |lines| && NoBraces(lines, i + 1, j)
    ensures var s := SelectorStart(lines, i, false);
            if Opens(lines[s]) && s <= i then s < j && NoBraces(lines, s + 1, j)
            else forall m :: s <= m <= i ==> !Opens(lines[m])
    ensures InsideBraces(lines, j) <==> SelectorStart(lines, i, false) <= i && Opens(lines[SelectorStart(lines, i, false)])
  {
    if Opens(lines[i]) {
      assert InsideBraces(lines, j);
    } else if Closes(lines[i]) {
      assert !InsideBraces(lines, j);
    } else {
      assert NoBraces(lines, i, j);
      if i > 0 {
        ScanStops(lines, i - 1, j);
      }
    }
  }

  /**
    The selector found reaches the class's own line exactly when that line opens a brace or the nearest
    line above with a brace only closes; otherwise an earlier or enclosing rule is taken for the class's.
   */
  lemma SelectorReachesClassIff(lines: seq<string>, i: nat)
    requires i < |lines|
    ensures NextOpen(lines, SelectorStart(lines, i, true)) >= i <==> Opens(lines[i]) || !InsideBraces(lines, i)
  {
    if !Opens(lines[i]) && i > 0 {
      ScanStops(lines, i - 1, i);
    }
  }

  /**
    Where an earlier line opened the braces the class's line stands in, the class gets exactly the rule
    of that line: the one above, or the one around it.
   */
  lemma {:induction false} EarlierRuleIsTaken(lines: seq<string>, k: nat, i: nat, lexicon: Lexicon)
    requires k < i < |lines| && Opens(lines[k]) && NoBraces(lines, k + 1, i) && !Opens(lines[i])
    ensures RuleAt(lines, i, lexicon) == RuleAt(lines, k, lexicon)
  {
    ScanReaches(lines, k, i - 1);
  }

  lemma {:induction false} ScanReaches(lines: seq<string>, k: nat, i: nat)
    requires k <= i < |lines| && Opens(lines[k]) && NoBraces(lines, k + 1, i + 1)
    ensures SelectorStart(lines, i, false) == k
  {
    if k < i {
      ScanReaches(lines, k, i - 1);
    }
  }

  // ---- what else goes with a rule, and what stays behind ----

  /** Some line of the range opens a brace. */
  ghost predicate OpensWithin(lines: seq<string>, low: nat, high: nat) {
    exists k :: low <= k < high && k < |lines| && Opens(lines[k])
  }

  /** Text of the selector that ends at line `s`: since the last brace, and neither blank nor comment-like. */
  ghost predicate SelectorLine(lines: seq<string>, k: nat, s: nat, lexicon: Lexicon) {
    k < s <= |lines| && NoBraces(lines, k, s) && !Blank(lines[k], lexicon) && !CommentLike(lines[k], lexicon)
  }

  ghost predicate LeavesSelector(lines: seq<string>, start: nat, s: nat, lexicon: Lexicon) {
    exists k :: 0 <= k < start && SelectorLine(lines, k, s, lexicon)
  }

  predicate HasBrace(line: string) {
    Opens(line) || Closes(line)
  }

  lemma {:induction false} ScanEnds(lines: seq<string>, s: nat, lexicon: Lexicon)
    requires s <= |lines|
    ensures var c := CommentScan(lines, s, lexicon);
            c > 0 ==> !CommentLike(lines[c-1], lexicon) && !Blank(lines[c-1], lexicon)
  {
    if s > 0 && (CommentLike(lines[s-1], lexicon) || Blank(lines[s-1], lexicon)) {
      ScanEnds(lines, s - 1, lexicon);
    }
  }

  /**
    Another rule is deleted along with the class's exactly when the comment-like lines scanned above
    the selector hold an opening brace and no blank line.
   */
  lemma SwallowsIff(lines: seq<string>, i: nat, lexicon: Lexicon)
    requires i < |lines| && RuleAt(lines, i, lexicon).Rule?
    ensures var s := SelectorStart(lines, i, true);
            var c := CommentScan(lines, s, lexicon);
            OpensWithin(lines, RuleAt(lines, i, lexicon).range.start, s) <==> OpensWithin(lines, c, s) && !HasBlank(lines, c, s, lexicon)
  {
  }

  /**
    Text of the selector stays behind above the range exactly when, walking up from the selector over
    comment-like and blank lines without a brace, one comes to a line of text without one.
   */
  lemma LeavesSelectorIff(lines: seq<string>, i: nat, lexicon: Lexicon)
    requires i < |lines| && RuleAt(lines, i, lexicon).Rule?
    ensures var s := SelectorStart(lines, i, true);
            var c := CommentScan(lines, s, lexicon);
            LeavesSelector(lines, RuleAt(lines, i, lexicon).range.start, s, lexicon)
            <==> c > 0 && NoBraces(lines, c, s) && !HasBrace(lines[c-1])
  {
    var s := SelectorStart(lines, i, true);
    var c, start := CommentScan(lines, s, lexicon), RuleAt(lines, i, lexicon).range.start;
    ScanEnds(lines, s, lexicon);
    if c > 0 && NoBraces(lines, c, s) && !HasBrace(lines[c-1]) {
      assert SelectorLine(lines, c - 1, s, lexicon);
    }
    forall k | 0 <= k < start && SelectorLine(lines, k, s, lexicon) ensures c > 0 && NoBraces(lines, c, s) && !HasBrace(lines[c-1]) {
      assert k < c;
    }
  }

  /** Text directly above the selector, with nothing between. */
  ghost predicate DirectlyAbove(lines: seq<string>, k: nat, s: nat, lexicon: Lexicon) {
    k < s <= |lines| && forall m :: k <= m < s ==>
      !HasBrace(lines[m]) && !Blank(lines[m], lexicon) && !CommentLike(lines[m], lexicon)
  }

  /** Nothing directly above stays behind exactly when the line above has a brace, is blank or comment-like, or is none. */
  lemma LeavesDirectlyAboveIff(lines: seq<string>, i: nat, lexicon: Lexicon)
    requires i < |lines| && RuleAt(lines, i, lexicon).Rule?
    ensures var s := SelectorStart(lines, i, true);
            (forall k :: 0 <= k < RuleAt(lines, i, lexicon).range.start ==> !DirectlyAbove(lines, k, s, lexicon))
            <==> s == 0 || HasBrace(lines[s-1]) || Blank(lines[s-1], lexicon) || CommentLike(lines[s-1], lexicon)
  {
    var s := SelectorStart(lines, i, true);
    if s > 0 && !HasBrace(lines[s-1]) && !Blank(lines[s-1], lexicon) && !CommentLike(lines[s-1], lexicon) {
      assert DirectlyAbove(lines, s - 1, s, lexicon);
    }
  }

  /** Braces counted over the lines from `low` to before `high`. */
  function NetLines(lines: seq<string>, low: nat, high: nat): int
    requires high <= |lines|
  {
    if low >= high then 0 else NetLines(lines, low, high - 1) + Net(lines[high-1])
  }

  lemma {:induction false} RuleEndBalances(lines: seq<string>, b: nat, i: nat)
    requires b <= i <= |lines| && forall k :: b < k <= i ==> NetLines(lines, b, k) != 0
    ensures var e := RuleEnd(lines, i, NetLines(lines, b, i));
            && (forall k :: b < k <= e ==> NetLines(lines, b, k) != 0)
            && (e < |lines| ==> NetLines(lines, b, e + 1) == 0)
    decreases |lines| - i
  {
    if i < |lines| && NetLines(lines, b, i) + Net(lines[i]) != 0 {
      assert NetLines(lines, b, i + 1) == NetLines(lines, b, i) + Net(lines[i]);
      RuleEndBalances(lines, b, i + 1);
    }
  }

  /**
    A rule's range: comment-like lines with no blank among them, then the selector up to its first
    opening brace, then exactly to the line where the braces opened from there first balance.
   */
  lemma RuleIsBalanced(lines: seq<string>, i: nat, lexicon: Lexicon)
    requires i < |lines| && RuleAt(lines, i, lexicon).Rule?
    ensures var r, s := RuleAt(lines, i, lexicon).range, SelectorStart(lines, i, true);
            var b := NextOpen(lines, s);
            && r.start <= s <= b <= r.end < |lines| && s <= i
            && (forall k :: r.start <= k < s ==> CommentLike(lines[k], lexicon) && !Blank(lines[k], lexicon))
            && (forall k :: s <= k < b ==> !Opens(lines[k])) && Opens(lines[b])
            && NetLines(lines, b, r.end + 1) == 0 && (forall k :: b < k <= r.end ==> NetLines(lines, b, k) != 0)
  {
    var s := SelectorStart(lines, i, true);
    var b := NextOpen(lines, s);
    RuleEndBalances(lines, b, b);
    var c := CommentScan(lines, s, lexicon);
    if !HasBlank(lines, c, s, lexicon) {
      forall k | c <= k < s ensures CommentLike(lines[k], lexicon) && !Blank(lines[k], lexicon) {
      }
    }
  }

  /** Some line at or below the selector opens a brace. */
  ghost predicate HasBlock(lines: seq<string>, i: nat)
    requires i < |lines|
  {
    exists k :: SelectorStart(lines, i, true) <= k < |lines| && Opens(lines[k])
  }

  /** The lines of the selector, up to the first one that opens a brace. */
  function SelectorText(lines: seq<string>, i: nat): seq<string>
    requires i < |lines|
  {
    var s := SelectorStart(lines, i, true);
    var b := NextOpen(lines, s);
    if b < |lines| then lines[s..b+1] else lines[s..]
  }

  /** Counting whole lines from line `b`, the braces cancel out somewhere. */
  ghost predicate CancelOut(lines: seq<string>, b: nat) {
    exists k :: b < k <= |lines| && NetLines(lines, b, k) == 0
  }

  /** They do from the line that opens the block. */
  ghost predicate Balances(lines: seq<string>, i: nat)
    requires i < |lines|
  {
    CancelOut(lines, NextOpen(lines, SelectorStart(lines, i, true)))
  }

  lemma RuleEndIff(lines: seq<string>, b: nat)
    requires b < |lines|
    ensures RuleEnd(lines, b, 0) < |lines| <==> CancelOut(lines, b)
  {
    RuleEndBalances(lines, b, b);
    var e := RuleEnd(lines, b, 0);
    if e < |lines| {
      assert NetLines(lines, b, e + 1) == 0;
    }
  }

  /**
    Each of the three answers, exactly: none where no brace opens or an ungrouped block never balances,
    a group where the selector's text is one, and otherwise a rule.
   */
  lemma AnswerIff(lines: seq<string>, i: nat, lexicon: Lexicon)
    requires i < |lines|
    ensures RuleAt(lines, i, lexicon).NoRule? <==>
              !HasBlock(lines, i) || (!lexicon.grouped(SelectorText(lines, i)) && !Balances(lines, i))
    ensures RuleAt(lines, i, lexicon).Grouped? <==> HasBlock(lines, i) && lexicon.grouped(SelectorText(lines, i))
    ensures RuleAt(lines, i, lexicon).Rule? <==>
              HasBlock(lines, i) && !lexicon.grouped(SelectorText(lines, i)) && Balances(lines, i)
  {
    hide RuleEnd, SelectorStart, AttachedStart, CancelOut;
    var s := SelectorStart(lines, i, true);
    var b := NextOpen(lines, s);
    assert HasBlock(lines, i) <==> b < |lines|;
    if b < |lines| {
      RuleEndIff(lines, b);
    }
  }

  lemma RuleIsARange(lines: seq<string>, i: nat, lexicon: Lexicon)
    requires i < |lines| && RuleAt(lines, i, lexicon).Rule?
    ensures var r := RuleAt(lines, i, lexicon).range; r.start <= r.end < |lines|
  {
  }

  // ---- finding it line by line ----

  method FindSelectorStart(lines: seq<string>, i: nat) returns (s: nat)
    requires i < |lines|
    ensures s == SelectorStart(lines, i, true)
  {
    s := i;
    var k := i + 1;
    while k > 0
      invariant 0 <= k <= i + 1
      invariant k == i + 1 ==> s == i
      invariant k <= i ==> s == k
      invariant k > 0 ==> SelectorStart(lines, k - 1, k - 1 == i) == SelectorStart(lines, i, true)
      invariant k == 0 ==> SelectorStart(lines, i, true) == 0
    {
      k := k - 1;
      if Opens(lines[k]) {
        return k;
      }
      if Closes(lines[k]) && k != i {
        return k + 1;
      }
      s := k;
    }
  }

  method CountBraces(line: string, depth: int) returns (braces: int)
    ensures braces == depth + Net(line)
  {
    braces := depth;
    for k := 0 to |line|
      invariant braces == depth + Net(line[..k])
    {
      if line[k] == '{' { braces := braces + 1; }
      if line[k] == '}' { braces := braces - 1; }
      assert line[..k+1][..k] == line[..k];
    }
    assert line[..|line|] == line;
  }

  method FindRuleEnd(lines: seq<string>, b: nat) returns (e: nat)
    requires b <= |lines|
    ensures e == RuleEnd(lines, b, 0)
  {
    var depth := 0;
    e := b;
    while e < |lines|
      invariant b <= e <= |lines|
      invariant RuleEnd(lines, e, depth) == RuleEnd(lines, b, 0)
    {
      depth := CountBraces(lines[e], depth);
      if depth == 0 {
        return;
      }
      e := e + 1;
    }
  }

  method FindAttachedStart(lines: seq<string>, s: nat, lexicon: Lexicon) returns (c: nat)
    requires s <= |lines|
    ensures c == AttachedStart(lines, s, lexicon)
  {
    c := s;
    while c > 0 && (CommentLike(lines[c-1], lexicon) || Blank(lines[c-1], lexicon))
      invariant c <= s && CommentScan(lines, c, lexicon) == CommentScan(lines, s, lexicon)
    {
      c := c - 1;
    }
    var i := c;
    while i < s
      invariant c <= i <= s && c == CommentScan(lines, s, lexicon)
      invariant !HasBlank(lines, c, i, lexicon)
    {
      if Blank(lines[i], lexicon) {
        assert HasBlank(lines, c, s, lexicon);
        return s;
      }
      i := i + 1;
    }
  }

  /** `lineNum` counts from 1. */
  method FindRuleForClass(lines: seq<string>, lineNum: nat, lexicon: Lexicon) returns (found: Found)
    requires 1 <= lineNum <= |lines|
    ensures found == RuleAt(lines, lineNum - 1, lexicon)
  {
    var s := FindSelectorStart(lines, lineNum - 1);
    var b := s;
    while b < |lines| && !Opens(lines[b])
      invariant s <= b <= |lines| && NextOpen(lines, b) == NextOpen(lines, s)
    {
      b := b + 1;
    }
    if b == |lines| {
      return NoRule;
    }
    if lexicon.grouped(lines[s..b+1]) {
      return Grouped(Range(s, b));
    }
    var e := FindRuleEnd(lines, b);
    if e == |lines| {
      return NoRule;
    }
    var c := FindAttachedStart(lines, s, lexicon);
    found := Rule(Range(c, e));
  }

  // ---- which rules are kept for removal ----

  predicate EndpointInside(rule: Range, r: Range) {
    r.start <= rule.start <= r.end || r.start <= rule.end <= r.end
  }

  predicate Overlap(a: Range, b: Range) {
    a.start <= b.end && b.start <= a.end
  }

  predicate Overlaps(rule: Range, kept: seq<Range>) {
    exists r :: r in kept && EndpointInside(rule, r)
  }

  /** Class lines count from 1. */
  predicate InFile(classLines: seq<nat>, n: nat) {
    forall i :: 0 <= i < |classLines| ==> 1 <= classLines[i] <= n
  }

  ghost predicate InOrder(classLines: seq<nat>) {
    forall i, j :: 0 <= i < j < |classLines| ==> classLines[i] <= classLines[j]
  }

  function Keep(kept: seq<Range>, found: Found): seq<Range> {
    if found.Rule? && !Overlaps(found.range, kept) then kept + [found.range] else kept
  }

  /** The ranges kept for the classes at these lines, taken in this order. */
  function KeptRanges(lines: seq<string>, classLines: seq<nat>, lexicon: Lexicon): seq<Range>
    requires InFile(classLines, |lines|)
  {
    if classLines == [] then []
    else
      var n := |classLines| - 1;
      Keep(KeptRanges(lines, classLines[..n], lexicon), RuleAt(lines, classLines[n] - 1, lexicon))
  }

  /** Ranges within the file, one strictly after the other. */
  ghost predicate Stacked(ranges: seq<Range>, n: nat) {
    && (forall r :: r in ranges ==> r.start <= r.end < n)
    && (forall i, j :: 0 <= i < j < |ranges| ==> ranges[i].end < ranges[j].start)
  }

  ghost predicate StartBy(ranges: seq<Range>, start: nat, n: nat) {
    forall r :: r in ranges ==> r.start <= start && r.start <= r.end < n
  }

  lemma {:induction false} KeptStartBy(lines: seq<string>, classLines: seq<nat>, last: nat, lexicon: Lexicon)
    requires InFile(classLines + [last], |lines|) && InOrder(classLines + [last])
    requires InFile(classLines, |lines|) && 1 <= last <= |lines| && RuleAt(lines, last - 1, lexicon).Rule?
    ensures StartBy(KeptRanges(lines, classLines, lexicon), RuleAt(lines, last - 1, lexicon).range.start, |lines|)
    decreases |classLines|
  {
    hide RuleAt, Overlaps;
    if classLines != [] {
      var n := |classLines| - 1;
      SubOrder(classLines, last, |lines|);
      KeptStartBy(lines, classLines[..n], last, lexicon);
      if RuleAt(lines, classLines[n] - 1, lexicon).Rule? {
        RuleStartsMonotone(lines, classLines[n] - 1, last - 1, lexicon);
        RuleIsARange(lines, classLines[n] - 1, lexicon);
      }
    }
  }

  lemma SubOrder(classLines: seq<nat>, last: nat, n: nat)
    requires classLines != [] && InFile(classLines + [last], n) && InOrder(classLines + [last])
    ensures var before, l := classLines[..|classLines|-1], classLines[|classLines|-1];
            && 1 <= l <= last <= n && InFile(before, n) && InFile(before + [l], n) && InFile(before + [last], n)
            && InOrder(before + [l]) && InOrder(before + [last]) && classLines == before + [l]
  {
    var all := classLines + [last];
    var k := |classLines| - 1;
    assert all[k] == classLines[k] && all[k+1] == last;
    assert forall i :: 0 <= i < k ==> all[i] == classLines[i];
  }

  /** The endpoint test is exact for two ranges exactly when the new one does not strictly enclose the kept one. */
  lemma EndpointTestIff(rule: Range, kept: Range)
    requires rule.start <= rule.end && kept.start <= kept.end
    ensures (EndpointInside(rule, kept) <==> Overlap(rule, kept)) <==> !(rule.start < kept.start && kept.end < rule.end)
  {
  }

  lemma KeepKeepsStacked(kept: seq<Range>, rule: Range, n: nat)
    requires Stacked(kept, n) && StartBy(kept, rule.start, n) && rule.start <= rule.end < n
    ensures Stacked(Keep(kept, Rule(rule)), n)
  {
    if !Overlaps(rule, kept) {
      forall r | r in kept ensures r.end < rule.start {
        EndpointTestIff(rule, r);
      }
    }
  }

  /** With classes in line order the endpoint test is exact, so what is kept never overlaps. */
  lemma {:induction false} KeptRangesAreStacked(lines: seq<string>, classLines: seq<nat>, lexicon: Lexicon)
    requires InFile(classLines, |lines|) && InOrder(classLines)
    ensures Stacked(KeptRanges(lines, classLines, lexicon), |lines|)
    decreases |classLines|
  {
    hide RuleAt, Overlaps, Stacked, StartBy;
    if classLines == [] {
      NothingStacked(|lines|);
    } else {
      var n := |classLines| - 1;
      assert classLines == classLines[..n] + [classLines[n]];
      KeptRangesAreStacked(lines, classLines[..n], lexicon);
      var found := RuleAt(lines, classLines[n] - 1, lexicon);
      if found.Rule? {
        KeptStartBy(lines, classLines[..n], classLines[n], lexicon);
        RuleIsARange(lines, classLines[n] - 1, lexicon);
        KeepKeepsStacked(KeptRanges(lines, classLines[..n], lexicon), found.range, |lines|);
      }
    }
  }

  lemma NothingStacked(n: nat)
    ensures Stacked([], n)
  {
  }

  ghost predicate Touched(ranges: seq<Range>, rule: Range) {
    exists r :: r in ranges && Overlap(rule, r)
  }

  lemma KeepTouches(kept: seq<Range>, rule: Range, n: nat)
    requires StartBy(kept, rule.start, n) && rule.start <= rule.end
    ensures Touched(Keep(kept, Rule(rule)), rule)
  {
    if Overlaps(rule, kept) {
      var r :| r in kept && EndpointInside(rule, r);
      EndpointTestIff(rule, r);
    } else {
      assert rule in Keep(kept, Rule(rule)) && Overlap(rule, rule);
    }
  }

  lemma TouchedStays(kept: seq<Range>, found: Found, rule: Range)
    requires Touched(kept, rule)
    ensures Touched(Keep(kept, found), rule)
  {
    var r :| r in kept && Overlap(rule, r);
    assert r in Keep(kept, found);
  }

  /** A class line whose rule this range is, and whose selector is not a group. */
  ghost predicate OfUngrouped(lines: seq<string>, classLines: seq<nat>, r: Range, lexicon: Lexicon)
    requires InFile(classLines, |lines|)
  {
    exists k :: 0 <= k < |classLines| && RuleAt(lines, classLines[k] - 1, lexicon) == Rule(r)
                && !lexicon.grouped(SelectorText(lines, classLines[k] - 1))
  }

  /** Only ranges of ungrouped selectors are kept for removal. */
  lemma {:induction false} KeptAreUngrouped(lines: seq<string>, classLines: seq<nat>, lexicon: Lexicon)
    requires InFile(classLines, |lines|)
    ensures forall r :: r in KeptRanges(lines, classLines, lexicon) ==> OfUngrouped(lines, classLines, r, lexicon)
    decreases |classLines|
  {
    hide RuleAt, SelectorText, Overlaps;
    if classLines != [] {
      var n := |classLines| - 1;
      KeptAreUngrouped(lines, classLines[..n], lexicon);
      AnswerIff(lines, classLines[n] - 1, lexicon);
      forall r | r in KeptRanges(lines, classLines, lexicon) ensures OfUngrouped(lines, classLines, r, lexicon) {
        if r in KeptRanges(lines, classLines[..n], lexicon) {
          var k :| 0 <= k < n && RuleAt(lines, classLines[..n][k] - 1, lexicon) == Rule(r)
                   && !lexicon.grouped(SelectorText(lines, classLines[..n][k] - 1));
          assert classLines[k] == classLines[..n][k];
        } else {
          assert RuleAt(lines, classLines[n] - 1, lexicon) == Rule(r);
        }
      }
    }
  }

  /** No rule found is forgotten: it was kept, or it really overlaps one that was. */
  lemma {:induction false} EveryRuleIsTouched(lines: seq<string>, classLines: seq<nat>, lexicon: Lexicon, i: nat)
    requires InFile(classLines, |lines|) && InOrder(classLines) && i < |classLines|
    requires RuleAt(lines, classLines[i] - 1, lexicon).Rule?
    ensures Touched(KeptRanges(lines, classLines, lexicon), RuleAt(lines, classLines[i] - 1, lexicon).range)
    decreases |classLines|
  {
    hide RuleAt, Overlaps, Touched, StartBy;
    var n := |classLines| - 1;
    assert classLines == classLines[..n] + [classLines[n]];
    if i == n {
      KeptStartBy(lines, classLines[..n], classLines[n], lexicon);
      RuleIsARange(lines, classLines[n] - 1, lexicon);
      KeepTouches(KeptRanges(lines, classLines[..n], lexicon), RuleAt(lines, classLines[n] - 1, lexicon).range, |lines|);
    } else {
      EveryRuleIsTouched(lines, classLines[..n], lexicon, i);
      TouchedStays(KeptRanges(lines, classLines[..n], lexicon), RuleAt(lines, classLines[n] - 1, lexicon),
                   RuleAt(lines, classLines[i] - 1, lexicon).range);
    }
  }

  // ---- deleting ----

  ghost predicate Covered(ranges: seq<Range>, k: nat) {
    exists r :: r in ranges && r.start <= k <= r.end
  }

  /** The lines outside every range, where the first line given is line `at` of the file. */
  ghost function Outside(lines: seq<string>, ranges: seq<Range>, at: nat): seq<string> {
    if lines == [] then []
    else (if Covered(ranges, at) then [] else [lines[0]]) + Outside(lines[1..], ranges, at + 1)
  }

  function Cut(lines: seq<string>, r: Range): seq<string> {
    if r.start <= r.end < |lines| then lines[..r.start] + lines[r.end + 1..] else lines
  }

  function CutAll(lines: seq<string>, ranges: seq<Range>): seq<string>
    decreases |ranges|
  {
    if ranges == [] then lines else CutAll(Cut(lines, ranges[0]), ranges[1..])
  }

  lemma {:induction false} OutsideAppend(a: seq<string>, b: seq<string>, ranges: seq<Range>, at: nat)
    ensures Outside(a + b, ranges, at) == Outside(a, ranges, at) + Outside(b, ranges, at + |a|)
    decreases |a|
  {
    if a == [] {
      assert a + b == b;
    } else {
      assert (a + b)[1..] == a[1..] + b;
      OutsideAppend(a[1..], b, ranges, at + 1);
    }
  }

  lemma {:induction false} OutsideAgrees(lines: seq<string>, ranges: seq<Range>, others: seq<Range>, at: nat)
    requires forall k :: at <= k < at + |lines| ==> (Covered(ranges, k) <==> Covered(others, k))
    ensures Outside(lines, ranges, at) == Outside(lines, others, at)
    decreases |lines|
  {
    if lines != [] {
      OutsideAgrees(lines[1..], ranges, others, at + 1);
    }
  }

  lemma {:induction false} OutsideNothing(lines: seq<string>, ranges: seq<Range>, at: nat)
    requires forall k :: at <= k < at + |lines| ==> !Covered(ranges, k)
    ensures Outside(lines, ranges, at) == lines
    decreases |lines|
  {
    if lines != [] {
      OutsideNothing(lines[1..], ranges, at + 1);
    }
  }

  lemma {:induction false} OutsideEverything(lines: seq<string>, ranges: seq<Range>, at: nat)
    requires forall k :: at <= k < at + |lines| ==> Covered(ranges, k)
    ensures Outside(lines, ranges, at) == []
    decreases |lines|
  {
    if lines != [] {
      OutsideEverything(lines[1..], ranges, at + 1);
    }
  }

  /** From the bottom up: every range ends before the one cut just before it. */
  ghost predicate Falling(ranges: seq<Range>, n: nat) {
    && (forall r :: r in ranges ==> r.start <= r.end < n)
    && (forall i, j :: 0 <= i < j < |ranges| ==> ranges[j].end < ranges[i].start)
  }

  lemma TopCoverage(ranges: seq<Range>, n: nat)
    requires ranges != [] && Falling(ranges, n)
    ensures forall k: nat :: k < ranges[0].start ==> (Covered(ranges, k) <==> Covered(ranges[1..], k))
    ensures forall k: nat :: ranges[0].start <= k <= ranges[0].end ==> Covered(ranges, k)
    ensures forall k: nat :: k > ranges[0].end ==> !Covered(ranges, k)
    ensures forall k: nat :: k >= ranges[0].start ==> !Covered(ranges[1..], k)
    ensures forall q :: q in ranges[1..] ==> q in ranges && q.end < ranges[0].start
  {
    var r, rest := ranges[0], ranges[1..];
    assert r in ranges;
    forall q | q in rest ensures q in ranges && q.end < r.start {
      var j :| 0 <= j < |rest| && rest[j] == q;
      assert ranges[j+1] == q;
    }
    forall q | q in ranges ensures q == r || q in rest {
      var j :| 0 <= j < |ranges| && ranges[j] == q;
      assert j > 0 ==> rest[j-1] == q;
    }
  }

  lemma CutParts(lines: seq<string>, r: Range) returns (low: seq<string>, middle: seq<string>, high: seq<string>)
    requires r.start <= r.end < |lines|
    ensures lines == low + middle + high && Cut(lines, r) == low + high
    ensures |low| == r.start && |middle| == r.end + 1 - r.start
  {
    low, middle, high := lines[..r.start], lines[r.start..r.end + 1], lines[r.end + 1..];
  }

  lemma CutTop(lines: seq<string>, ranges: seq<Range>)
    requires ranges != [] && Falling(ranges, |lines|)
    ensures Outside(Cut(lines, ranges[0]), ranges[1..], 0) == Outside(lines, ranges, 0)
  {
    hide Covered, Outside, Cut;
    assert ranges[0] in ranges;
    TopCoverage(ranges, |lines|);
    var low, middle, high := CutParts(lines, ranges[0]);
    OutsideMiddle(low, middle, high, ranges);
    OutsideTail(low, high, ranges[1..]);
    OutsideAgrees(low, ranges, ranges[1..], 0);
  }

  lemma OutsideMiddle(low: seq<string>, middle: seq<string>, high: seq<string>, ranges: seq<Range>)
    requires forall k :: |low| <= k < |low| + |middle| ==> Covered(ranges, k)
    requires forall k: nat :: k >= |low| + |middle| ==> !Covered(ranges, k)
    ensures Outside(low + middle + high, ranges, 0) == Outside(low, ranges, 0) + high
  {
    hide Covered, Outside;
    OutsideAppend(low, middle, ranges, 0);
    OutsideEverything(middle, ranges, |low|);
    assert Outside(low, ranges, 0) + [] == Outside(low, ranges, 0);
    OutsideTail(low + middle, high, ranges);
  }

  lemma OutsideTail(low: seq<string>, high: seq<string>, ranges: seq<Range>)
    requires forall k: nat :: k >= |low| ==> !Covered(ranges, k)
    ensures Outside(low + high, ranges, 0) == Outside(low, ranges, 0) + high
  {
    hide Covered, Outside;
    OutsideAppend(low, high, ranges, 0);
    OutsideNothing(high, ranges, |low|);
  }

  lemma RestFalls(lines: seq<string>, ranges: seq<Range>)
    requires ranges != [] && Falling(ranges, |lines|)
    ensures Falling(ranges[1..], |Cut(lines, ranges[0])|)
  {
    assert ranges[0] in ranges;
    TopCoverage(ranges, |lines|);
  }

  /** Splicing from the bottom up leaves exactly the lines outside all ranges. */
  lemma {:induction false} CutAllLeavesOutside(lines: seq<string>, ranges: seq<Range>)
    requires Falling(ranges, |lines|)
    ensures CutAll(lines, ranges) == Outside(lines, ranges, 0)
    decreases |ranges|
  {
    hide Outside, Cut;
    if ranges == [] {
      OutsideNothing(lines, ranges, 0);
    } else {
      CutTop(lines, ranges);
      RestFalls(lines, ranges);
      CutAllLeavesOutside(Cut(lines, ranges[0]), ranges[1..]);
    }
  }

  // ---- collapsing blank lines ----

  function Collapsed(lines: seq<string>, prevBlank: bool, lexicon: Lexicon): seq<string> {
    if lines == [] then []
    else if Blank(lines[0], lexicon) && prevBlank then Collapsed(lines[1..], true, lexicon)
    else [lines[0]] + Collapsed(lines[1..], Blank(lines[0], lexicon), lexicon)
  }

  function NonBlank(lines: seq<string>, lexicon: Lexicon): seq<string> {
    if lines == [] then []
    else (if Blank(lines[0], lexicon) then [] else [lines[0]]) + NonBlank(lines[1..], lexicon)
  }

  ghost predicate NoDoubleBlank(lines: seq<string>, lexicon: Lexicon) {
    forall k :: 0 <= k < |lines| - 1 ==> !(Blank(lines[k], lexicon) && Blank(lines[k+1], lexicon))
  }

  /** For every line that is not blank, and for the end, whether a blank stands before it. */
  function Breaks(lines: seq<string>, prevBlank: bool, lexicon: Lexicon): seq<bool> {
    if lines == [] then [prevBlank]
    else if Blank(lines[0], lexicon) then Breaks(lines[1..], true, lexicon)
    else [prevBlank] + Breaks(lines[1..], false, lexicon)
  }

  /**
    No two blank lines remain adjacent, every other line is kept in order with a blank before it just
    when there was one, and a second pass changes nothing.
   */
  lemma {:induction false} CollapsedIsClean(lines: seq<string>, prevBlank: bool, lexicon: Lexicon)
    ensures var c := Collapsed(lines, prevBlank, lexicon);
            && NoDoubleBlank(c, lexicon)
            && (prevBlank && c != [] ==> !Blank(c[0], lexicon))
            && NonBlank(c, lexicon) == NonBlank(lines, lexicon)
            && Breaks(c, prevBlank, lexicon) == Breaks(lines, prevBlank, lexicon)
            && Collapsed(c, prevBlank, lexicon) == c
  {
    if lines != [] {
      if Blank(lines[0], lexicon) && prevBlank {
        CollapsedIsClean(lines[1..], true, lexicon);
      } else {
        CollapsedIsClean(lines[1..], Blank(lines[0], lexicon), lexicon);
        var rest := Collapsed(lines[1..], Blank(lines[0], lexicon), lexicon);
        assert ([lines[0]] + rest)[1..] == rest;
      }
    }
  }

  // ---- the whole removal ----

  function StartsLast(): Range -> int {
    (r: Range) => 0 - r.start as int
  }

  /** The file after removal: the lines outside every kept range, with blank runs collapsed. */
  ghost function Removed(lines: seq<string>, classLines: seq<nat>, lexicon: Lexicon): seq<string>
    requires InFile(classLines, |lines|)
  {
    Collapsed(Outside(lines, KeptRanges(lines, classLines, lexicon), 0), false, lexicon)
  }

  lemma StartsDiffer(ranges: seq<Range>, n: nat)
    requires Stacked(ranges, n)
    ensures forall a, b :: a in ranges && b in ranges && a != b ==> !Overlap(a, b) && a.start != b.start
  {
    forall a, b | a in ranges && b in ranges && a != b ensures !Overlap(a, b) && a.start != b.start {
      var i :| 0 <= i < |ranges| && ranges[i] == a;
      var j :| 0 <= j < |ranges| && ranges[j] == b;
      assert i < j || j < i;
    }
  }

  lemma EachOnce(ranges: seq<Range>, n: nat, r: Range)
    requires Stacked(ranges, n) && r in ranges
    ensures multiset(ranges)[r] == 1
  {
    var i :| 0 <= i < |ranges| && ranges[i] == r;
    assert ranges == ranges[..i] + [r] + ranges[i+1..];
    assert r !in ranges[..i] && r !in ranges[i+1..];
  }

  /** Sorting disjoint ranges by falling start puts them in bottom-up order. */
  lemma SortedFalls(ranges: seq<Range>, n: nat)
    requires Stacked(ranges, n)
    ensures Falling(Sort(ranges, StartsLast()), n)
    ensures forall r :: r in Sort(ranges, StartsLast()) <==> r in ranges
  {
    var sorted := Sort(ranges, StartsLast());
    SortSorts(ranges, StartsLast());
    StartsDiffer(ranges, n);
    forall r ensures r in sorted <==> r in ranges {
      assert r in multiset(sorted) <==> r in multiset(ranges);
    }
    forall i, j | 0 <= i < j < |sorted| ensures sorted[j].end < sorted[i].start {
      assert StartsLast()(sorted[i]) <= StartsLast()(sorted[j]);
      EachOnce(ranges, n, sorted[i]);
      OnceOnly(sorted, i, j);
      assert sorted[i] in ranges && sorted[j] in ranges;
      assert !Overlap(sorted[i], sorted[j]);
    }
  }

  lemma OnceOnly(sorted: seq<Range>, i: nat, j: nat)
    requires i < j < |sorted| && multiset(sorted)[sorted[i]] == 1
    ensures sorted[i] != sorted[j]
  {
    assert sorted == sorted[..i] + [sorted[i]] + sorted[i+1..j] + [sorted[j]] + sorted[j+1..];
  }

  method CollapseBlanks(lines: seq<string>, lexicon: Lexicon) returns (cleaned: seq<string>)
    ensures cleaned == Collapsed(lines, false, lexicon)
  {
    cleaned := [];
    var prevBlank := false;
    var i := 0;
    while i < |lines|
      invariant 0 <= i <= |lines|
      invariant cleaned + Collapsed(lines[i..], prevBlank, lexicon) == Collapsed(lines, false, lexicon)
    {
      assert lines[i..][0] == lines[i] && lines[i..][1..] == lines[i+1..];
      var isBlank := Blank(lines[i], lexicon);
      if !(isBlank && prevBlank) {
        assert cleaned + ([lines[i]] + Collapsed(lines[i+1..], isBlank, lexicon))
            == (cleaned + [lines[i]]) + Collapsed(lines[i+1..], isBlank, lexicon);
        cleaned := cleaned + [lines[i]];
        prevBlank := isBlank;
      }
      i := i + 1;
    }
  }

  method KeepRanges(lines: seq<string>, classLines: seq<nat>, lexicon: Lexicon) returns (kept: seq<Range>)
    requires InFile(classLines, |lines|)
    ensures kept == KeptRanges(lines, classLines, lexicon)
  {
    hide RuleAt;
    kept := [];
    for i := 0 to |classLines|
      invariant kept == KeptRanges(lines, classLines[..i], lexicon)
    {
      assert classLines[..i+1][..i] == classLines[..i];
      var found := FindRuleForClass(lines, classLines[i], lexicon);
      if found.Rule? {
        var rule := found.range;
        var overlaps := exists r :: r in kept && EndpointInside(rule, r);
        if !overlaps {
          kept := kept + [rule];
        }
      }
    }
    assert classLines[..|classLines|] == classLines;
  }

  /** Nothing is written when no rule is removed. */
  method RemoveUnusedRules(lines: seq<string>, classLines: seq<nat>, lexicon: Lexicon)
    returns (written: bool, cleaned: seq<string>)
    requires InFile(classLines, |lines|)
    ensures written <==> KeptRanges(lines, classLines, lexicon) != []
    ensures written && InOrder(classLines) ==> cleaned == Removed(lines, classLines, lexicon)
    ensures forall r :: r in KeptRanges(lines, classLines, lexicon) ==> OfUngrouped(lines, classLines, r, lexicon)
  {
    hide KeptRanges, Outside, Collapsed, Cut, OfUngrouped;
    KeptAreUngrouped(lines, classLines, lexicon);
    var kept := KeepRanges(lines, classLines, lexicon);
    if kept == [] {
      return false, [];
    }
    var order := Sort(kept, StartsLast());
    var left := lines;
    var i := 0;
    while i < |order|
      invariant 0 <= i <= |order|
      invariant CutAll(left, order[i..]) == CutAll(lines, order)
    {
      assert order[i..][1..] == order[i+1..];
      left := Cut(left, order[i]);
      i := i + 1;
    }
    if InOrder(classLines) {
      KeptRangesAreStacked(lines, classLines, lexicon);
      SortedFalls(kept, |lines|);
      CutAllLeavesOutside(lines, order);
      SameRangesSameLines(lines, order, kept);
    }
    cleaned := CollapseBlanks(left, lexicon);
    written := true;
  }

  lemma SameRangesSameLines(lines: seq<string>, order: seq<Range>, kept: seq<Range>)
    requires forall r :: r in order <==> r in kept
    ensures Outside(lines, order, 0) == Outside(lines, kept, 0)
  {
    OutsideAgrees(lines, order, kept, 0);
  }

  // ---- what goes wrong elsewhere ----

  lemma NetSnoc(line: string, c: char)
    ensures Net(line + [c]) == Net(line) + (if c == '{' then 1 else if c == '}' then -1 else 0)
  {
    assert (line + [c])[..|line|] == line;
  }

  lemma NetOfNothing()
    ensures Net("") == 0
  {
  }

  lemma NetOfNested()
    ensures Net("a{") == 1 && Net("}") == -1 && Net("a{}") == 0
  {
    hide Net;
    NetOfNothing();
    NetSnoc("", 'a');
    NetSnoc("a", '{');
    NetSnoc("", '}');
    NetSnoc("a{", '}');
    assert "a{" == "a" + ['{'] && "a{}" == "a{" + ['}'] && "" + ['}'] == "}" && "" + ['a'] == "a";
  }

  function Nested(): seq<string> {
    ["a{", "a{", "}", "}"]
  }

  lemma NestedRules(lexicon: Lexicon)
    requires forall text :: !lexicon.grouped(text)
    ensures RuleAt(Nested(), 0, lexicon) == Rule(Range(0, 3))
    ensures !CommentLike("a{", lexicon) && !Blank("a{", lexicon) ==> RuleAt(Nested(), 1, lexicon) == Rule(Range(1, 2))
  {
    NetOfNested();
    var lines := Nested();
    assert lines[0] == lines[1] == "a{" && lines[2] == lines[3] == "}";
    assert RuleEnd(lines, 3, 1) == 3 && RuleEnd(lines, 2, 2) == 3 && RuleEnd(lines, 1, 1) == 3 && RuleEnd(lines, 0, 0) == 3;
    assert RuleEnd(lines, 2, 1) == 2 && RuleEnd(lines, 1, 0) == 2;
    assert Opens(lines[0]) && Opens(lines[1]);
  }

  /** Out of line order the endpoint test misses a rule around one already kept. */
  lemma OrderWitness(lexicon: Lexicon)
    requires (forall text :: !lexicon.grouped(text)) && !lexicon.space('a')
    ensures KeptRanges(Nested(), [2, 1], lexicon) == [Range(1, 2), Range(0, 3)] && Overlap(Range(1, 2), Range(0, 3))
  {
    hide RuleAt;
    NestedRules(lexicon);
    assert TrimStart("a{", lexicon.space) == "a{";
    assert [2, 1][..1] == [2] && [2][..0] == [];
    assert KeptRanges(Nested(), [2], lexicon) == [Range(1, 2)];
  }

  /** A selector whose brace is on the next line, below a one-line rule: the one-line rule is found instead. */
  lemma EarlierRuleWitness(lexicon: Lexicon)
    requires forall text :: !lexicon.grouped(text)
    ensures RuleAt(["a{}", "b", "{", "}"], 1, lexicon) == Rule(Range(0, 0))
  {
    NetOfNested();
    var lines := ["a{}", "b", "{", "}"];
    assert lines[0] == "a{}" && lines[1] == "b" && lines[0][1] == '{';
    assert !Opens(lines[1]) && Opens(lines[0]);
    assert SelectorStart(lines, 0, false) == 0;
    assert RuleEnd(lines, 0, 0) == 0;
  }

  /** A one-line rule for every element, directly above, is taken for a comment and deleted as well. */
  lemma UniversalRuleWitness(lexicon: Lexicon)
    requires (forall text :: !lexicon.grouped(text)) && !lexicon.space('*')
    ensures RuleAt(["*{}", "a{}"], 1, lexicon) == Rule(Range(0, 1))
  {
    NetOfNested();
    var lines := ["*{}", "a{}"];
    assert lines[1] == "a{}" && Opens(lines[1]);
    assert TrimStart(lines[0], lexicon.space) == "*{}";
    assert CommentScan(lines, 1, lexicon) == 0;
    assert !HasBlank(lines, 0, 1, lexicon);
    assert RuleEnd(lines, 1, 0) == 1;
  }
}
