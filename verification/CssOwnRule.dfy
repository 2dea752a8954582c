/**
  Whether removing the range found for a class removes exactly the class's own rule, by character
  positions: the rule's text, from its selector to the brace that closes it, and nothing else.
 */
module CssOwnRule {
  import opened CssRules
  import opened Trimming

  datatype Position = Position(line: nat, column: nat)

  predicate IsBrace(c: char) {
    c == '{' || c == '}'
  }

  /** What ends the text before a selector. */
  predicate IsStop(c: char) {
    IsBrace(c) || c == ';'
  }

  predicate Within(lines: seq<string>, p: Position) {
    p.line < |lines| && p.column < |lines[p.line]|
  }

  predicate Before(p: Position, q: Position) {
    p.line < q.line || (p.line == q.line && p.column < q.column)
  }

  /**
    The sheet with its comments and strings blanked out.  Which characters those are is arbitrary,
    except that braces are kept: the code counts them wherever they stand.
   */
  ghost predicate Blanks(code: seq<string>, lines: seq<string>) {
    |code| == |lines| && forall k :: 0 <= k < |lines| ==> BlanksLine(code[k], lines[k])
  }

  predicate BlanksLine(code: string, line: string) {
    |code| == |line| && forall j :: 0 <= j < |line| ==> code[j] == line[j] || (code[j] == ' ' && !IsBrace(line[j]))
  }

  predicate StopAt(code: seq<string>, p: Position) {
    Within(code, p) && IsStop(code[p.line][p.column])
  }

  /** A character of code that is not white space. */
  predicate SolidAt(code: seq<string>, p: Position, lexicon: Lexicon) {
    Within(code, p) && Solid(code[p.line][p.column], lexicon)
  }

  predicate Solid(c: char, lexicon: Lexicon) {
    IsStop(c) || !lexicon.space(c)
  }

  ghost predicate NoStops(code: seq<string>, from: Position, to: Position) {
    forall p :: StopAt(code, p) && !Before(p, from) ==> !Before(p, to)
  }

  // ---- the class's own rule ----

  /** The rule of the class at `at` opens here: the first stop from the class on. */
  ghost predicate OpensRule(code: seq<string>, at: Position, open: Position) {
    && Within(code, open) && code[open.line][open.column] == '{'
    && !Before(open, at) && NoStops(code, at, open)
  }

  /** Braces counted from the start of line `b` to before column `column` of line `line`. */
  function Level(lines: seq<string>, b: nat, line: nat, column: nat): int
    requires line < |lines| && column <= |lines[line]|
  {
    NetLines(lines, b, line) + Net(lines[line][..column])
  }

  /** Running depth: the braces from `open` up to and including `p`. */
  function Depth(lines: seq<string>, open: Position, p: Position): int
    requires Within(lines, open) && Within(lines, p)
  {
    Level(lines, open.line, p.line, p.column + 1) - Level(lines, open.line, open.line, open.column)
  }

  /** The brace that closes the one at `open`: where the running depth first comes back to zero. */
  ghost predicate ClosesRule(lines: seq<string>, open: Position, close: Position) {
    && Within(lines, open) && Within(lines, close) && Before(open, close)
    && lines[close.line][close.column] == '}' && Depth(lines, open, close) == 0
    && forall p :: Within(lines, p) && !Before(p, open) && Before(p, close) ==> Depth(lines, open, p) > 0
  }

  /** Code of the rule: its selector, back to the last stop before it, and its block. */
  ghost predicate InRule(code: seq<string>, open: Position, close: Position, p: Position) {
    (Before(p, open) && NoStops(code, p, open)) || (!Before(p, open) && !Before(close, p))
  }

  /** The code on the lines of the range is exactly the code of the rule. */
  ghost predicate HoldsExactly(code: seq<string>, r: Range, open: Position, close: Position, lexicon: Lexicon) {
    forall p :: SolidAt(code, p, lexicon) ==> (r.start <= p.line <= r.end <==> InRule(code, open, close, p))
  }

  /** The range found for the line of the class deletes the class's own rule, no less and no other code. */
  ghost predicate DeletesOwnRule(lines: seq<string>, code: seq<string>, at: Position, lexicon: Lexicon)
    requires at.line < |lines| && RuleAt(lines, at.line, lexicon).Rule?
  {
    exists open, close ::
      && OpensRule(code, at, open) && ClosesRule(lines, open, close)
      && HoldsExactly(code, RuleAt(lines, at.line, lexicon).range, open, close, lexicon)
  }

  // ---- what the lines must look like ----

  /** The column of the first opening brace. */
  function FirstOpen(line: string): (j: nat)
    ensures j <= |line| && (j < |line| <==> Opens(line)) && (j < |line| ==> line[j] == '{')
    ensures forall y :: 0 <= y < j ==> line[y] != '{'
  {
    if line == [] || line[0] == '{' then 0 else 1 + FirstOpen(line[1..])
  }

  predicate StopFree(line: string, low: nat, high: nat) {
    forall y :: low <= y < high && y < |line| ==> !IsStop(line[y])
  }

  predicate StopFreeLines(code: seq<string>, low: nat, high: nat) {
    forall k :: low <= k < high && k < |code| ==> StopFree(code[k], 0, |code[k]|)
  }

  /** The first opening brace of line `b` is its first stop, and is not left of the class. */
  predicate OpensFirst(lines: seq<string>, code: seq<string>, b: nat, at: Position)
    requires b < |lines| == |code|
  {
    StopFree(code[b], 0, FirstOpen(lines[b])) && (b == at.line ==> at.column <= FirstOpen(lines[b]))
  }

  /** Nothing but white space follows the brace that closes the block opened first on line `b`. */
  ghost predicate ClosesLast(lines: seq<string>, code: seq<string>, b: nat, lexicon: Lexicon)
    requires b < |lines|
  {
    forall close, p :: ClosesRule(lines, Position(b, FirstOpen(lines[b])), close) && SolidAt(code, p, lexicon) && p.line == close.line
      ==> !Before(close, p)
  }

  /** One more than the column of the last character that is not white space. */
  function LastSolid(line: string, lexicon: Lexicon): (n: nat)
    ensures n <= |line| && (n > 0 ==> Solid(line[n-1], lexicon))
    ensures forall y :: n <= y < |line| ==> !Solid(line[y], lexicon)
  {
    if line == [] || Solid(line[|line|-1], lexicon) then |line| else LastSolid(line[..|line|-1], lexicon)
  }

  /** The last character of code above line `k` is a stop, or there is none. */
  predicate StopsAbove(code: seq<string>, k: nat, lexicon: Lexicon)
    requires k <= |code|
  {
    k == 0 || (var n := LastSolid(code[k-1], lexicon);
               if n == 0 then StopsAbove(code, k - 1, lexicon) else IsStop(code[k-1][n-1]))
  }

  /**
    The braces of the class's rule stand alone: the class's line opens a brace or stands in none, no
    stop comes on the lines of the range before the opening brace, and no code follows the closing one
    on its line.
   */
  ghost predicate BracesStandAlone(lines: seq<string>, code: seq<string>, at: Position, lexicon: Lexicon)
    requires |lines| == |code| && at.line < |lines| && RuleAt(lines, at.line, lexicon).Rule?
  {
    var s := SelectorStart(lines, at.line, true);
    var b := NextOpen(lines, s);
    && (Opens(lines[at.line]) || !InsideBraces(lines, at.line))
    && StopFreeLines(code, AttachedStart(lines, s, lexicon), b) && OpensFirst(lines, code, b, at)
    && ClosesLast(lines, code, b, lexicon)
  }

  /** And the code above the range ends in a stop, so that no line of the selector is there. */
  ghost predicate StandsAlone(lines: seq<string>, code: seq<string>, at: Position, lexicon: Lexicon)
    requires |lines| == |code| && at.line < |lines| && RuleAt(lines, at.line, lexicon).Rule?
  {
    BracesStandAlone(lines, code, at, lexicon) && StopsAbove(code, AttachedStart(lines, SelectorStart(lines, at.line, true), lexicon), lexicon)
  }

  /** `at` is where the rule starts: no code stands between the stop before it and `at`. */
  ghost predicate StartsRule(code: seq<string>, at: Position, lexicon: Lexicon) {
    forall p :: SolidAt(code, p, lexicon) && Before(p, at) ==> !NoStops(code, p, at)
  }

  // ---- from the rule to its lines ----

  lemma SameBrace(code: seq<string>, lines: seq<string>, p: Position)
    requires Blanks(code, lines) && Within(lines, p)
    ensures Within(code, p)
    ensures IsBrace(lines[p.line][p.column]) || IsBrace(code[p.line][p.column]) ==> code[p.line][p.column] == lines[p.line][p.column]
  {
    assert BlanksLine(code[p.line], lines[p.line]);
  }

  lemma OpensHasPlace(lines: seq<string>, k: nat)
    requires k < |lines| && Opens(lines[k])
    ensures var p := Position(k, FirstOpen(lines[k])); Within(lines, p) && lines[p.line][p.column] == '{'
  {
  }

  /** No stop of the range comes before the rule opens. */
  lemma NoStopBefore(code: seq<string>, r: Range, open: Position, close: Position, lexicon: Lexicon)
    requires HoldsExactly(code, r, open, close, lexicon)
    ensures forall p :: StopAt(code, p) && r.start <= p.line <= r.end ==> !Before(p, open)
  {
    forall p | StopAt(code, p) && r.start <= p.line <= r.end ensures !Before(p, open) {
      assert SolidAt(code, p, lexicon);
    }
  }

  /** So the rule opens at the first opening brace of the line that the scan finds. */
  lemma OpensWhereFound(lines: seq<string>, code: seq<string>, at: Position, open: Position, close: Position, lexicon: Lexicon)
    requires Blanks(code, lines) && at.line < |lines| && RuleAt(lines, at.line, lexicon).Rule?
    requires OpensRule(code, at, open) && ClosesRule(lines, open, close)
    requires HoldsExactly(code, RuleAt(lines, at.line, lexicon).range, open, close, lexicon)
    ensures var b := NextOpen(lines, SelectorStart(lines, at.line, true));
            && open == Position(b, FirstOpen(lines[b])) && b >= at.line
            && StopFreeLines(code, RuleAt(lines, at.line, lexicon).range.start, b) && OpensFirst(lines, code, b, at)
  {
    var r, s := RuleAt(lines, at.line, lexicon).range, SelectorStart(lines, at.line, true);
    var b := NextOpen(lines, s);
    assert r.start <= s <= b <= r.end && s <= at.line;
    NoStopBefore(code, r, open, close, lexicon);
    SameBrace(code, lines, open);
    var first := Position(b, FirstOpen(lines[b]));
    OpensHasPlace(lines, b);
    SameBrace(code, lines, first);
    assert StopAt(code, first);
    assert Opens(lines[open.line]);
    forall k | r.start <= k < b && k < |code| ensures StopFree(code[k], 0, |code[k]|) {
      forall y | 0 <= y < |code[k]| ensures !IsStop(code[k][y]) {
        assert StopAt(code, Position(k, y)) <==> IsStop(code[k][y]);
      }
    }
    forall y | 0 <= y < first.column ensures !IsStop(code[b][y]) {
      assert StopAt(code, Position(b, y)) <==> IsStop(code[b][y]);
    }
  }

  lemma OneClose(lines: seq<string>, open: Position, close: Position, other: Position)
    requires ClosesRule(lines, open, close) && ClosesRule(lines, open, other)
    ensures close == other
  {
    assert !Before(close, other) && !Before(other, close);
  }

  lemma {:induction false} LastAbove(code: seq<string>, k: nat, lexicon: Lexicon) returns (p: Position)
    requires k <= |code| && exists q :: SolidAt(code, q, lexicon) && q.line < k
    ensures SolidAt(code, p, lexicon) && p.line < k
    ensures forall q :: SolidAt(code, q, lexicon) && q.line < k ==> !Before(p, q)
    ensures StopsAbove(code, k, lexicon) <==> StopAt(code, p)
  {
    var n := LastSolid(code[k-1], lexicon);
    if n == 0 {
      p := LastAbove(code, k - 1, lexicon);
    } else {
      p := Position(k - 1, n - 1);
    }
  }

  lemma {:induction false} NothingAbove(code: seq<string>, k: nat, lexicon: Lexicon)
    requires k <= |code| && forall q :: SolidAt(code, q, lexicon) ==> q.line >= k
    ensures StopsAbove(code, k, lexicon)
  {
    if k > 0 {
      var n := LastSolid(code[k-1], lexicon);
      if n > 0 {
        assert SolidAt(code, Position(k - 1, n - 1), lexicon);
      }
      NothingAbove(code, k - 1, lexicon);
    }
  }

  lemma PreludeInRange(code: seq<string>, r: Range, open: Position, close: Position, p: Position, lexicon: Lexicon)
    requires HoldsExactly(code, r, open, close, lexicon) && SolidAt(code, p, lexicon)
    requires Before(p, open) && NoStops(code, p, open)
    ensures r.start <= p.line
  {
  }

  lemma StopIsSolid(code: seq<string>, p: Position, lexicon: Lexicon)
    requires StopAt(code, p)
    ensures SolidAt(code, p, lexicon)
  {
  }

  /** Code above the range that does not end in a stop belongs to the rule. */
  lemma EndsInStop(code: seq<string>, r: Range, open: Position, close: Position, lexicon: Lexicon)
    requires HoldsExactly(code, r, open, close, lexicon) && r.start <= |code|
    requires r.start <= open.line <= r.end
    ensures StopsAbove(code, r.start, lexicon)
  {
    hide StopsAbove, SolidAt, StopAt, HoldsExactly, InRule;
    if q :| SolidAt(code, q, lexicon) && q.line < r.start {
      var p := LastAbove(code, r.start, lexicon);
      NoStopBefore(code, r, open, close, lexicon);
      if !StopAt(code, p) {
        forall q | StopAt(code, q) && !Before(q, p) ensures !Before(q, open) {
          StopIsSolid(code, q, lexicon);
          assert p == q || Before(p, q);
        }
        PreludeInRange(code, r, open, close, p, lexicon);
      }
    } else {
      NothingAbove(code, r.start, lexicon);
    }
  }

  lemma NothingAfterClose(lines: seq<string>, code: seq<string>, r: Range, open: Position, close: Position, lexicon: Lexicon)
    requires Blanks(code, lines) && ClosesRule(lines, open, close) && HoldsExactly(code, r, open, close, lexicon)
    requires open.line < |lines| && open.column == FirstOpen(lines[open.line])
    ensures ClosesLast(lines, code, open.line, lexicon)
  {
    SameBrace(code, lines, close);
    assert SolidAt(code, close, lexicon);
    forall other, p | ClosesRule(lines, open, other) && SolidAt(code, p, lexicon) && p.line == other.line ensures !Before(other, p) {
      OneClose(lines, open, close, other);
    }
  }

  // ---- from the lines to the rule ----

  lemma NetWithout(line: string)
    requires forall y :: 0 <= y < |line| ==> !IsBrace(line[y])
    ensures Net(line) == 0
  {
  }

  lemma LevelNext(lines: seq<string>, b: nat, line: nat, column: nat)
    requires line < |lines| && column < |lines[line]|
    ensures Level(lines, b, line, column + 1) == Level(lines, b, line, column)
              + (if lines[line][column] == '{' then 1 else if lines[line][column] == '}' then -1 else 0)
  {
    assert lines[line][..column+1][..column] == lines[line][..column];
  }

  lemma LevelAtEnd(lines: seq<string>, b: nat, line: nat)
    requires b <= line < |lines|
    ensures Level(lines, b, line, |lines[line]|) == NetLines(lines, b, line + 1)
  {
    assert lines[line][..|lines[line]|] == lines[line];
  }

  lemma LevelAtStart(lines: seq<string>, b: nat, line: nat)
    requires line < |lines|
    ensures Level(lines, b, line, 0) == NetLines(lines, b, line)
  {
    assert lines[line][..0] == "";
  }

  /** The running depth stays positive from `open` to before this place. */
  ghost predicate Deep(lines: seq<string>, open: Position, line: nat, column: nat)
    requires Within(lines, open)
  {
    && (forall p :: Within(lines, p) && !Before(p, open) && Before(p, Position(line, column)) ==> Depth(lines, open, p) > 0)
    && (forall k :: open.line < k <= line && k <= |lines| ==> NetLines(lines, open.line, k) > 0)
  }

  /** From a place where the block is still open, on to the brace that closes it. */
  lemma {:induction false} FindClose(lines: seq<string>, open: Position, line: nat, column: nat, e: nat) returns (close: Position)
    requires Within(lines, open) && Level(lines, open.line, open.line, open.column) == 0
    requires open.line <= line <= e < |lines| && column <= |lines[line]| && Before(open, Position(line, column))
    requires Deep(lines, open, line, column) && Level(lines, open.line, line, column) > 0
    requires NetLines(lines, open.line, e + 1) == 0
    ensures ClosesRule(lines, open, close) && close.line <= e
    ensures forall k :: open.line < k <= close.line ==> NetLines(lines, open.line, k) > 0
    decreases e - line, |lines[line]| - column
  {
    hide Level, NetLines, Net;
    if column == |lines[line]| {
      LevelAtEnd(lines, open.line, line);
      LevelAtStart(lines, open.line, line + 1);
      close := FindClose(lines, open, line + 1, 0, e);
    } else {
      LevelNext(lines, open.line, line, column);
      var here := Position(line, column);
      assert Depth(lines, open, here) == Level(lines, open.line, line, column + 1);
      if Depth(lines, open, here) == 0 {
        close := here;
      } else {
        close := FindClose(lines, open, line, column + 1, e);
      }
    }
  }

  /** Where its brace opens first on its line, a range found does close: there the counting stops. */
  lemma RuleCloses(lines: seq<string>, code: seq<string>, b: nat, at: Position, lexicon: Lexicon) returns (close: Position)
    requires Blanks(code, lines) && b < |lines| && Opens(lines[b]) && RuleEnd(lines, b, 0) < |lines|
    requires OpensFirst(lines, code, b, at) && ClosesLast(lines, code, b, lexicon)
    ensures ClosesRule(lines, Position(b, FirstOpen(lines[b])), close) && close.line == RuleEnd(lines, b, 0)
  {
    hide Depth, NetLines, Net;
    var open, e := Position(b, FirstOpen(lines[b])), RuleEnd(lines, b, 0);
    StartsAtZero(lines, code, b, at);
    LevelNext(lines, b, b, open.column);
    DeepAtOpen(lines, open);
    RuleEndFromZero(lines, b);
    close := FindClose(lines, open, b, open.column + 1, e);
    QuietAfterClose(lines, code, open, close, lexicon);
  }

  lemma StartsAtZero(lines: seq<string>, code: seq<string>, b: nat, at: Position)
    requires Blanks(code, lines) && b < |lines| && OpensFirst(lines, code, b, at)
    ensures Level(lines, b, b, FirstOpen(lines[b])) == 0
  {
    var before := lines[b][..FirstOpen(lines[b])];
    forall y | 0 <= y < |before| ensures !IsBrace(before[y]) {
      SameBrace(code, lines, Position(b, y));
    }
    NetWithout(before);
  }

  lemma DeepAtOpen(lines: seq<string>, open: Position)
    requires Within(lines, open) && Level(lines, open.line, open.line, open.column) == 0
    requires Level(lines, open.line, open.line, open.column + 1) > 0
    ensures Deep(lines, open, open.line, open.column + 1)
  {
  }

  lemma RuleEndFromZero(lines: seq<string>, b: nat)
    requires b < |lines|
    ensures var e := RuleEnd(lines, b, 0);
            && (forall k :: b < k <= e ==> NetLines(lines, b, k) != 0)
            && (e < |lines| ==> NetLines(lines, b, e + 1) == 0)
  {
    RuleEndBalances(lines, b, b);
  }

  lemma {:induction false} LevelStays(lines: seq<string>, b: nat, line: nat, column: nat)
    requires b <= line < |lines| && column <= |lines[line]|
    requires forall y :: column <= y < |lines[line]| ==> !IsBrace(lines[line][y])
    ensures NetLines(lines, b, line + 1) == Level(lines, b, line, column)
    decreases |lines[line]| - column
  {
    if column == |lines[line]| {
      LevelAtEnd(lines, b, line);
    } else {
      LevelNext(lines, b, line, column);
      LevelStays(lines, b, line, column + 1);
    }
  }

  lemma QuietAfterClose(lines: seq<string>, code: seq<string>, open: Position, close: Position, lexicon: Lexicon)
    requires Blanks(code, lines) && ClosesRule(lines, open, close) && Level(lines, open.line, open.line, open.column) == 0
    requires open.column == FirstOpen(lines[open.line]) && ClosesLast(lines, code, open.line, lexicon)
    ensures NetLines(lines, open.line, close.line + 1) == 0
  {
    forall y | close.column < y < |lines[close.line]| ensures !IsBrace(lines[close.line][y]) {
      var p := Position(close.line, y);
      SameBrace(code, lines, p);
      assert Before(close, p);
      assert !SolidAt(code, p, lexicon);
    }
    LevelStays(lines, open.line, close.line, close.column + 1);
  }

  lemma RuleOpens(lines: seq<string>, code: seq<string>, b: nat, start: nat, at: Position)
    requires Blanks(code, lines) && start <= at.line <= b < |lines| && Opens(lines[b])
    requires StopFreeLines(code, start, b) && OpensFirst(lines, code, b, at)
    ensures var open := Position(b, FirstOpen(lines[b]));
            OpensRule(code, at, open) && forall p :: StopAt(code, p) && p.line >= start ==> !Before(p, open)
  {
    OpensHasPlace(lines, b);
    SameBrace(code, lines, Position(b, FirstOpen(lines[b])));
  }

  /** A stop ends the code above the range, so none of the rule's selector is there. */
  lemma NothingLeftAbove(code: seq<string>, start: nat, open: Position, p: Position, lexicon: Lexicon)
    requires start <= |code| && start <= open.line && StopsAbove(code, start, lexicon)
    requires SolidAt(code, p, lexicon) && p.line < start
    ensures !NoStops(code, p, open)
  {
    var last := LastAbove(code, start, lexicon);
    assert StopAt(code, last) && !Before(last, p) && Before(last, open);
  }

  lemma RangeHoldsRule(code: seq<string>, r: Range, open: Position, close: Position, lexicon: Lexicon)
    requires r.start <= open.line <= close.line == r.end && r.start <= |code| && !Before(close, open)
    requires forall p :: StopAt(code, p) && p.line >= r.start ==> !Before(p, open)
    requires forall p :: SolidAt(code, p, lexicon) && p.line == close.line ==> !Before(close, p)
    requires StopsAbove(code, r.start, lexicon)
    ensures HoldsExactly(code, r, open, close, lexicon)
  {
    hide StopsAbove, SolidAt, StopAt;
    forall p | SolidAt(code, p, lexicon) ensures r.start <= p.line <= r.end <==> InRule(code, open, close, p) {
      if p.line < r.start {
        NothingLeftAbove(code, r.start, open, p, lexicon);
      }
    }
  }

  /**
    A range deletes exactly the code of the class's own rule, by character positions, exactly when the
    lines around the class let its rule stand alone.
   */
  lemma DeletesOwnRuleIff(lines: seq<string>, code: seq<string>, at: Position, lexicon: Lexicon)
    requires Blanks(code, lines) && at.line < |lines| && RuleAt(lines, at.line, lexicon).Rule?
    ensures DeletesOwnRule(lines, code, at, lexicon) <==> StandsAlone(lines, code, at, lexicon)
  {
    hide ClosesRule, HoldsExactly, OpensRule, StopFreeLines, OpensFirst, ClosesLast, StopsAbove, InsideBraces, RuleEnd;
    var r, s := RuleAt(lines, at.line, lexicon).range, SelectorStart(lines, at.line, true);
    var b := NextOpen(lines, s);
    SelectorReachesClassIff(lines, at.line);
    if DeletesOwnRule(lines, code, at, lexicon) {
      var open, close :| OpensRule(code, at, open) && ClosesRule(lines, open, close) && HoldsExactly(code, r, open, close, lexicon);
      OpensWhereFound(lines, code, at, open, close, lexicon);
      NothingAfterClose(lines, code, r, open, close, lexicon);
      EndsInStop(code, r, open, close, lexicon);
    }
    if StandsAlone(lines, code, at, lexicon) {
      var open := Position(b, FirstOpen(lines[b]));
      RuleOpens(lines, code, b, r.start, at);
      var close := RuleCloses(lines, code, b, at, lexicon);
      ClosesAfter(lines, code, open, close, lexicon);
      RangeHoldsRule(code, r, open, close, lexicon);
    }
  }

  lemma ClosesAfter(lines: seq<string>, code: seq<string>, open: Position, close: Position, lexicon: Lexicon)
    requires ClosesRule(lines, open, close) && open.column == FirstOpen(lines[open.line]) && ClosesLast(lines, code, open.line, lexicon)
    ensures !Before(close, open) && open.line <= close.line
    ensures forall p :: SolidAt(code, p, lexicon) && p.line == close.line ==> !Before(close, p)
  {
    forall p | SolidAt(code, p, lexicon) && p.line == close.line ensures !Before(close, p) {
    }
  }

  /** On the line where a rule starts the braces decide alone. */
  lemma RuleStartIff(lines: seq<string>, code: seq<string>, at: Position, lexicon: Lexicon)
    requires Blanks(code, lines) && at.line < |lines| && RuleAt(lines, at.line, lexicon).Rule?
    requires StartsRule(code, at, lexicon)
    ensures DeletesOwnRule(lines, code, at, lexicon) <==> BracesStandAlone(lines, code, at, lexicon)
  {
    hide DeletesOwnRule, StopsAbove, InsideBraces, RuleEnd, ClosesLast, StartsRule, OpensFirst, StopFreeLines, SolidAt;
    DeletesOwnRuleIff(lines, code, at, lexicon);
    if BracesStandAlone(lines, code, at, lexicon) {
      var s := SelectorStart(lines, at.line, true);
      var b, start := NextOpen(lines, s), AttachedStart(lines, s, lexicon);
      SelectorReachesClassIff(lines, at.line);
      RuleOpens(lines, code, b, start, at);
      StartLeavesNothing(code, start, at, Position(b, FirstOpen(lines[b])), lexicon);
    }
  }

  lemma StartLeavesNothing(code: seq<string>, start: nat, at: Position, open: Position, lexicon: Lexicon)
    requires start <= at.line && start <= |code| && StartsRule(code, at, lexicon) && !Before(open, at)
    requires forall p :: StopAt(code, p) && p.line >= start ==> !Before(p, open)
    ensures StopsAbove(code, start, lexicon)
  {
    hide StopsAbove;
    if q :| SolidAt(code, q, lexicon) && q.line < start {
      var p := LastAbove(code, start, lexicon);
      assert !NoStops(code, p, at);
      var stop :| StopAt(code, stop) && !Before(stop, p) && Before(stop, at);
      StopIsSolid(code, stop, lexicon);
      assert p == stop || Before(p, stop);
    } else {
      NothingAbove(code, start, lexicon);
    }
  }

  // ---- sheets on which more or less than the rule goes ----

  lemma Unblanked(lines: seq<string>)
    ensures Blanks(lines, lines)
  {
  }

  lemma NetOfClosingOpening()
    ensures Net("}a{") == 0
  {
    hide Net;
    NetOfNested();
    NetSnoc("}", 'a');
    NetSnoc("}a", '{');
    assert "}" + ['a'] == "}a" && "}a" + ['{'] == "}a{";
  }

  lemma ClosingOpeningFound(lines: seq<string>, lexicon: Lexicon)
    requires lines == ["x{", "}a{", "p", "}"] && !lexicon.space('x') && forall text :: !lexicon.grouped(text)
    ensures RuleAt(lines, 1, lexicon) == Rule(Range(1, 1))
  {
    hide Net;
    NetOfClosingOpening();
    assert lines[0] == "x{" && lines[0][0] == 'x' && lines[1] == "}a{" && lines[1][2] == '{';
    assert RuleEnd(lines, 1, 0) == 1;
    assert TrimStart(lines[0], lexicon.space) == "x{" && CommentScan(lines, 1, lexicon) == 1;
    assert SelectorStart(lines, 1, true) == 1 && NextOpen(lines, 1) == 1;
  }

  /** The class's brace follows one that closes another rule: its line goes, and the rest of its block stays. */
  lemma CloseBeforeOpenWitness(lexicon: Lexicon)
    requires (forall text :: !lexicon.grouped(text)) && !lexicon.space('x')
    ensures var lines := ["x{", "}a{", "p", "}"];
            RuleAt(lines, 1, lexicon) == Rule(Range(1, 1)) && !DeletesOwnRule(lines, lines, Position(1, 1), lexicon)
  {
    hide RuleAt, DeletesOwnRule;
    var lines := ["x{", "}a{", "p", "}"];
    ClosingOpeningFound(lines, lexicon);
    assert lines[1] == "}a{" && lines[1][2] == '{' && lines[1][0] == '}';
    Unblanked(lines);
    DeletesOwnRuleIff(lines, lines, Position(1, 1), lexicon);
    assert !StopFree(lines[1], 0, FirstOpen(lines[1]));
  }

  lemma NetOfSharedLine()
    ensures Net("a{}b{}") == 0
  {
    hide Net;
    NetOfNested();
    NetSnoc("a{}", 'b');
    NetSnoc("a{}b", '{');
    NetSnoc("a{}b{", '}');
    assert "a{}" + ['b'] == "a{}b" && "a{}b" + ['{'] == "a{}b{" && "a{}b{" + ['}'] == "a{}b{}";
  }

  lemma SharedLineFound(lines: seq<string>, lexicon: Lexicon)
    requires lines == ["a{}b{}"] && forall text :: !lexicon.grouped(text)
    ensures RuleAt(lines, 0, lexicon) == Rule(Range(0, 0))
  {
    hide Net;
    NetOfSharedLine();
    assert lines[0] == "a{}b{}" && lines[0][1] == '{';
    assert RuleEnd(lines, 0, 0) == 0;
  }

  /** Two rules on one line both go, whichever of them the class is in. */
  lemma SharedLineWitness(lexicon: Lexicon, column: nat)
    requires (forall text :: !lexicon.grouped(text)) && (column == 0 || column == 3)
    ensures var lines := ["a{}b{}"];
            RuleAt(lines, 0, lexicon) == Rule(Range(0, 0)) && !DeletesOwnRule(lines, lines, Position(0, column), lexicon)
  {
    hide Net, RuleAt, DeletesOwnRule, ClosesRule;
    var lines := ["a{}b{}"];
    SharedLineFound(lines, lexicon);
    assert Opens(lines[0]) by { assert lines[0][1] == '{'; }
    Unblanked(lines);
    DeletesOwnRuleIff(lines, lines, Position(0, column), lexicon);
    SharedLineCloses(lines);
    assert SolidAt(lines, Position(0, 4), lexicon) by { assert lines[0][4] == '{'; }
    assert !ClosesLast(lines, lines, 0, lexicon);
  }

  lemma SharedLineCloses(lines: seq<string>)
    requires lines == ["a{}b{}"]
    ensures FirstOpen(lines[0]) == 1 && ClosesRule(lines, Position(0, 1), Position(0, 2))
  {
    assert lines[0] == "a{}b{}";
    LevelNext(lines, 0, 0, 1);
    LevelNext(lines, 0, 0, 2);
  }

  /** A line that looks like a comment and closes the rule above goes too. */
  lemma CloseInCommentWitness(lexicon: Lexicon)
    requires (forall text :: !lexicon.grouped(text)) && !lexicon.space('*') && !lexicon.space('x')
    ensures var lines := ["x{", "*/}", "a{", "}"];
            RuleAt(lines, 2, lexicon) == Rule(Range(1, 3)) && !DeletesOwnRule(lines, lines, Position(2, 0), lexicon)
  {
    var lines := ["x{", "*/}", "a{", "}"];
    assert lines[0] == "x{" && lines[1] == "*/}" && lines[2] == "a{" && lines[3] == "}" && lines[2][1] == '{' && lines[1][2] == '}';
    NetOfNested();
    assert RuleEnd(lines, 3, 1) == 3 && RuleEnd(lines, 2, 0) == 3;
    assert CommentScan(lines, 1, lexicon) == 1 && CommentScan(lines, 2, lexicon) == 1 && !HasBlank(lines, 1, 2, lexicon);
    Unblanked(lines);
    DeletesOwnRuleIff(lines, lines, Position(2, 0), lexicon);
    assert !StopFree(lines[1], 0, 3);
  }

  /** From a later line of a selector the rule is found without the lines above, which join the next rule. */
  lemma SelectorLeftWitness(lexicon: Lexicon)
    requires (forall text :: !lexicon.grouped(text)) && !lexicon.space('p')
    ensures var lines := ["p", "a{", "}"];
            RuleAt(lines, 1, lexicon) == Rule(Range(1, 2)) && !DeletesOwnRule(lines, lines, Position(1, 0), lexicon)
  {
    var lines := ["p", "a{", "}"];
    assert lines[0] == "p" && lines[1] == "a{" && lines[2] == "}" && lines[1][1] == '{';
    NetOfNested();
    assert RuleEnd(lines, 2, 1) == 2 && RuleEnd(lines, 1, 0) == 2;
    Unblanked(lines);
    DeletesOwnRuleIff(lines, lines, Position(1, 0), lexicon);
    assert LastSolid(lines[0], lexicon) == 1;
    assert !StopsAbove(lines, 1, lexicon);
  }
}
