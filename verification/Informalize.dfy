/**
  Rewriting a formula the way people type it.  Every choice is drawn at random, so each claim holds
  whatever is drawn: the rewriting changes spelling and spacing, never the skeleton.
 */
module Informalize {
  import opened Wrappers
  import opened ScriptTables

  /** The character classes of the operators and of operand tokens; all are arbitrary here. */
  datatype Lexicon = Lexicon(letter: char -> bool, relation: char -> bool, binary: char -> bool)

  predicate IsMinus(c: char) {
    c == '-' || c == MINUS
  }

  predicate IsLetter(c: char, lexicon: Lexicon) {
    lexicon.letter(c) && !IsMinus(c)
  }

  predicate IsNewline(c: char) {
    c == '\n' || c == '\r' || c as int == 0x2028 || c as int == 0x2029
  }

  // ---- the skeleton ----

  function Skeleton(s: string): string {
    if s == [] then [] else Bare(s[0]) + Skeleton(s[1..])
  }

  lemma {:induction false} SkeletonAppend(a: string, b: string)
    ensures Skeleton(a + b) == Skeleton(a) + Skeleton(b)
    decreases |a|
  {
    if a == [] {
      assert a + b == b;
    } else {
      assert (a + b)[1..] == a[1..] + b;
      SkeletonAppend(a[1..], b);
    }
  }

  lemma SkeletonOne(c: char)
    ensures Skeleton([c]) == Bare(c)
  {
    assert [c][1..] == [];
  }

  /** Reading one more character. */
  lemma SkeletonNext(s: string, i: nat)
    requires i < |s|
    ensures Skeleton(s[..i+1]) == Skeleton(s[..i]) + Bare(s[i])
  {
    assert s[..i+1] == s[..i] + [s[i]];
    SkeletonAppend(s[..i], [s[i]]);
    SkeletonOne(s[i]);
  }

  lemma SkeletonSlice(s: string, i: nat, j: nat)
    requires i <= j <= |s|
    ensures Skeleton(s[..j]) == Skeleton(s[..i]) + Skeleton(s[i..j])
  {
    assert s[..j] == s[..i] + s[i..j];
    SkeletonAppend(s[..i], s[i..j]);
  }

  /** A text between two marks that do not count. */
  lemma SkeletonWrapped(before: char, s: string, after: char)
    requires Bare(before) == "" && Bare(after) == ""
    ensures Skeleton([before] + s + [after]) == Skeleton(s)
  {
    SkeletonAppend([before] + s, [after]);
    SkeletonAppend([before], s);
    SkeletonOne(before);
    SkeletonOne(after);
  }

  // ---- script arguments ----

  function Depth(s: string): int {
    if s == [] then 0
    else Depth(s[..|s|-1]) + (if s[|s|-1] == '(' then 1 else if s[|s|-1] == ')' then -1 else 0)
  }

  /** From the parenthesis at `i` to just past the one that first balances it. */
  ghost predicate IsGroup(s: string, i: nat, j: nat) {
    && i + 1 < j <= |s| && s[i] == '(' && s[j-1] == ')' && Depth(s[i..j]) == 0
    && forall k :: i < k < j ==> Depth(s[i..k]) > 0
  }

  function RunEnd(s: string, i: nat, lexicon: Lexicon): (e: nat)
    requires i <= |s|
    ensures i <= e <= |s| && (forall k :: i <= k < e ==> IsLetter(s[k], lexicon))
    ensures e < |s| ==> !IsLetter(s[e], lexicon)
    decreases |s| - i
  {
    if i == |s| || !IsLetter(s[i], lexicon) then i else RunEnd(s, i + 1, lexicon)
  }

  /** Where an operand token at `i` ends: a signed run of letters, or else any one character but a newline. */
  function TokenEnd(s: string, i: nat, lexicon: Lexicon): Option<nat>
    requires i <= |s|
  {
    if i == |s| then None
    else if IsMinus(s[i]) && RunEnd(s, i + 1, lexicon) > i + 1 then Some(RunEnd(s, i + 1, lexicon))
    else if RunEnd(s, i, lexicon) > i then Some(RunEnd(s, i, lexicon))
    else if IsNewline(s[i]) then None
    else Some(i + 1)
  }

  /** A longest run of letters from `i` to `e`. */
  ghost predicate IsRun(s: string, i: nat, e: nat, lexicon: Lexicon) {
    && i < e <= |s| && (forall k :: i <= k < e ==> IsLetter(s[k], lexicon))
    && (e < |s| ==> !IsLetter(s[e], lexicon))
  }

  /** An operand token from `i` to `e`: a longest run of letters, signed or not, or one other character. */
  ghost predicate IsToken(s: string, i: nat, e: nat, lexicon: Lexicon) {
    && i < |s|
    && (IsRun(s, i, e, lexicon)
        || (IsMinus(s[i]) && IsRun(s, i + 1, e, lexicon))
        || (e == i + 1 && !IsNewline(s[i]) && !IsLetter(s[i], lexicon)
            && (IsMinus(s[i]) ==> e == |s| || !IsLetter(s[e], lexicon))))
  }

  lemma TokenEndIff(s: string, i: nat, e: nat, lexicon: Lexicon)
    requires i <= |s|
    ensures TokenEnd(s, i, lexicon) == Some(e) <==> IsToken(s, i, e, lexicon)
  {
    if i < |s| {
      RunEndIff(s, i, e, lexicon);
      RunEndIff(s, i + 1, e, lexicon);
    }
  }

  lemma RunEndIff(s: string, i: nat, e: nat, lexicon: Lexicon)
    requires i <= |s|
    ensures RunEnd(s, i, lexicon) == e && e > i <==> IsRun(s, i, e, lexicon)
  {
    var r := RunEnd(s, i, lexicon);
    if IsRun(s, i, e, lexicon) {
      assert e <= r && r <= e;
    }
  }

  /** The argument of a mark, read from `i` to `e`: a balanced group, or else a token. */
  ghost predicate ArgAt(s: string, i: nat, e: nat, lexicon: Lexicon) {
    i < |s| && if s[i] == '(' then IsGroup(s, i, e) else IsToken(s, i, e, lexicon)
  }

  ghost predicate NoArgAt(s: string, i: nat, lexicon: Lexicon) {
    forall e: nat :: !ArgAt(s, i, e, lexicon)
  }

  /** What stands in it. */
  function ArgOf(s: string, i: nat, e: nat): string
    requires i < e <= |s|
  {
    if s[i] == '(' && i + 1 < e then s[i+1..e-1] else s[i..e]
  }

  datatype Arg = NoArg | Arg(content: string, next: nat)

  lemma DepthNext(s: string, i: nat, j: nat)
    requires i <= j < |s|
    ensures Depth(s[i..j+1]) == Depth(s[i..j]) + (if s[j] == '(' then 1 else if s[j] == ')' then -1 else 0)
  {
    assert s[i..j+1][..j - i] == s[i..j];
  }

  lemma GroupEnds(s: string, i: nat, j: nat)
    requires i < j < |s| && s[i] == '(' && s[j] == ')' && Depth(s[i..j]) == 1
    requires forall k :: i < k <= j ==> Depth(s[i..k]) > 0
    ensures IsGroup(s, i, j + 1) && Skeleton(s[i..j+1]) == Skeleton(s[i+1..j])
  {
    DepthNext(s, i, j);
    assert s[i..j+1] == ['('] + s[i+1..j] + [')'];
    SkeletonWrapped('(', s[i+1..j], ')');
  }

  /** The inside of the first balanced group, if one starts at the parenthesis. */
  method FirstGroup(s: string, i: nat) returns (arg: Arg)
    requires i < |s| && s[i] == '('
    ensures arg.Arg? ==>
              IsGroup(s, i, arg.next) && arg.content == s[i+1..arg.next-1] && Skeleton(arg.content) == Skeleton(s[i..arg.next])
    ensures arg.NoArg? ==> forall j :: !IsGroup(s, i, j)
  {
    hide Skeleton, Depth;
    var depth := 0;
    var j := i;
    NoDepth();
    assert s[i..i] == "";
    while j < |s|
      invariant i <= j <= |s|
      invariant depth == Depth(s[i..j])
      invariant forall k :: i < k <= j ==> Depth(s[i..k]) > 0
    {
      DepthNext(s, i, j);
      if s[j] == '(' {
        depth := depth + 1;
      } else if s[j] == ')' {
        depth := depth - 1;
        if depth == 0 {
          GroupEnds(s, i, j);
          return Arg(s[i+1..j], j + 1);
        }
      }
      j := j + 1;
    }
    arg := NoArg;
  }

  lemma NoDepth()
    ensures Depth("") == 0
  {
  }

  /**
    The argument of a script mark: the inside of the first balanced group, if one starts here, or a
    token.  The scan always advances and the argument carries the skeleton of what was read.
   */
  method ScriptArg(s: string, i: nat, lexicon: Lexicon) returns (arg: Arg)
    requires i <= |s|
    ensures arg.Arg? ==> i < arg.next <= |s| && Skeleton(arg.content) == Skeleton(s[i..arg.next])
    ensures arg.Arg? ==> ArgAt(s, i, arg.next, lexicon) && arg.content == ArgOf(s, i, arg.next)
    ensures arg.NoArg? ==> NoArgAt(s, i, lexicon)
  {
    hide Skeleton, Depth, IsGroup, IsToken, TokenEnd;
    if i < |s| && s[i] == '(' {
      arg := FirstGroup(s, i);
      GroupSpans(s, i);
    } else {
      var end := TokenEnd(s, i, lexicon);
      forall e: nat ensures TokenEnd(s, i, lexicon) == Some(e) <==> IsToken(s, i, e, lexicon) {
        TokenEndIff(s, i, e, lexicon);
      }
      TokenSpans(s, i, lexicon);
      arg := if end.Some? then Arg(s[i..end.value], end.value) else NoArg;
    }
  }

  lemma GroupSpans(s: string, i: nat)
    ensures forall e: nat :: IsGroup(s, i, e) ==> i + 1 < e <= |s|
  {
  }

  lemma TokenSpans(s: string, i: nat, lexicon: Lexicon)
    requires i <= |s|
    ensures i == |s| ==> TokenEnd(s, i, lexicon).None?
    ensures var end := TokenEnd(s, i, lexicon); end.Some? ==> i < end.value <= |s|
  {
  }

  // ---- writing scripts ----

  /** A draw of the generator. */
  method Draw() returns (r: real)
    ensures 0.0 <= r < 1.0
  {
    r :| 0.0 <= r < 1.0;
  }

  function Script(marker: char, c: char): Option<char> {
    if marker == '^' then Superscript(c) else Subscript(c)
  }

  /** A caret raises and an underscore lowers: the script written is a superscript or a subscript of its character. */
  lemma ScriptKinds(c: char)
    ensures Script('^', c).Some? ==> FromSuperscript(Script('^', c).value as int) == OneMinus(c as int)
    ensures Script('_', c).Some? ==>
              FromSubscript(Script('_', c).value as int) == OneMinus(c as int) && FromSuperscript(Script('_', c).value as int) == 0
  {
    hide SuperscriptCode, SubscriptCode, FromSuperscript, FromSubscript;
    if Script('^', c).Some? { SuperscriptCodesInvert(c as int); }
    if Script('_', c).Some? { SubscriptCodesInvert(c as int); }
  }

  /** The raised digits are at U+2070 and on, but for 1, 2 and 3; the lowered ones at U+2080 and on. */
  lemma DigitScripts(d: int)
    requires 0 <= d < 10
    ensures SuperscriptCode(0x30 + d) == if d == 1 then 0xb9 else if d == 2 || d == 3 then 0xb0 + d else 0x2070 + d
    ensures SubscriptCode(0x30 + d) == 0x2080 + d
  {
  }

  predicate AllScripts(marker: char, s: string) {
    forall c :: c in s ==> Script(marker, c).Some?
  }

  function Scripts(marker: char, s: string): string
    requires AllScripts(marker, s)
  {
    if s == [] then [] else [Script(marker, s[0]).value] + Scripts(marker, s[1..])
  }

  lemma {:induction false} ScriptsKeepSkeleton(marker: char, s: string)
    requires AllScripts(marker, s)
    ensures Skeleton(Scripts(marker, s)) == Skeleton(s)
    decreases |s|
  {
    if s != [] {
      ScriptsKeepSkeleton(marker, s[1..]);
      ScriptsAreBare(s[0]);
      assert Scripts(marker, s)[1..] == Scripts(marker, s[1..]);
    }
  }

  predicate AllDigits(s: string) {
    s != [] && forall c :: c in s ==> IsDigit(c)
  }

  function Bracketed(marker: char, open: char, arg: string, close: char): string {
    [marker, open] + arg + [close]
  }

  lemma MarksAreBare()
    ensures Bare('^') == Bare('_') == Bare('(') == Bare(')') == Bare('{') == Bare('}') == Bare(' ') == ""
  {
  }

  lemma BracketedKeepsSkeleton(marker: char, open: char, arg: string, close: char)
    requires Bare(marker) == Bare(open) == Bare(close) == ""
    ensures Skeleton(Bracketed(marker, open, arg, close)) == Skeleton(arg)
    ensures Skeleton([marker] + arg) == Skeleton(arg)
  {
    hide Skeleton, Bare;
    SkeletonWrapped(open, arg, close);
    SkeletonOne(marker);
    SkeletonAppend([marker], [open] + arg + [close]);
    SkeletonAppend([marker], arg);
    assert Bracketed(marker, open, arg, close) == [marker] + ([open] + arg + [close]);
  }

  predicate IsMark(c: char) {
    c == '^' || c == '_'
  }

  /**
    The four forms of a script: as Unicode scripts where the table has them all, marked bare where the
    argument is short, and marked with either brackets.
   */
  ghost predicate IsForm(marker: char, arg: string, out: string) {
    || (|arg| <= 3 && AllScripts(marker, arg) && out == Scripts(marker, arg))
    || ((|arg| == 1 || AllDigits(arg)) && out == [marker] + arg)
    || out == Bracketed(marker, '{', arg, '}') || out == Bracketed(marker, '(', arg, ')')
  }

  method WriteScript(marker: char, arg: string) returns (out: string)
    requires IsMark(marker)
    ensures Skeleton(out) == Skeleton(arg)
    ensures IsForm(marker, arg, out)
  {
    MarksAreBare();
    BracketedKeepsSkeleton(marker, '{', arg, '}');
    BracketedKeepsSkeleton(marker, '(', arg, ')');
    if |arg| <= 3 && AllScripts(marker, arg) {
      var r := Draw();
      if r < 0.45 {
        ScriptsKeepSkeleton(marker, arg);
        return Scripts(marker, arg);
      }
    }
    var r := Draw();
    if |arg| == 1 || AllDigits(arg) {
      if r < 0.75 {
        return [marker] + arg;
      }
      return if r < 0.95 then Bracketed(marker, '{', arg, '}') else Bracketed(marker, '(', arg, ')');
    }
    out := if r < 0.8 then Bracketed(marker, '{', arg, '}') else Bracketed(marker, '(', arg, ')');
  }

  // ---- the text read and the text written ----

  /** The text from `from` to `to`, and what is written for it. */
  datatype Piece = Piece(from: nat, to: nat, written: string)

  /** The pieces follow one another from the start of a text to `n`. */
  ghost predicate Tiles(pieces: seq<Piece>, n: nat) {
    if pieces == [] then n == 0
    else
      var last := pieces[|pieces|-1];
      last.from < last.to == n && Tiles(pieces[..|pieces|-1], last.from)
  }

  function WrittenOf(pieces: seq<Piece>): string {
    if pieces == [] then "" else WrittenOf(pieces[..|pieces|-1]) + pieces[|pieces|-1].written
  }

  lemma PushPiece(pieces: seq<Piece>, n: nat, piece: Piece)
    requires Tiles(pieces, n) && piece.from == n < piece.to
    ensures Tiles(pieces + [piece], piece.to) && WrittenOf(pieces + [piece]) == WrittenOf(pieces) + piece.written
  {
    assert (pieces + [piece])[..|pieces|] == pieces;
  }

  /** One character kept as it is. */
  ghost predicate IsKept(s: string, p: Piece) {
    p.from < |s| && p.to == p.from + 1 && p.written == [s[p.from]]
  }

  /** A mark, not at the start, with its argument. */
  ghost predicate IsScript(s: string, p: Piece, lexicon: Lexicon) {
    p.from + 1 < p.to <= |s| && IsMark(s[p.from]) && p.from > 0 && ArgAt(s, p.from + 1, p.to, lexicon)
  }

  function ScriptArgOf(s: string, p: Piece): string
    requires p.from + 1 < p.to <= |s|
  {
    ArgOf(s, p.from + 1, p.to)
  }

  /** Inside a script: a mark with its argument takes one of the four forms, and any other character stays. */
  ghost predicate InnerPiece(s: string, p: Piece, lexicon: Lexicon) {
    || (IsScript(s, p, lexicon) && IsForm(s[p.from], ScriptArgOf(s, p), p.written))
    || (IsKept(s, p) && !(IsMark(s[p.from]) && p.from > 0))
  }

  /** A mark, not at the start, whose argument cannot be read. */
  ghost predicate Unreadable(s: string, lexicon: Lexicon) {
    exists i :: 0 < i < |s| && IsMark(s[i]) && NoArgAt(s, i + 1, lexicon)
  }

  ghost predicate InnerTiled(s: string, out: string, pieces: seq<Piece>, lexicon: Lexicon) {
    Tiles(pieces, |s|) && WrittenOf(pieces) == out && forall p :: p in pieces ==> InnerPiece(s, p, lexicon)
  }

  ghost predicate InnerRespelled(s: string, out: string, lexicon: Lexicon) {
    (exists pieces :: InnerTiled(s, out, pieces, lexicon)) || (out == s && Unreadable(s, lexicon))
  }

  /** At the top: one of the four forms of the argument, itself respelled. */
  ghost predicate TopPiece(s: string, p: Piece, lexicon: Lexicon) {
    || (IsScript(s, p, lexicon)
        && exists inner :: InnerRespelled(ScriptArgOf(s, p), inner, lexicon) && IsForm(s[p.from], inner, p.written))
    || (IsKept(s, p) && !(IsMark(s[p.from]) && p.from > 0))
  }

  ghost predicate Tiled(s: string, out: string, pieces: seq<Piece>, lexicon: Lexicon) {
    Tiles(pieces, |s|) && WrittenOf(pieces) == out && forall p :: p in pieces ==> TopPiece(s, p, lexicon)
  }

  /** The same text character by character, but every mark with its argument in one of the four forms. */
  ghost predicate Respelled(s: string, out: string, lexicon: Lexicon) {
    exists pieces :: Tiled(s, out, pieces, lexicon)
  }

  /** Scripts inside a script; an argument that cannot be read leaves the text as it was. */
  method InformalizeInner(arg: string, lexicon: Lexicon) returns (out: string)
    ensures Skeleton(out) == Skeleton(arg)
    ensures InnerRespelled(arg, out, lexicon)
  {
    hide Skeleton, Bare, Tiles, WrittenOf, ArgAt, ArgOf, IsForm;
    out := "";
    var i := 0;
    ghost var pieces: seq<Piece> := [];
    NoPieces();
    assert arg[..0] == "";
    while i < |arg|
      invariant 0 <= i <= |arg|
      invariant Skeleton(out) == Skeleton(arg[..i])
      invariant Tiles(pieces, i) && WrittenOf(pieces) == out && forall p :: p in pieces ==> InnerPiece(arg, p, lexicon)
    {
      var ch := arg[i];
      SkeletonNext(arg, i);
      if IsMark(ch) && i > 0 {
        var inner := ScriptArg(arg, i + 1, lexicon);
        if inner.NoArg? {
          return arg;
        }
        var written := WriteScript(ch, inner.content);
        ScriptRead(arg, i, inner.next);
        SkeletonAppend(out, written);
        PushPiece(pieces, i, Piece(i, inner.next, written));
        pieces := pieces + [Piece(i, inner.next, written)];
        out := out + written;
        i := inner.next;
      } else {
        SkeletonAppend(out, [ch]);
        SkeletonOne(ch);
        PushPiece(pieces, i, Piece(i, i + 1, [ch]));
        pieces := pieces + [Piece(i, i + 1, [ch])];
        out := out + [ch];
        i := i + 1;
      }
    }
    assert arg[..i] == arg;
    assert InnerTiled(arg, out, pieces, lexicon);
  }

  lemma NoPieces()
    ensures Tiles([], 0) && WrittenOf([]) == ""
  {
  }

  lemma ScriptRead(s: string, i: nat, next: nat)
    requires i < next <= |s| && IsMark(s[i])
    ensures Skeleton(s[..next]) == Skeleton(s[..i]) + Skeleton(s[i+1..next])
  {
    SkeletonNext(s, i);
    SkeletonSlice(s, i + 1, next);
    MarksAreBare();
    assert Skeleton(s[..i]) + "" == Skeleton(s[..i]);
  }

  // ---- operators ----

  predicate IsUnary(ch: char, first: bool, prev: char) {
    (IsMinus(ch) || ch == '+') &&
    (first || prev == '(' || prev == '=' || prev == ',' || prev == '{' || IsSpace(prev) || prev == '^' || prev == '_')
  }

  /** How deep in brackets the character at `i` stands, an opening one counted in; closings too many do not count. */
  function Nesting(s: string, i: nat): nat
    requires i <= |s|
  {
    if i == 0 then 0
    else
      var before := Nesting(s, i - 1);
      if s[i-1] == '{' || s[i-1] == '(' then before + 1
      else if (s[i-1] == '}' || s[i-1] == ')') && before > 0 then before - 1 else before
  }

  /** A relation or binary operator outside all brackets that is not a sign. */
  predicate IsOperator(s: string, i: nat, lexicon: Lexicon)
    requires i < |s|
  {
    && (lexicon.relation(s[i]) || lexicon.binary(s[i])) && Nesting(s, i + 1) == 0
    && !IsUnary(s[i], i == 0, if i == 0 then ' ' else s[i-1])
  }

  /** A plus or minus is a sign at the start and after an opening bracket, an equals sign, a comma, a space or a script mark. */
  lemma SignsAreNotOperators(s: string, i: nat, lexicon: Lexicon)
    requires i < |s|
    ensures IsOperator(s, i, lexicon) <==>
              && (lexicon.relation(s[i]) || lexicon.binary(s[i])) && Nesting(s, i + 1) == 0
              && !((s[i] == '+' || s[i] == '-' || s[i] == MINUS)
                   && (i == 0 || s[i-1] == '(' || s[i-1] == '=' || s[i-1] == ',' || s[i-1] == '{' || IsSpace(s[i-1])
                       || s[i-1] == '^' || s[i-1] == '_'))
  {
  }

  /** Every character stays, the operators with a space on either side. */
  ghost predicate SpacedPiece(s: string, p: Piece, lexicon: Lexicon) {
    p.from < |s| && p.to == p.from + 1
    && p.written == if IsOperator(s, p.from, lexicon) then [' ', s[p.from], ' '] else [s[p.from]]
  }

  ghost predicate OperatorsSpaced(s: string, out: string, lexicon: Lexicon) {
    exists pieces :: Tiles(pieces, |s|) && WrittenOf(pieces) == out && forall p :: p in pieces ==> SpacedPiece(s, p, lexicon)
  }

  /** A text without its white space. */
  function Dense(s: string): string {
    if s == "" then "" else Dense(s[..|s|-1]) + (if IsSpace(s[|s|-1]) then "" else [s[|s|-1]])
  }

  lemma {:induction false} DenseAppend(a: string, b: string)
    ensures Dense(a + b) == Dense(a) + Dense(b)
    decreases |b|
  {
    if b == "" {
      assert a + b == a;
    } else {
      var n := |b| - 1;
      DenseAppend(a, b[..n]);
      assert (a + b)[..|a| + n] == a + b[..n];
    }
  }

  lemma DenseOne(c: char)
    ensures Dense([c]) == if IsSpace(c) then "" else [c]
  {
    assert [c][..0] == "";
  }

  lemma DenseSpaced(c: char)
    ensures Dense([' ', c, ' ']) == Dense([c])
  {
    DenseOne(' ');
    DenseAppend([' '], [c]);
    DenseAppend([' ', c], [' ']);
    assert [' '] + [c] == [' ', c] && [' ', c] + [' '] == [' ', c, ' '];
  }

  /** Spaces around operators outside brackets, where they are not signs. */
  method SpaceOperators(s: string, lexicon: Lexicon) returns (out: string)
    ensures Skeleton(out) == Skeleton(s) && Dense(out) == Dense(s)
    ensures OperatorsSpaced(s, out, lexicon)
  {
    hide Skeleton, Bare, Tiles, WrittenOf, Dense, IsUnary;
    out := "";
    var depth := 0;
    var i := 0;
    ghost var pieces: seq<Piece> := [];
    NoPieces();
    assert s[..0] == "";
    while i < |s|
      invariant 0 <= i <= |s| && depth == Nesting(s, i)
      invariant Skeleton(out) == Skeleton(s[..i]) && Dense(out) == Dense(s[..i])
      invariant Tiles(pieces, i) && WrittenOf(pieces) == out && forall p :: p in pieces ==> SpacedPiece(s, p, lexicon)
    {
      var ch := s[i];
      if ch == '{' || ch == '(' { depth := depth + 1; }
      if (ch == '}' || ch == ')') && depth > 0 { depth := depth - 1; }
      var prev := if i == 0 then ' ' else s[i-1];
      var spaced := depth == 0 && !IsUnary(ch, i == 0, prev) && (lexicon.relation(ch) || lexicon.binary(ch));
      var piece := if spaced then [' ', ch, ' '] else [ch];
      PieceKeepsSkeleton(ch);
      DenseSpaced(ch);
      SkeletonNext(s, i);
      SkeletonAppend(out, piece);
      DenseAppend(out, piece);
      assert s[..i+1] == s[..i] + [ch];
      DenseAppend(s[..i], [ch]);
      PushPiece(pieces, i, Piece(i, i + 1, piece));
      pieces := pieces + [Piece(i, i + 1, piece)];
      out := out + piece;
      i := i + 1;
    }
    assert s[..i] == s;
  }

  lemma PieceKeepsSkeleton(ch: char)
    ensures Skeleton([' ', ch, ' ']) == Skeleton([ch]) == Bare(ch)
  {
    MarksAreBare();
    SkeletonWrapped(' ', [ch], ' ');
    assert [' '] + [ch] + [' '] == [' ', ch, ' '];
    SkeletonOne(ch);
  }

  // ---- superscripts the formula already has ----

  /** A superscript digit. */
  predicate IsRaised(c: char) {
    FromSuperscript(c as int) != 0 && '0' as int <= FromSuperscript(c as int) <= '9' as int
  }

  function Lowered(c: char): char
    requires IsRaised(c)
  {
    FromSuperscript(c as int) as char
  }

  lemma LoweredIsBare(c: char)
    requires IsRaised(c)
    ensures Bare(Lowered(c)) == Bare(c)
  {
    hide FromSuperscript, FromSubscript;
    PlainIsBare(Lowered(c));
    NotAMark(c as int);
  }

  predicate AllRaised(s: string) {
    forall k :: 0 <= k < |s| ==> IsRaised(s[k])
  }

  function LoweredAll(s: string): string
    requires AllRaised(s)
  {
    if s == "" then "" else LoweredAll(s[..|s|-1]) + [Lowered(s[|s|-1])]
  }

  /** A longest run of superscript digits. */
  ghost predicate IsRaisedRun(s: string, p: Piece) {
    && p.from < p.to <= |s| && AllRaised(s[p.from..p.to])
    && (p.from > 0 ==> !IsRaised(s[p.from-1])) && (p.to < |s| ==> !IsRaised(s[p.to]))
  }

  /** A run of superscript digits stays or becomes a caret and its digits; any other character stays. */
  ghost predicate SuperscriptPiece(s: string, p: Piece) {
    || (IsRaisedRun(s, p) && (p.written == s[p.from..p.to] || p.written == "^" + LoweredAll(s[p.from..p.to])))
    || (IsKept(s, p) && !IsRaised(s[p.from]))
  }

  ghost predicate SuperscriptTiled(s: string, out: string, pieces: seq<Piece>) {
    Tiles(pieces, |s|) && WrittenOf(pieces) == out && forall p :: p in pieces ==> SuperscriptPiece(s, p)
  }

  ghost predicate SuperscriptsSpelled(s: string, out: string) {
    exists pieces :: SuperscriptTiled(s, out, pieces)
  }

  lemma RaisedMore(s: string, i: nat, e: nat)
    requires i <= e < |s| && AllRaised(s[i..e]) && IsRaised(s[e])
    ensures AllRaised(s[i..e+1]) && s[i..e+1] == s[i..e] + [s[e]]
    ensures LoweredAll(s[i..e+1]) == LoweredAll(s[i..e]) + [Lowered(s[e])]
  {
    hide IsRaised, Lowered;
    assert s[i..e+1] == s[i..e] + [s[e]] && s[i..e+1][..e-i] == s[i..e];
  }

  lemma {:induction false} LoweredAllKeepsSkeleton(s: string)
    requires AllRaised(s)
    ensures Skeleton("^" + LoweredAll(s)) == Skeleton(s) && Skeleton(LoweredAll(s)) == Skeleton(s)
    decreases |s|
  {
    hide Skeleton, Bare, IsRaised, Lowered;
    MarksAreBare();
    SkeletonNone();
    SkeletonOne('^');
    SkeletonAppend("^", LoweredAll(s));
    if s != "" {
      var n := |s| - 1;
      LoweredAllKeepsSkeleton(s[..n]);
      LoweredIsBare(s[n]);
      SkeletonAppend(LoweredAll(s[..n]), [Lowered(s[n])]);
      SkeletonOne(Lowered(s[n]));
      SkeletonNext(s, n);
      assert s[..n+1] == s;
    }
  }

  /** From the run at `i`: its end, and what is written for it. */
  method SpellRun(s: string, i: nat) returns (e: nat, run: string)
    requires i < |s| && IsRaised(s[i]) && (i > 0 ==> !IsRaised(s[i-1]))
    ensures i < e <= |s| && SuperscriptPiece(s, Piece(i, e, run)) && IsRaisedRun(s, Piece(i, e, run))
    ensures Skeleton(run) == Skeleton(s[i..e])
  {
    hide Skeleton, Bare, IsRaised, Lowered, LoweredAll;
    var r := Draw();
    var spell := r < 0.35;
    run := if spell then "^" else "";
    e := i;
    NothingLowered();
    assert s[i..i] == "";
    while e < |s| && IsRaised(s[e])
      invariant i <= e <= |s| && (e == i ==> IsRaised(s[i])) && AllRaised(s[i..e])
      invariant run == if spell then "^" + LoweredAll(s[i..e]) else s[i..e]
      decreases |s| - e
    {
      var c := if spell then Lowered(s[e]) else s[e];
      RaisedMore(s, i, e);
      run := run + [c];
      e := e + 1;
    }
    LoweredAllKeepsSkeleton(s[i..e]);
  }

  lemma NothingLowered()
    ensures LoweredAll("") == ""
  {
  }

  /** Runs of superscript digits, each sometimes spelled with a caret. */
  method SpellSuperscripts(s: string) returns (out: string)
    ensures Skeleton(out) == Skeleton(s)
    ensures SuperscriptsSpelled(s, out)
  {
    hide Skeleton, Bare, IsRaised, Lowered, Tiles, WrittenOf;
    out := "";
    var i := 0;
    ghost var pieces: seq<Piece> := [];
    NoPieces();
    assert s[..0] == "";
    while i < |s|
      invariant 0 <= i <= |s|
      invariant Skeleton(out) == Skeleton(s[..i])
      invariant Tiles(pieces, i) && WrittenOf(pieces) == out && forall p :: p in pieces ==> SuperscriptPiece(s, p)
      invariant i > 0 && i < |s| && IsRaised(s[i]) ==> !IsRaised(s[i-1])
    {
      if IsRaised(s[i]) {
        var e, run := SpellRun(s, i);
        SkeletonSlice(s, i, e);
        SkeletonAppend(out, run);
        PushPiece(pieces, i, Piece(i, e, run));
        pieces := pieces + [Piece(i, e, run)];
        out := out + run;
        i := e;
      } else {
        SkeletonNext(s, i);
        SkeletonOne(s[i]);
        SkeletonAppend(out, [s[i]]);
        PushPiece(pieces, i, Piece(i, i + 1, [s[i]]));
        pieces := pieces + [Piece(i, i + 1, [s[i]])];
        out := out + [s[i]];
        i := i + 1;
      }
    }
    assert s[..i] == s;
    assert SuperscriptTiled(s, out, pieces);
  }

  lemma SkeletonNone()
    ensures Skeleton("") == ""
  {
  }

  // ---- the whole rewriting ----

  function Hyphens(s: string): string {
    if s == [] then [] else [if s[0] == MINUS then '-' else s[0]] + Hyphens(s[1..])
  }

  lemma {:induction false} HyphensKeepSkeleton(s: string)
    ensures Skeleton(Hyphens(s)) == Skeleton(s)
    decreases |s|
  {
    if s != [] {
      HyphensKeepSkeleton(s[1..]);
      PlainIsBare('-');
      PlainIsBare(MINUS);
      assert Hyphens(s)[1..] == Hyphens(s[1..]);
    }
  }

  predicate ZeroPointDigit(s: string, i: nat) {
    i + 2 < |s| && s[i] == '0' && s[i+1] == '.' && IsDigit(s[i+2])
  }

  /** The zero of `0.d` with no digit or point before it. */
  predicate LeadingZero(s: string, i: nat) {
    ZeroPointDigit(s, i) && (i == 0 || (!IsDigit(s[i-1]) && s[i-1] != '.'))
  }

  /** The text from `i` on without exactly its leading zeros. */
  function WithoutLeadingZeros(s: string, i: nat): string
    requires i <= |s|
    decreases |s| - i
  {
    if i == |s| then "" else (if LeadingZero(s, i) then "" else [s[i]]) + WithoutLeadingZeros(s, i + 1)
  }

  /** Within a match, and right after it, no other zero leads. */
  lemma NoneInMatch(s: string, i: nat)
    requires LeadingZero(s, i)
    ensures WithoutLeadingZeros(s, i) == s[i+1..i+3] + WithoutLeadingZeros(s, i + 3)
    ensures !LeadingZero(s, i + 3)
  {
    assert !LeadingZero(s, i + 1) && !LeadingZero(s, i + 2);
    assert s[i+1..i+3] == [s[i+1]] + [s[i+2]];
    assert WithoutLeadingZeros(s, i + 1) == [s[i+1]] + WithoutLeadingZeros(s, i + 2);
    assert WithoutLeadingZeros(s, i + 2) == [s[i+2]] + WithoutLeadingZeros(s, i + 3);
    assert "" + WithoutLeadingZeros(s, i + 1) == WithoutLeadingZeros(s, i + 1);
    assert [s[i+1]] + ([s[i+2]] + WithoutLeadingZeros(s, i + 3)) == s[i+1..i+3] + WithoutLeadingZeros(s, i + 3);
  }

  /**
    Drop the zero of `0.d` where no digit or point stands before it.  Matches consume what they match,
    and still every leading zero goes and nothing else.
   */
  method DropLeadingZeros(s: string) returns (out: string)
    ensures out == WithoutLeadingZeros(s, 0)
  {
    out := "";
    var i := 0;
    while i < |s|
      invariant 0 <= i <= |s|
      invariant out + WithoutLeadingZeros(s, i) == WithoutLeadingZeros(s, 0)
      invariant i > 0 && i < |s| ==> !LeadingZero(s, i)
    {
      if i == 0 && ZeroPointDigit(s, 0) {
        NoneInMatch(s, 0);
        Regroup(out, s[1..3], WithoutLeadingZeros(s, 3));
        out := out + s[1..3];
        i := 3;
      } else if !IsDigit(s[i]) && s[i] != '.' && ZeroPointDigit(s, i + 1) {
        NoneInMatch(s, i + 1);
        Regroup(out, [s[i]], s[i+2..i+4] + WithoutLeadingZeros(s, i + 4));
        Regroup(out + [s[i]], s[i+2..i+4], WithoutLeadingZeros(s, i + 4));
        out := out + [s[i]] + s[i+2..i+4];
        i := i + 4;
      } else {
        Regroup(out, [s[i]], WithoutLeadingZeros(s, i + 1));
        out := out + [s[i]];
        i := i + 1;
      }
    }
  }

  /** `b` is `a` without some of the zeros that stand before a point and a digit. */
  predicate ThinnedTo(a: string, b: string)
    decreases |a|
  {
    if a == "" then b == ""
    else
      || (b != "" && a[0] == b[0] && ThinnedTo(a[1..], b[1..]))
      || (ZeroPointDigit(a, 0) && ThinnedTo(a[1..], b))
  }

  lemma {:induction false} ThinnedToItself(a: string)
    ensures ThinnedTo(a, a)
  {
    if a != "" { ThinnedToItself(a[1..]); }
  }

  lemma {:induction false} ThinnedMore(x: string, a: string, b: string)
    requires ThinnedTo(a, b)
    ensures ThinnedTo(x + a, x + b)
  {
    if x == "" {
      assert x + a == a && x + b == b;
    } else {
      ThinnedMore(x[1..], a, b);
      assert (x + a)[1..] == x[1..] + a && (x + b)[1..] == x[1..] + b;
    }
  }

  lemma DigitsAreBare(c: char)
    requires IsDigit(c) || c == '.'
    ensures Bare(c) == [c]
  {
  }

  lemma SkeletonFrom(s: string, i: nat)
    requires i < |s|
    ensures Skeleton(s[i..]) == Bare(s[i]) + Skeleton(s[i+1..])
  {
    assert s[i..][1..] == s[i+1..];
  }

  lemma PointFollows(s: string, i: nat)
    requires ZeroPointDigit(s, i)
    ensures Skeleton(s[i..])[1..] == Skeleton(s[i+1..]) && ZeroPointDigit(Skeleton(s[i..]), 0)
  {
    hide Bare;
    SkeletonFrom(s, i);
    SkeletonFrom(s, i + 1);
    SkeletonFrom(s, i + 2);
    DigitsAreBare(s[i]);
    DigitsAreBare(s[i+1]);
    DigitsAreBare(s[i+2]);
  }

  /** Without its leading zeros a text has the skeleton it had, but for zeros before a point and a digit. */
  lemma {:induction false} LeadingZerosThin(s: string, i: nat)
    requires i <= |s|
    ensures ThinnedTo(Skeleton(s[i..]), Skeleton(WithoutLeadingZeros(s, i)))
    decreases |s| - i
  {
    hide Bare, Skeleton;
    if i == |s| {
      assert s[i..] == "" == WithoutLeadingZeros(s, i);
      ThinnedToItself(Skeleton(""));
    } else {
      LeadingZerosThin(s, i + 1);
      if LeadingZero(s, i) {
        PointFollows(s, i);
        assert WithoutLeadingZeros(s, i) == WithoutLeadingZeros(s, i + 1);
      } else {
        SkeletonFrom(s, i);
        SkeletonOne(s[i]);
        SkeletonAppend([s[i]], WithoutLeadingZeros(s, i + 1));
        ThinnedMore(Bare(s[i]), Skeleton(s[i+1..]), Skeleton(WithoutLeadingZeros(s, i + 1)));
      }
    }
  }

  lemma Regroup(a: string, b: string, c: string)
    ensures a + (b + c) == a + b + c
  {
  }

  function Squeezed(s: string): string {
    if s == [] then []
    else if IsSpace(s[0]) then (if |s| > 1 && IsSpace(s[1]) then Squeezed(s[1..]) else " " + Squeezed(s[1..]))
    else [s[0]] + Squeezed(s[1..])
  }

  function Trimmed(s: string): string {
    if s != [] && s[0] == ' ' then Trimmed(s[1..])
    else if s != [] && s[|s|-1] == ' ' then Trimmed(s[..|s|-1])
    else s
  }

  lemma {:induction false} SqueezedKeepsSkeleton(s: string)
    ensures Skeleton(Squeezed(s)) == Skeleton(s)
    decreases |s|
  {
    if s != [] {
      SqueezedKeepsSkeleton(s[1..]);
      SkeletonAppend(" ", Squeezed(s[1..]));
      SkeletonAppend([s[0]], Squeezed(s[1..]));
      SkeletonOne(' ');
      SkeletonOne(s[0]);
      assert IsSpace(s[0]) ==> Bare(s[0]) == "";
    }
  }

  lemma {:induction false} TrimmedKeepsSkeleton(s: string)
    ensures Skeleton(Trimmed(s)) == Skeleton(s)
    decreases |s|
  {
    if s != [] && s[0] == ' ' {
      TrimmedKeepsSkeleton(s[1..]);
      MarksAreBare();
    } else if s != [] && s[|s|-1] == ' ' {
      TrimmedKeepsSkeleton(s[..|s|-1]);
      SkeletonNext(s, |s| - 1);
      MarksAreBare();
      assert s[..|s|] == s;
    }
  }

  lemma {:induction false} HyphensAreMinuses(s: string)
    ensures |Hyphens(s)| == |s| && MINUS !in Hyphens(s)
    ensures forall k :: 0 <= k < |s| ==> Hyphens(s)[k] == s[k] || (s[k] == MINUS && Hyphens(s)[k] == '-')
    decreases |s|
  {
    if s != [] {
      HyphensAreMinuses(s[1..]);
    }
  }

  lemma {:induction false} SqueezedIsDense(s: string)
    ensures Dense(Squeezed(s)) == Dense(s)
    decreases |s|
  {
    if s != "" {
      SqueezedIsDense(s[1..]);
      assert s == [s[0]] + s[1..];
      DenseAppend([s[0]], s[1..]);
      DenseAppend(" ", Squeezed(s[1..]));
      DenseAppend([s[0]], Squeezed(s[1..]));
      DenseOne(' ');
      DenseOne(s[0]);
    }
  }

  lemma {:induction false} TrimmedIsDense(s: string)
    ensures Dense(Trimmed(s)) == Dense(s)
    decreases |s|
  {
    if s != "" && s[0] == ' ' {
      TrimmedIsDense(s[1..]);
      assert s == [s[0]] + s[1..];
      DenseAppend([s[0]], s[1..]);
      DenseOne(' ');
    } else if s != "" && s[|s|-1] == ' ' {
      TrimmedIsDense(s[..|s|-1]);
    }
  }

  /** White space is single spaces, none of them next to another. */
  predicate SingleSpaced(s: string) {
    forall k :: 0 <= k < |s| && IsSpace(s[k]) ==> s[k] == ' ' && (k + 1 < |s| ==> !IsSpace(s[k+1]))
  }

  lemma {:induction false} SqueezedIsSingle(s: string)
    ensures SingleSpaced(Squeezed(s)) && (s != "" ==> Squeezed(s) != "" && IsSpace(Squeezed(s)[0]) == IsSpace(s[0]))
    decreases |s|
  {
    if s != "" {
      SqueezedIsSingle(s[1..]);
    }
  }

  lemma {:induction false} TrimmedIsTidy(s: string)
    requires SingleSpaced(s)
    ensures var t := Trimmed(s); SingleSpaced(t) && (t != "" ==> !IsSpace(t[0]) && !IsSpace(t[|t|-1]))
    decreases |s|
  {
    if s != "" && s[0] == ' ' {
      TrimmedIsTidy(s[1..]);
    } else if s != "" && s[|s|-1] == ' ' {
      TrimmedIsTidy(s[..|s|-1]);
    }
  }

  /** Single spaces only, none at either end. */
  predicate Tidy(s: string) {
    SingleSpaced(s) && (s != "" ==> !IsSpace(s[0]) && !IsSpace(s[|s|-1]))
  }

  /** Scripts at the top level; a script without an argument rejects the formula. */
  method RewriteScripts(s: string, lexicon: Lexicon) returns (out: Option<string>)
    ensures out.Some? ==> Skeleton(out.value) == Skeleton(s) && Respelled(s, out.value, lexicon)
    ensures out.None? ==> Unreadable(s, lexicon)
  {
    hide Skeleton, Bare, Tiles, WrittenOf, ArgAt, ArgOf, IsForm, InnerRespelled;
    var text := "";
    var i := 0;
    ghost var pieces: seq<Piece> := [];
    NoPieces();
    assert s[..0] == "";
    while i < |s|
      invariant 0 <= i <= |s|
      invariant Skeleton(text) == Skeleton(s[..i])
      invariant Tiles(pieces, i) && WrittenOf(pieces) == text && forall p :: p in pieces ==> TopPiece(s, p, lexicon)
    {
      var ch := s[i];
      SkeletonNext(s, i);
      if IsMark(ch) && i > 0 {
        var arg := ScriptArg(s, i + 1, lexicon);
        if arg.NoArg? {
          return None;
        }
        var inner := InformalizeInner(arg.content, lexicon);
        var written := WriteScript(ch, inner);
        ScriptRead(s, i, arg.next);
        SkeletonAppend(text, written);
        PushPiece(pieces, i, Piece(i, arg.next, written));
        assert TopPiece(s, Piece(i, arg.next, written), lexicon);
        pieces := pieces + [Piece(i, arg.next, written)];
        text := text + written;
        i := arg.next;
      } else {
        SkeletonAppend(text, [ch]);
        SkeletonOne(ch);
        PushPiece(pieces, i, Piece(i, i + 1, [ch]));
        pieces := pieces + [Piece(i, i + 1, [ch])];
        text := text + [ch];
        i := i + 1;
      }
    }
    assert s[..i] == s;
    assert Tiled(s, text, pieces, lexicon);
    out := Some(text);
  }

  /** The text with its superscripts spelled, its scripts respelled, and its minus signs perhaps as hyphens. */
  ghost predicate Typed(s: string, typed: string, lexicon: Lexicon) {
    exists spelled, scripted ::
      && SuperscriptsSpelled(s, spelled) && Respelled(spelled, scripted, lexicon)
      && (typed == scripted || typed == Hyphens(scripted))
  }

  /** A spelling of the superscripts leaves some mark without an argument. */
  ghost predicate Rejected(s: string, lexicon: Lexicon) {
    exists spelled :: SuperscriptsSpelled(s, spelled) && Unreadable(spelled, lexicon)
  }

  /**
    From superscript spelling on.  Whatever is drawn, the result has the skeleton of the text, but for
    leading zeros when their rewriting was chosen: then only zeros before a point and a digit are gone,
    exactly the leading ones of `typed`, which is the text with its scripts and minus signs respelled.
    White space apart, the result is `typed` without those zeros; its own white space is tidy.
   */
  method Rewrite(s: string, lexicon: Lexicon) returns (out: Option<string>, zerosDropped: bool, ghost typed: string)
    ensures out.Some? ==> out.value != "" && ThinnedTo(Skeleton(s), Skeleton(out.value)) && Tidy(out.value)
    ensures out.Some? && !zerosDropped ==> Skeleton(out.value) == Skeleton(s)
    ensures out.Some? ==> Skeleton(typed) == Skeleton(s) && Typed(s, typed, lexicon)
    ensures out.Some? ==> Skeleton(out.value) == Skeleton(if zerosDropped then WithoutLeadingZeros(typed, 0) else typed)
    ensures out.Some? ==> Dense(out.value) == Dense(if zerosDropped then WithoutLeadingZeros(typed, 0) else typed)
    ensures out.None? ==> Rejected(s, lexicon) || (Typed(s, typed, lexicon) && Dense(typed) == "")
  {
    hide Skeleton, Dense, Squeezed, Trimmed, Hyphens, WithoutLeadingZeros, ThinnedTo, SuperscriptsSpelled, Respelled, Unreadable,
         OperatorsSpaced, SingleSpaced;
    zerosDropped, typed := false, "";
    var spelled := SpellSuperscripts(s);
    var scripted := RewriteScripts(spelled, lexicon);
    if scripted.None? {
      return None, false, "";
    }
    var text := scripted.value;
    var r := Draw();
    if r < 0.4 {
      HyphensKeepSkeleton(text);
      text := Hyphens(text);
    }
    typed := text;
    assert Typed(s, typed, lexicon);
    ThinnedToItself(Skeleton(s));
    LeadingZerosThin(typed, 0);
    assert typed[0..] == typed;
    r := Draw();
    if r < 0.3 {
      text := DropLeadingZeros(text);
      zerosDropped := true;
    }
    r := Draw();
    if r < 0.5 {
      text := SpaceOperators(text, lexicon);
    }
    SqueezedKeepsSkeleton(text);
    SqueezedIsDense(text);
    SqueezedIsSingle(text);
    TrimmedKeepsSkeleton(Squeezed(text));
    TrimmedIsDense(Squeezed(text));
    TrimmedIsTidy(Squeezed(text));
    text := Trimmed(Squeezed(text));
    DenseNothing(typed);
    out := if text == "" then None else Some(text);
  }

  lemma DenseNothing(s: string)
    ensures Dense("") == ""
    ensures Dense(WithoutLeadingZeros(s, 0)) == "" ==> Dense(s) == ""
  {
    if Dense(WithoutLeadingZeros(s, 0)) == "" {
      ZerosLeavePoints(s, 0);
      assert s[0..] == s;
    }
  }

  /** What is left of a text without its leading zeros is empty only where it had no character but white space. */
  lemma {:induction false} ZerosLeavePoints(s: string, i: nat)
    requires i <= |s| && Dense(WithoutLeadingZeros(s, i)) == ""
    ensures Dense(s[i..]) == ""
    decreases |s| - i
  {
    hide Dense;
    if i == |s| {
      assert s[i..] == WithoutLeadingZeros(s, i);
    } else {
      DenseFrom(s, i);
      if LeadingZero(s, i) {
        assert WithoutLeadingZeros(s, i) == WithoutLeadingZeros(s, i + 1);
        DenseFrom(s, i + 1);
        DenseOne('.');
        ZerosLeavePoints(s, i + 1);
        assert false;
      } else {
        DenseAppend([s[i]], WithoutLeadingZeros(s, i + 1));
        ZerosLeavePoints(s, i + 1);
      }
    }
  }

  lemma DenseFrom(s: string, i: nat)
    requires i < |s|
    ensures Dense(s[i..]) == Dense([s[i]]) + Dense(s[i+1..])
  {
    assert s[i..] == [s[i]] + s[i+1..];
    DenseAppend([s[i]], s[i+1..]);
  }

  // ---- reading bare scripts back ----

  /**
    A mark with a bare argument is read back as that argument, before any text, exactly when no letter
    follows it: `x` with a raised 2, spelled with a caret before a 3, becomes `x^23`.
   */
  lemma BareScriptReadsBackIff(marker: char, arg: string, rest: string, lexicon: Lexicon)
    requires IsMark(marker) && arg != "" && forall c :: c in arg ==> IsLetter(c, lexicon) && c != '('
    ensures ArgAt([marker] + arg + rest, 1, 1 + |arg|, lexicon) <==> rest == "" || !IsLetter(rest[0], lexicon)
  {
    var s := [marker] + arg + rest;
    assert s[1..1 + |arg|] == arg;
    assert forall k :: 0 <= k < |arg| ==> s[1 + k] == arg[k] && arg[k] in arg;
    assert s[1] == arg[0];
    assert rest != "" ==> s[1 + |arg|] == rest[0];
    assert forall k :: 1 <= k < 1 + |arg| ==> s[k] == arg[k-1];
  }
}
