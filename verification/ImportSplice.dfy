/**
  Guarding dynamic imports by splicing text into the source: positions are collected while walking
  the syntax tree and inserted from the last to the first.
 */
module ImportSplice {
  import opened Wrappers
  import opened StableSort

  /** A run of source text and nodes; a node's own run is its `body`. */
  datatype Syntax = Nothing | Text(text: string, rest: Syntax) | Node(isImport: bool, body: Syntax, rest: Syntax)

  const OPEN := "__yaImportFresh(() => "
  const CLOSE := ")"

  datatype Edit = Edit(offset: nat, text: string)

  function Print(t: Syntax): string {
    match t
    case Nothing => ""
    case Text(text, rest) => text + Print(rest)
    case Node(_, body, rest) => Print(body) + Print(rest)
  }

  /** The print of the tree in which every import node is wrapped once. */
  function Wrapped(t: Syntax): string {
    match t
    case Nothing => ""
    case Text(text, rest) => text + Wrapped(rest)
    case Node(isImport, body, rest) =>
      (if isImport then OPEN + Wrapped(body) + CLOSE else Wrapped(body)) + Wrapped(rest)
  }

  /** What the walk pushes: both positions of a node before those of the nodes inside it. */
  function Collected(t: Syntax, at: nat): seq<Edit> {
    match t
    case Nothing => []
    case Text(text, rest) => Collected(rest, at + |text|)
    case Node(isImport, body, rest) =>
      var end := at + |Print(body)|;
      (if isImport then [Edit(at, OPEN), Edit(end, CLOSE)] else []) + Collected(body, at) + Collected(rest, end)
  }

  /** The same positions in source order. */
  function Edits(t: Syntax, at: nat): seq<Edit> {
    match t
    case Nothing => []
    case Text(text, rest) => Edits(rest, at + |text|)
    case Node(isImport, body, rest) =>
      var end := at + |Print(body)|;
      (if isImport then [Edit(at, OPEN)] + Edits(body, at) + [Edit(end, CLOSE)] else Edits(body, at)) + Edits(rest, end)
  }

  function Insert(code: string, edit: Edit): string {
    if edit.offset <= |code| then code[..edit.offset] + edit.text + code[edit.offset..] else code + edit.text
  }

  /** Insert one edit after the other. */
  function Splice(code: string, edits: seq<Edit>): string
    decreases |edits|
  {
    if edits == [] then code else Splice(Insert(code, edits[0]), edits[1..])
  }

  /** Insert the edits from the last to the first. */
  function Unwind(code: string, edits: seq<Edit>): string
    decreases |edits|
  {
    if edits == [] then code else Unwind(Insert(code, edits[|edits|-1]), edits[..|edits|-1])
  }

  lemma {:induction false} UnwindAppend(code: string, a: seq<Edit>, b: seq<Edit>)
    ensures Unwind(code, a + b) == Unwind(Unwind(code, b), a)
    decreases |b|
  {
    if b == [] {
      assert a + b == a;
    } else {
      assert (a + b)[..|a + b|-1] == a + b[..|b|-1];
      UnwindAppend(Insert(code, b[|b|-1]), a, b[..|b|-1]);
    }
  }

  function Around(before: string, middle: string, after: string): string {
    before + middle + after
  }

  lemma Regroup(before: string, x: string, y: string, after: string)
    ensures Around(before, x + y, after) == Around(before + x, y, after) == Around(before, x, y + after)
  {
    assert before + (x + y) + after == (before + x) + y + after;
    assert before + (x + y) + after == before + x + (y + after);
  }

  lemma UnwindNone(code: string)
    ensures Unwind(code, []) == code
  {
  }

  lemma UnwindOne(before: string, after: string, edit: Edit)
    requires edit.offset == |before|
    ensures Unwind(Around(before, "", after), [edit]) == Around(before, edit.text, after)
  {
    var code := Around(before, "", after);
    assert code[..|before|] == before && code[|before|..] == after;
    UnwindNone(Insert(code, edit));
    assert [edit][..0] == [];
  }

  /** Inserting the edits from the last to the first turns the printed tree into the wrapped one. */
  lemma {:induction false} UnwindingWraps(t: Syntax, before: string, after: string)
    ensures Unwind(Around(before, Print(t), after), Edits(t, |before|)) == Around(before, Wrapped(t), after)
    decreases t, 0
  {
    hide Unwind, Around;
    match t
    case Nothing =>
      UnwindNone(Around(before, "", after));
    case Text(text, rest) =>
      Regroup(before, text, Print(rest), after);
      Regroup(before, text, Wrapped(rest), after);
      UnwindingWraps(rest, before + text, after);
    case Node(isImport, body, rest) =>
      UnwindingWraps(rest, before + Print(body), after);
      Regroup(before, Print(body), Print(rest), after);
      Regroup(before, Print(body), Wrapped(rest), after);
      var inner := if isImport then OPEN + Wrapped(body) + CLOSE else Wrapped(body);
      Regroup(before, inner, Wrapped(rest), after);
      var own := if isImport then [Edit(|before|, OPEN)] + Edits(body, |before|) + [Edit(|before| + |Print(body)|, CLOSE)]
                 else Edits(body, |before|);
      UnwindAppend(Around(before, Print(t), after), own, Edits(rest, |before| + |Print(body)|));
      if isImport {
        UnwindingImport(body, before, Wrapped(rest) + after);
      } else {
        UnwindingWraps(body, before, Wrapped(rest) + after);
      }
  }

  lemma {:induction false} UnwindingImport(body: Syntax, before: string, after: string)
    ensures Unwind(Around(before, Print(body), after),
                   [Edit(|before|, OPEN)] + Edits(body, |before|) + [Edit(|before| + |Print(body)|, CLOSE)])
            == Around(before, OPEN + Wrapped(body) + CLOSE, after)
    decreases body, 1
  {
    hide Unwind, Around, Print, Wrapped, Edits;
    var code := Around(before, Print(body), after);
    var open, close := Edit(|before|, OPEN), Edit(|before| + |Print(body)|, CLOSE);
    UnwindAppend(code, [open] + Edits(body, |before|), [close]);
    Regroup(before, Print(body), "", after);
    assert Print(body) + "" == Print(body);
    UnwindOne(before + Print(body), after, close);
    Regroup(before, Print(body), CLOSE, after);
    UnwindAppend(Around(before, Print(body), CLOSE + after), [open], Edits(body, |before|));
    UnwindingWraps(body, before, CLOSE + after);
    Regroup(before, "", Wrapped(body), CLOSE + after);
    assert "" + Wrapped(body) == Wrapped(body);
    UnwindOne(before, Wrapped(body) + (CLOSE + after), open);
    Regroup(before, OPEN, Wrapped(body), CLOSE + after);
    Regroup(before, OPEN + Wrapped(body), CLOSE, after);
  }

  // ---- which orders of insertion are right ----

  ghost predicate Ascending(edits: seq<Edit>) {
    forall i, j :: 0 <= i < j < |edits| ==> edits[i].offset <= edits[j].offset
  }

  ghost predicate Descending(edits: seq<Edit>) {
    forall i, j :: 0 <= i < j < |edits| ==> edits[i].offset >= edits[j].offset
  }

  /** One of the orders a sort by falling offset may leave the edits in. */
  ghost predicate SortedOrder(order: seq<Edit>, edits: seq<Edit>) {
    multiset(order) == multiset(edits) && Descending(order)
  }

  /** No import ends where another begins. */
  ghost predicate Separated(edits: seq<Edit>) {
    forall i, j :: 0 <= i < |edits| && 0 <= j < |edits| && edits[i].offset == edits[j].offset ==>
      edits[i].text == edits[j].text
  }

  ghost predicate Within(edits: seq<Edit>, low: nat, high: nat) {
    forall e :: e in edits ==> low <= e.offset <= high && (e.text == OPEN || e.text == CLOSE)
  }

  lemma {:induction false} EditsAreOrdered(t: Syntax, at: nat)
    ensures Ascending(Edits(t, at)) && Within(Edits(t, at), at, at + |Print(t)|)
  {
    hide Ascending, Within;
    match t
    case Nothing => NoneOrdered(at);
    case Text(text, rest) =>
      EditsAreOrdered(rest, at + |text|);
      NoneOrdered(at);
      AscendingJoin([], Edits(rest, at + |text|), at, at + |text|, at + |Print(t)|);
      assert [] + Edits(rest, at + |text|) == Edits(rest, at + |text|);
    case Node(isImport, body, rest) =>
      var end := at + |Print(body)|;
      EditsAreOrdered(body, at);
      EditsAreOrdered(rest, end);
      if isImport {
        OneOrdered(Edit(at, OPEN));
        OneOrdered(Edit(end, CLOSE));
        AscendingJoin([Edit(at, OPEN)], Edits(body, at), at, at, end);
        AscendingJoin([Edit(at, OPEN)] + Edits(body, at), [Edit(end, CLOSE)], at, end, end);
        AscendingJoin([Edit(at, OPEN)] + Edits(body, at) + [Edit(end, CLOSE)], Edits(rest, end), at, end, at + |Print(t)|);
      } else {
        AscendingJoin(Edits(body, at), Edits(rest, end), at, end, at + |Print(t)|);
      }
  }

  lemma NoneOrdered(at: nat)
    ensures Ascending([]) && Within([], at, at)
  {
  }

  lemma OneOrdered(edit: Edit)
    requires edit.text == OPEN || edit.text == CLOSE
    ensures Ascending([edit]) && Within([edit], edit.offset, edit.offset)
  {
  }

  lemma {:induction false} CollectedAreTheEdits(t: Syntax, at: nat)
    ensures multiset(Collected(t, at)) == multiset(Edits(t, at))
  {
    hide Collected, Edits, Print;
    UnfoldPositions(t, at);
    match t
    case Nothing =>
    case Text(text, rest) => CollectedAreTheEdits(rest, at + |text|);
    case Node(isImport, body, rest) =>
      var end := at + |Print(body)|;
      CollectedAreTheEdits(body, at);
      CollectedAreTheEdits(rest, end);
      SameItems(Edit(at, OPEN), Edit(end, CLOSE), Collected(body, at), Edits(body, at), Collected(rest, end), Edits(rest, end));
  }

  lemma UnfoldPositions(t: Syntax, at: nat)
    ensures t.Nothing? ==> Collected(t, at) == Edits(t, at) == []
    ensures t.Text? ==> Collected(t, at) == Collected(t.rest, at + |t.text|) && Edits(t, at) == Edits(t.rest, at + |t.text|)
    ensures t.Node? ==>
              var end := at + |Print(t.body)|;
              var a, b, c, d := Collected(t.body, at), Edits(t.body, at), Collected(t.rest, end), Edits(t.rest, end);
              if t.isImport
              then Collected(t, at) == [Edit(at, OPEN), Edit(end, CLOSE)] + a + c
                   && Edits(t, at) == [Edit(at, OPEN)] + b + [Edit(end, CLOSE)] + d
              else Collected(t, at) == a + c && Edits(t, at) == b + d
  {
  }

  lemma SameItems(x: Edit, y: Edit, a: seq<Edit>, b: seq<Edit>, c: seq<Edit>, d: seq<Edit>)
    requires multiset(a) == multiset(b) && multiset(c) == multiset(d)
    ensures multiset([x, y] + a + c) == multiset([x] + b + [y] + d)
    ensures multiset(a + c) == multiset(b + d)
  {
  }

  lemma AscendingJoin(a: seq<Edit>, b: seq<Edit>, low: nat, middle: nat, high: nat)
    requires low <= middle <= high
    requires Ascending(a) && Within(a, low, middle) && Ascending(b) && Within(b, middle, high)
    ensures Ascending(a + b) && Within(a + b, low, high)
  {
    forall i, j | 0 <= i < j < |a + b| ensures (a + b)[i].offset <= (a + b)[j].offset {
      assert i < |a| ==> a[i] in a;
      assert j >= |a| ==> b[j - |a|] in b;
    }
  }

  lemma FirstIsLast(edits: seq<Edit>, order: seq<Edit>)
    requires edits != [] && Ascending(edits) && Separated(edits) && SortedOrder(order, edits)
    ensures |order| == |edits| && order[0] == edits[|edits|-1]
  {
    assert |order| == |multiset(order)| == |multiset(edits)| == |edits|;
    var last := edits[|edits|-1];
    assert order[0] in multiset(edits) && last in multiset(order);
    var i :| 0 <= i < |edits| && edits[i] == order[0];
    var j :| 0 <= j < |order| && order[j] == last;
    assert edits[i].offset == last.offset;
  }

  lemma DropBoth(edits: seq<Edit>, order: seq<Edit>)
    requires edits != [] && |order| == |edits| && order[0] == edits[|edits|-1]
    requires Ascending(edits) && Separated(edits) && SortedOrder(order, edits)
    ensures var before := edits[..|edits|-1];
            Ascending(before) && Separated(before) && SortedOrder(order[1..], before)
  {
    assert edits == edits[..|edits|-1] + [edits[|edits|-1]];
    assert order == [order[0]] + order[1..];
    assert multiset(order[1..]) == multiset(order) - multiset{order[0]};
  }

  /** Ties agree, so there is only one sorted order: the source order backwards. */
  lemma {:induction false} OnlyOneOrder(code: string, edits: seq<Edit>, order: seq<Edit>)
    requires Ascending(edits) && Separated(edits) && SortedOrder(order, edits)
    ensures Splice(code, order) == Unwind(code, edits)
    decreases |edits|
  {
    hide Ascending, Separated, Insert;
    if edits == [] {
      assert |order| == |multiset(order)| == |multiset(edits)|;
    } else {
      FirstIsLast(edits, order);
      DropBoth(edits, order);
      OnlyOneOrder(Insert(code, order[0]), edits[..|edits|-1], order[1..]);
    }
  }

  function Backwards(edits: seq<Edit>): (r: seq<Edit>)
    ensures |r| == |edits| && forall i :: 0 <= i < |edits| ==> r[i] == edits[|edits| - 1 - i]
  {
    if edits == [] then [] else [edits[|edits|-1]] + Backwards(edits[..|edits|-1])
  }

  lemma {:induction false} BackwardsUnwinds(code: string, edits: seq<Edit>)
    ensures Splice(code, Backwards(edits)) == Unwind(code, edits)
    ensures multiset(Backwards(edits)) == multiset(edits)
    decreases |edits|
  {
    if edits != [] {
      BackwardsUnwinds(Insert(code, edits[|edits|-1]), edits[..|edits|-1]);
      assert edits == edits[..|edits|-1] + [edits[|edits|-1]];
    }
  }

  lemma {:induction false} SpliceAppend(code: string, a: seq<Edit>, b: seq<Edit>)
    ensures Splice(code, a + b) == Splice(Splice(code, a), b)
    decreases |a|
  {
    if a == [] {
      assert a + b == b;
    } else {
      assert (a + b)[1..] == a[1..] + b;
      SpliceAppend(Insert(code, a[0]), a[1..], b);
    }
  }

  lemma {:induction false} SpliceGrows(code: string, edits: seq<Edit>)
    ensures |Splice(code, edits)| >= |code|
    decreases |edits|
  {
    if edits != [] { SpliceGrows(Insert(code, edits[0]), edits[1..]); }
  }

  lemma InsertInjective(a: string, b: string, edit: Edit)
    requires |a| == |b| && a != b && edit.offset <= |a|
    ensures |Insert(a, edit)| == |Insert(b, edit)| && Insert(a, edit) != Insert(b, edit)
  {
    var o, k := edit.offset, |edit.text|;
    var i :| 0 <= i < |a| && a[i] != b[i];
    if i < o {
      assert Insert(a, edit)[i] == a[i] && Insert(b, edit)[i] == b[i];
    } else {
      assert Insert(a, edit)[i + k] == a[i] && Insert(b, edit)[i + k] == b[i];
    }
  }

  lemma {:induction false} SpliceInjective(a: string, b: string, edits: seq<Edit>)
    requires |a| == |b| && a != b && forall e :: e in edits ==> e.offset <= |a|
    ensures Splice(a, edits) != Splice(b, edits)
    decreases |edits|
  {
    if edits != [] {
      InsertInjective(a, b, edits[0]);
      assert forall e :: e in edits[1..] ==> e in edits;
      SpliceInjective(Insert(a, edits[0]), Insert(b, edits[0]), edits[1..]);
    }
  }

  lemma TiedInsertionsDiffer(code: string, x: Edit, y: Edit)
    requires x.offset == y.offset <= |code|
    requires (x.text == OPEN && y.text == CLOSE) || (x.text == CLOSE && y.text == OPEN)
    ensures var a, b := Insert(Insert(code, x), y), Insert(Insert(code, y), x); |a| == |b| >= |code| && a != b
  {
    var o := x.offset;
    assert Insert(Insert(code, x), y)[o] == y.text[0];
    assert Insert(Insert(code, y), x)[o] == x.text[0];
  }

  function Exchanged(order: seq<Edit>, k: nat): seq<Edit>
    requires k + 1 < |order|
  {
    order[..k] + [order[k+1], order[k]] + order[k+2..]
  }

  lemma ExchangeKeepsOrder(order: seq<Edit>, k: nat)
    requires k + 1 < |order| && Descending(order) && order[k].offset == order[k+1].offset
    ensures SortedOrder(Exchanged(order, k), order)
  {
    assert order == order[..k] + [order[k], order[k+1]] + order[k+2..];
    var other := Exchanged(order, k);
    assert forall i :: 0 <= i < |order| ==> other[i].offset == order[i].offset;
  }

  /** Exchanging two neighbours at one offset gives another sorted order and another text. */
  lemma ExchangedTieDiffers(code: string, order: seq<Edit>, k: nat)
    requires k + 1 < |order| && Within(order, 0, |code|)
    requires order[k].offset == order[k+1].offset && order[k].text != order[k+1].text
    ensures Splice(code, Exchanged(order, k)) != Splice(code, order)
  {
    hide Splice, Insert;
    var head, x, y, tail := order[..k], order[k], order[k+1], order[k+2..];
    assert order == head + [x, y] + tail;
    assert x in order && y in order && forall e :: e in tail ==> e in order;
    SpliceTwo(code, head, x, y, tail);
    SpliceTwo(code, head, y, x, tail);
    var c := Splice(code, head);
    SpliceGrows(code, head);
    TiedInsertionsDiffer(c, x, y);
    SpliceInjective(Insert(Insert(c, x), y), Insert(Insert(c, y), x), tail);
  }

  lemma SpliceTwo(code: string, head: seq<Edit>, x: Edit, y: Edit, tail: seq<Edit>)
    ensures Splice(code, head + [x, y] + tail) == Splice(Insert(Insert(Splice(code, head), x), y), tail)
  {
    assert head + [x, y] + tail == head + ([x, y] + tail);
    SpliceAppend(code, head, [x, y] + tail);
    assert ([x, y] + tail)[1..] == [y] + tail;
    assert ([y] + tail)[1..] == tail;
  }

  lemma {:induction false} AdjacentTie(order: seq<Edit>, i: nat, j: nat) returns (k: nat)
    requires i < j < |order| && Descending(order)
    requires order[i].offset == order[j].offset && order[i].text != order[j].text
    ensures k + 1 < |order| && order[k].offset == order[k+1].offset && order[k].text != order[k+1].text
    decreases j - i
  {
    if order[i+1].text != order[i].text {
      k := i;
    } else {
      k := AdjacentTie(order, i + 1, j);
    }
  }

  /** Inserting the collected texts by falling offset wraps every import, in whatever order ties come out. */
  ghost predicate AlwaysWraps(t: Syntax) {
    forall order :: SortedOrder(order, Edits(t, 0)) ==> Splice(Print(t), order) == Wrapped(t)
  }

  lemma UnwindingTheTree(t: Syntax)
    ensures Unwind(Print(t), Edits(t, 0)) == Wrapped(t)
  {
    hide Unwind, Edits, Print, Wrapped, Around;
    UnwindingWraps(t, "", "");
    AroundNothing(Print(t));
    AroundNothing(Wrapped(t));
  }

  lemma AroundNothing(code: string)
    ensures Around("", code, "") == code
  {
  }

  lemma SeparatedWraps(t: Syntax, order: seq<Edit>)
    requires Separated(Edits(t, 0)) && SortedOrder(order, Edits(t, 0))
    ensures Splice(Print(t), order) == Wrapped(t)
  {
    hide Splice, Unwind, Edits, Print, Wrapped, Separated, SortedOrder;
    EditsAreOrdered(t, 0);
    OnlyOneOrder(Print(t), Edits(t, 0), order);
    UnwindingTheTree(t);
  }

  lemma BackwardsDescends(edits: seq<Edit>, low: nat, high: nat)
    requires Ascending(edits) && Within(edits, low, high)
    ensures Descending(Backwards(edits)) && Within(Backwards(edits), low, high)
  {
    hide Backwards;
    forall e | e in Backwards(edits) ensures e in edits {
    }
  }

  lemma TouchingCanBreak(t: Syntax) returns (order: seq<Edit>)
    requires !Separated(Edits(t, 0))
    ensures SortedOrder(order, Edits(t, 0)) && Splice(Print(t), order) != Wrapped(t)
  {
    hide Splice, Unwind, Edits, Print, Wrapped, Within, Backwards, Exchanged;
    var edits := Edits(t, 0);
    EditsAreOrdered(t, 0);
    BackwardsDescends(edits, 0, |Print(t)|);
    BackwardsUnwinds(Print(t), edits);
    UnwindingTheTree(t);
    var right := Backwards(edits);
    var i, j :| 0 <= i < j < |edits| && edits[i].offset == edits[j].offset && edits[i].text != edits[j].text;
    var k := AdjacentTie(right, |edits| - 1 - j, |edits| - 1 - i);
    ExchangedTieDiffers(Print(t), right, k);
    ExchangeKeepsOrder(right, k);
    order := Exchanged(right, k);
  }

  /** The splice is the tree transformation exactly when no import ends where another begins. */
  lemma WrapsIffSeparated(t: Syntax)
    ensures AlwaysWraps(t) <==> Separated(Edits(t, 0))
  {
    if Separated(Edits(t, 0)) {
      forall order | SortedOrder(order, Edits(t, 0)) ensures Splice(Print(t), order) == Wrapped(t) {
        SeparatedWraps(t, order);
      }
    } else {
      var order := TouchingCanBreak(t);
    }
  }

  // ---- the plugin ----

  const HEADER := "import { importFresh as __yaImportFresh } from \"virtual:ya-manual-reload\";\n"

  class Positions {
    var items: seq<Edit>

    constructor ()
      ensures items == []
    {
      items := [];
    }

    /** Walk the tree, pushing both positions of every import node. */
    method DynamicImports(t: Syntax, at: nat)
      modifies this
      ensures items == old(items) + Collected(t, at)
      decreases t
    {
      match t
      case Nothing =>
      case Text(text, rest) =>
        DynamicImports(rest, at + |text|);
      case Node(isImport, body, rest) =>
        var end := at + |Print(body)|;
        if isImport {
          items := items + [Edit(at, OPEN), Edit(end, CLOSE)];
        }
        DynamicImports(body, at);
        DynamicImports(rest, end);
    }
  }

  function Falling(): Edit -> int {
    (edit: Edit) => 0 - edit.offset as int
  }

  /** The sort the plugin calls: some order by falling offset. */
  lemma SortFalls(items: seq<Edit>)
    ensures SortedOrder(Sort(items, Falling()), items)
  {
    SortSorts(items, Falling());
    var order := Sort(items, Falling());
    forall i, j | 0 <= i < j < |order| ensures order[i].offset >= order[j].offset {
      assert Falling()(order[i]) <= Falling()(order[j]);
    }
  }

  method InsertAll(source: string, order: seq<Edit>) returns (code: string)
    ensures code == Splice(source, order)
  {
    code := source;
    var i := 0;
    while i < |order|
      invariant 0 <= i <= |order|
      invariant Splice(code, order[i..]) == Splice(source, order)
    {
      assert order[i..][1..] == order[i+1..];
      code := Insert(code, order[i]);
      i := i + 1;
    }
  }

  /** `applies` is the file filter; nothing is returned for a file it rejects or one without imports. */
  method Transform(t: Syntax, applies: bool) returns (out: Option<string>)
    ensures out == None <==> !applies || Edits(t, 0) == []
    ensures out.Some? && Separated(Edits(t, 0)) ==> out.value == HEADER + Wrapped(t)
  {
    hide Splice, Edits, Collected, Print, Wrapped, Separated;
    if !applies {
      return None;
    }
    var positions := new Positions();
    positions.DynamicImports(t, 0);
    CollectedAreTheEdits(t, 0);
    assert |multiset(Edits(t, 0))| == |Edits(t, 0)| && |multiset(positions.items)| == |positions.items|;
    if |positions.items| == 0 {
      return None;
    }
    var order := Sort(positions.items, Falling());
    SortFalls(positions.items);
    var code := InsertAll(Print(t), order);
    if Separated(Edits(t, 0)) {
      SeparatedWraps(t, order);
    }
    out := Some(HEADER + code);
  }
}
