/**
  Which read requests of a viewer the broker takes up.  A request is admitted in one step; its
  response arrives later and turns it into an open reader or ends it.
 */
module BrokerAdmission {

  const MAX_PENDING: nat := 8
  const MAX_READERS: nat := 8
  const MAX_FILES: nat := 64

  datatype Broker = Broker(
    allowed: set<string>,
    closed: bool,
    pending: nat,
    discarding: nat,
    readers: nat,
    asked: set<string>,
    fileCount: nat)

  datatype Reply = NoReply | Refused(status: nat) | Reading

  datatype Event =
    | Request(path: string, ownViewer: bool, hasPort: bool)
    | Response(ok: bool)
    | Discarded
    | ReaderGone
    | Close
    | ReadersCancelled

  function Init(allowed: set<string>): Broker {
    Broker(allowed, false, 0, 0, 0, {}, 0)
  }

  function OnRequest(b: Broker, path: string, ownViewer: bool, hasPort: bool): (Broker, Reply) {
    if !hasPort || b.closed then (b, NoReply)
    else if !ownViewer || path !in b.allowed || b.pending >= MAX_PENDING || b.readers >= MAX_READERS then
      (b, Refused(403))
    else
      var c := b.(asked := b.asked + {path});
      if |c.asked| > MAX_FILES then (c, Refused(429)) else (c.(pending := b.pending + 1), Reading)
  }

  /** `pending` counts a request from its admission until its handler has finished. */
  function OnResponse(b: Broker, ok: bool): Broker {
    if b.pending <= b.discarding then b
    else if !ok then b.(pending := b.pending - 1)
    else if b.closed then b.(discarding := b.discarding + 1)
    else b.(pending := b.pending - 1, readers := b.readers + 1, fileCount := b.fileCount + 1)
  }

  function OnDiscarded(b: Broker): Broker {
    if b.discarding == 0 || b.pending == 0 then b
    else b.(pending := b.pending - 1, discarding := b.discarding - 1)
  }

  function Step(b: Broker, e: Event): Broker {
    match e
    case Request(path, ownViewer, hasPort) => OnRequest(b, path, ownViewer, hasPort).0
    case Response(ok) => OnResponse(b, ok)
    case Discarded => OnDiscarded(b)
    case ReaderGone => if b.readers == 0 then b else b.(readers := b.readers - 1)
    case Close => b.(closed := true)
    case ReadersCancelled => if b.closed then b.(readers := 0) else b
  }

  function Run(b: Broker, es: seq<Event>): Broker {
    if es == [] then b else Step(Run(b, es[..|es|-1]), es[|es|-1])
  }

  ghost predicate Inv(b: Broker) {
    && b.pending <= MAX_PENDING
    && b.pending + b.readers <= MAX_PENDING + MAX_READERS - 1
    && b.discarding <= b.pending
    && b.asked <= b.allowed
    && (b.asked == {} ==> b.pending == 0 && b.fileCount == 0)
  }

  lemma {:induction false} RunKeepsInv(b: Broker, es: seq<Event>)
    requires Inv(b)
    ensures Inv(Run(b, es)) && Run(b, es).allowed == b.allowed
  {
    if es != [] {
      RunKeepsInv(b, es[..|es|-1]);
    }
  }

  /** At most 8 requests are pending and at most 15 are pending or open, on every run. */
  lemma AdmissionIsBounded(allowed: set<string>, es: seq<Event>)
    ensures var b := Run(Init(allowed), es);
            b.pending <= 8 && b.pending + b.readers <= 15 && b.asked <= allowed
  {
    RunKeepsInv(Init(allowed), es);
  }

  lemma RunSnoc(b: Broker, es: seq<Event>, e: Event)
    ensures Run(b, es + [e]) == Step(Run(b, es), e)
  {
    assert (es + [e])[..|es|] == es;
  }

  lemma {:induction false} RunAppend(b: Broker, es: seq<Event>, fs: seq<Event>)
    ensures Run(b, es + fs) == Run(Run(b, es), fs)
  {
    hide Step;
    if fs == [] {
      assert es + fs == es;
    } else {
      RunAppend(b, es, fs[..|fs|-1]);
      assert (es + fs)[..|es + fs|-1] == es + fs[..|fs|-1];
    }
  }

  function Repeat(e: Event, n: nat): seq<Event> {
    if n == 0 then [] else Repeat(e, n - 1) + [e]
  }

  lemma {:induction false} RequestsPile(b: Broker, path: string, n: nat)
    requires !b.closed && path in b.allowed && |b.asked + {path}| <= MAX_FILES
    requires b.readers < MAX_READERS && b.pending + n <= MAX_PENDING
    ensures var c := Run(b, Repeat(Request(path, true, true), n));
            c == b.(pending := b.pending + n, asked := if n == 0 then b.asked else b.asked + {path})
  {
    if n > 0 {
      RequestsPile(b, path, n - 1);
      RunSnoc(b, Repeat(Request(path, true, true), n - 1), Request(path, true, true));
      assert b.asked + {path} + {path} == b.asked + {path};
    }
  }

  lemma {:induction false} ResponsesOpen(b: Broker, n: nat)
    requires !b.closed && b.discarding == 0 && b.pending >= n
    ensures Run(b, Repeat(Response(true), n)) ==
            b.(pending := b.pending - n, readers := b.readers + n, fileCount := b.fileCount + n)
  {
    if n > 0 {
      ResponsesOpen(b, n - 1);
      RunSnoc(b, Repeat(Response(true), n - 1), Response(true));
    }
  }

  /** The bound is reached: seven readers, then eight more requests whose responses all arrive. */
  function Crowd(path: string): seq<Event> {
    Repeat(Request(path, true, true), 7) + Repeat(Response(true), 7) +
    Repeat(Request(path, true, true), 8) + Repeat(Response(true), 8)
  }

  lemma FifteenReadersCanBeOpen(allowed: set<string>, path: string)
    requires path in allowed
    ensures Run(Init(allowed), Crowd(path)).readers == 15
  {
    hide Run, Repeat;
    var b0 := Init(allowed);
    RequestsPile(b0, path, 7);
    var b1 := Run(b0, Repeat(Request(path, true, true), 7));
    assert b1.asked == {path};
    ResponsesOpen(b1, 7);
    var b2 := Run(b1, Repeat(Response(true), 7));
    assert b2.asked + {path} == {path};
    RequestsPile(b2, path, 8);
    var b3 := Run(b2, Repeat(Request(path, true, true), 8));
    ResponsesOpen(b3, 8);
    RunAppend(b0, Repeat(Request(path, true, true), 7), Repeat(Response(true), 7));
    RunAppend(b0, Repeat(Request(path, true, true), 7) + Repeat(Response(true), 7), Repeat(Request(path, true, true), 8));
    RunAppend(b0, Repeat(Request(path, true, true), 7) + Repeat(Response(true), 7) + Repeat(Request(path, true, true), 8),
              Repeat(Response(true), 8));
  }

  /** The event admits a request. */
  predicate Admits(b: Broker, e: Event) {
    e.Request? && OnRequest(b, e.path, e.ownViewer, e.hasPort).1 == Reading
  }

  /** Exactly which requests are admitted, and what the others are told. */
  lemma AdmittedIff(b: Broker, path: string, ownViewer: bool, hasPort: bool)
    ensures Admits(b, Request(path, ownViewer, hasPort)) <==>
              && hasPort && !b.closed && ownViewer && path in b.allowed && b.pending < 8 && b.readers < 8
              && |b.asked + {path}| <= 64
    ensures OnRequest(b, path, ownViewer, hasPort).1.NoReply? <==> !hasPort || b.closed
    ensures OnRequest(b, path, ownViewer, hasPort).1 == Refused(429) <==>
              && hasPort && !b.closed && ownViewer && path in b.allowed && b.pending < 8 && b.readers < 8
              && |b.asked + {path}| > 64
    ensures !Admits(b, Request(path, ownViewer, hasPort)) ==>
              Step(b, Request(path, ownViewer, hasPort)) == b.(asked := Step(b, Request(path, ownViewer, hasPort)).asked)
  {
  }

  /** How many requests of a run were admitted. */
  ghost function Admissions(b: Broker, es: seq<Event>): nat {
    if es == [] then 0
    else Admissions(b, es[..|es|-1]) + if Admits(Run(b, es[..|es|-1]), es[|es|-1]) then 1 else 0
  }

  /** The event ends an admitted request without a reader: its response failed, or was discarded after the close. */
  predicate Ends(b: Broker, e: Event) {
    (e == Response(false) && b.pending > b.discarding) || (e == Discarded && b.discarding > 0 && b.pending > 0)
  }

  ghost function Endings(b: Broker, es: seq<Event>): nat {
    if es == [] then 0
    else Endings(b, es[..|es|-1]) + if Ends(Run(b, es[..|es|-1]), es[|es|-1]) then 1 else 0
  }

  /** Every admitted request is still pending, got its reader, or ended without one. */
  lemma {:induction false} AdmittedAreAccountedFor(allowed: set<string>, es: seq<Event>)
    ensures var b := Run(Init(allowed), es);
            Admissions(Init(allowed), es) == b.pending + b.fileCount + Endings(Init(allowed), es)
  {
    if es != [] {
      AdmittedAreAccountedFor(allowed, es[..|es|-1]);
    }
  }

  predicate WithinReaders(b: Broker) {
    b.pending + b.readers <= MAX_READERS
  }

  ghost predicate AlwaysWithin(b: Broker, es: seq<Event>) {
    forall k :: 0 <= k <= |es| ==> WithinReaders(Run(b, es[..k]))
  }

  /** Each request was admitted while requests and readers together were fewer than 8. */
  ghost predicate AdmitsWithin(b: Broker, es: seq<Event>) {
    forall k :: 0 <= k < |es| && Admits(Run(b, es[..k]), es[k]) ==>
      Run(b, es[..k]).pending + Run(b, es[..k]).readers < MAX_READERS
  }

  lemma AlwaysSnoc(b: Broker, es: seq<Event>, e: Event)
    ensures AlwaysWithin(b, es + [e]) <==> AlwaysWithin(b, es) && WithinReaders(Run(b, es + [e]))
    ensures AdmitsWithin(b, es + [e]) <==>
            AdmitsWithin(b, es) && (Admits(Run(b, es), e) ==> Run(b, es).pending + Run(b, es).readers < MAX_READERS)
  {
    hide Run, Admits, WithinReaders;
    var all := es + [e];
    forall k | 0 <= k <= |es| ensures all[..k] == es[..k] {
    }
    assert all[..|all|] == all && all[..|es|] == es && es[..|es|] == es && all[|es|] == e;
    if AlwaysWithin(b, all) {
      assert WithinReaders(Run(b, all[..|all|]));
      forall k | 0 <= k <= |es| ensures WithinReaders(Run(b, es[..k])) {
        assert WithinReaders(Run(b, all[..k]));
      }
    }
    if AdmitsWithin(b, all) {
      forall k | 0 <= k < |es| && Admits(Run(b, es[..k]), es[k])
        ensures Run(b, es[..k]).pending + Run(b, es[..k]).readers < MAX_READERS
      {
        assert all[k] == es[k] && all[..k] == es[..k];
      }
    }
  }

  /**
    Requests and readers together stay within the limit of 8 on a run exactly when each request of it
    was admitted while they were fewer than 8; the code's test looks at each of the two alone.
   */
  lemma {:induction false} EightHoldIff(allowed: set<string>, es: seq<Event>)
    ensures AlwaysWithin(Init(allowed), es) <==> AdmitsWithin(Init(allowed), es)
  {
    hide AlwaysWithin, AdmitsWithin, Admits, Step;
    var b := Init(allowed);
    if es == [] {
      NothingYet(allowed);
    } else {
      var n := |es| - 1;
      EightHoldIff(allowed, es[..n]);
      assert es == es[..n] + [es[n]];
      AlwaysSnoc(b, es[..n], es[n]);
      LastIsWithin(b, es[..n]);
      if WithinReaders(Run(b, es[..n])) {
        WithinStep(Run(b, es[..n]), es[n]);
      }
    }
  }

  lemma NothingYet(allowed: set<string>)
    ensures AlwaysWithin(Init(allowed), []) && AdmitsWithin(Init(allowed), [])
  {
  }

  lemma LastIsWithin(b: Broker, es: seq<Event>)
    ensures AlwaysWithin(b, es) ==> WithinReaders(Run(b, es))
  {
    assert es[..|es|] == es;
  }

  lemma WithinStep(b: Broker, e: Event)
    requires WithinReaders(b)
    ensures WithinReaders(Step(b, e)) <==>
            !(Admits(b, e) && b.pending + b.readers >= MAX_READERS)
  {
  }

  // ---- the file limit is a latch ----

  ghost predicate Latched(b: Broker) {
    |b.asked| > MAX_FILES
  }

  /** A path counts even when its request is refused, so past the limit no request is ever admitted again. */
  lemma {:induction false} LatchedForGood(b: Broker, es: seq<Event>)
    requires Latched(b)
    ensures Latched(Run(b, es)) && b.asked <= Run(b, es).asked && Run(b, es).pending <= b.pending
    ensures Run(b, es).fileCount <= b.fileCount + b.pending - Run(b, es).pending
    ensures forall path, own, port :: OnRequest(Run(b, es), path, own, port).1 != Reading
  {
    if es != [] {
      LatchedForGood(b, es[..|es|-1]);
      LatchedStep(Run(b, es[..|es|-1]), es[|es|-1]);
    }
    LatchedRefuses(Run(b, es));
  }

  lemma LatchedRefuses(b: Broker)
    requires Latched(b)
    ensures forall path, own, port :: OnRequest(b, path, own, port).1 != Reading
  {
    forall path, own, port ensures OnRequest(b, path, own, port).1 != Reading {
      Subsets(b.asked, b.asked + {path});
    }
  }

  lemma LatchedStep(b: Broker, e: Event)
    requires Latched(b)
    ensures Latched(Step(b, e)) && b.asked <= Step(b, e).asked
    ensures Step(b, e).pending <= b.pending && Step(b, e).fileCount + Step(b, e).pending <= b.fileCount + b.pending
  {
    if e.Request? {
      Subsets(b.asked, b.asked + {e.path});
    }
  }

  lemma Subsets(small: set<string>, large: set<string>)
    requires small <= large
    ensures |small| <= |large|
  {
    assert large == small + (large - small);
  }

  /** Ask for each of the paths once, each request ending before the next. */
  function AskAll(paths: seq<string>): seq<Event> {
    if paths == [] then []
    else AskAll(paths[..|paths|-1]) + [Request(paths[|paths|-1], true, true)] + [Response(false)]
  }

  function Elements(paths: seq<string>): set<string> {
    set p | p in paths
  }

  lemma {:induction false} AskAllReaches(allowed: set<string>, paths: seq<string>)
    requires forall p :: p in paths ==> p in allowed
    ensures Run(Init(allowed), AskAll(paths)) == Init(allowed).(asked := Elements(paths))
  {
    if paths == [] {
      assert Elements(paths) == {};
    } else {
      var before, p := paths[..|paths|-1], paths[|paths|-1];
      AskAllReaches(allowed, before);
      RunSnoc(Init(allowed), AskAll(before), Request(p, true, true));
      RunSnoc(Init(allowed), AskAll(before) + [Request(p, true, true)], Response(false));
      assert Elements(paths) == Elements(before) + {p};
    }
  }

  lemma {:induction false} Listing(paths: set<string>) returns (list: seq<string>)
    ensures Elements(list) == paths
  {
    if paths == {} {
      list := [];
    } else {
      var p :| p in paths;
      var rest := Listing(paths - {p});
      list := rest + [p];
      assert Elements(list) == Elements(rest) + {p};
    }
  }

  ghost predicate CanLatch(allowed: set<string>) {
    exists es :: Latched(Run(Init(allowed), es))
  }

  /** A viewer can lock itself out exactly when it was granted more than 64 files. */
  lemma CanLatchIff(allowed: set<string>)
    ensures CanLatch(allowed) <==> |allowed| > MAX_FILES
  {
    hide Run, AskAll;
    if |allowed| > MAX_FILES {
      var list := Listing(allowed);
      assert forall p :: p in list ==> p in Elements(list);
      AskAllReaches(allowed, list);
      assert Latched(Run(Init(allowed), AskAll(list)));
    }
    forall es ensures |Run(Init(allowed), es).asked| <= |allowed| {
      AdmissionIsBounded(allowed, es);
      Subsets(Run(Init(allowed), es).asked, allowed);
    }
  }

  // ---- the code ----

  /** The variables of one open viewer. */
  class Viewer {
    const allowed: set<string>
    var closed: bool
    var pending: nat
    ghost var discarding: nat
    var readers: nat
    var paths: set<string>
    var fileCount: nat

    ghost function View(): Broker
      reads this
    {
      Broker(allowed, closed, pending, discarding, readers, paths, fileCount)
    }

    constructor (granted: set<string>)
      ensures View() == Init(granted) && Inv(View())
    {
      allowed, closed, pending, discarding, readers, paths, fileCount := granted, false, 0, 0, 0, {}, 0;
    }

    method OnRead(path: string, ownViewer: bool, hasPort: bool) returns (reply: Reply)
      requires Inv(View())
      modifies this
      ensures (View(), reply) == OnRequest(old(View()), path, ownViewer, hasPort) && Inv(View())
    {
      if !hasPort || closed {
        return NoReply;
      }
      if !ownViewer || path !in allowed || pending >= MAX_PENDING || readers >= MAX_READERS {
        return Refused(403);
      }
      paths := paths + {path};
      if |paths| > MAX_FILES {
        return Refused(429);
      }
      pending := pending + 1;
      reply := Reading;
    }

    method OnResponse(ok: bool)
      requires Inv(View()) && discarding < pending
      modifies this
      ensures View() == Step(old(View()), Response(ok)) && Inv(View())
    {
      if ok && closed {
        discarding := discarding + 1;
        return;
      }
      if ok {
        readers := readers + 1;
        fileCount := fileCount + 1;
      }
      pending := pending - 1;
    }

    method CloseViewer()
      requires Inv(View())
      modifies this
      ensures View() == Step(old(View()), Close) && Inv(View())
    {
      closed := true;
    }

    method OnReadersCancelled()
      requires Inv(View()) && closed
      modifies this
      ensures View() == Step(old(View()), ReadersCancelled) && Inv(View())
    {
      readers := 0;
    }
  }
}
