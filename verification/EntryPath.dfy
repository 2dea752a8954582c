/**
  From the entry a frame is told to show to the path the service worker asks for.  The bootstrap
  encodes each segment into the frame's address, the address is parsed by the browser, and the
  worker splits, decodes, joins and checks it.
 */
module EntryPath {
  import opened Wrappers
  import opened PercentCoding

  // ---- segments ----

  function Split(s: string): (segments: seq<string>)
    ensures segments != [] && forall i :: 0 <= i < |segments| ==> '/' !in segments[i]
  {
    if s == [] then [""]
    else
      var rest := Split(s[1..]);
      if s[0] == '/' then [""] + rest else [[s[0]] + rest[0]] + rest[1..]
  }

  function Join(segments: seq<string>): string {
    if segments == [] then ""
    else if |segments| == 1 then segments[0]
    else segments[0] + "/" + Join(segments[1..])
  }

  lemma {:induction false} JoinSplit(s: string)
    ensures Join(Split(s)) == s
    decreases |s|
  {
    if s != [] {
      JoinSplit(s[1..]);
      var rest := Split(s[1..]);
      if s[0] == '/' {
        assert ([""] + rest)[1..] == rest;
        assert "" + "/" + s[1..] == s;
      } else {
        var all := [[s[0]] + rest[0]] + rest[1..];
        assert all[1..] == rest[1..];
        assert |rest| > 1 ==> [s[0]] + rest[0] + "/" + Join(rest[1..]) == [s[0]] + (rest[0] + "/" + Join(rest[1..]));
        assert [s[0]] + s[1..] == s;
      }
    }
  }

  lemma {:induction false} SplitSegment(segment: string, rest: string)
    requires '/' !in segment
    ensures Split(segment + "/" + rest) == [segment] + Split(rest)
    ensures Split(segment) == [segment]
    decreases |segment|
  {
    if segment == [] {
      assert segment + "/" + rest == "/" + rest;
      assert ("/" + rest)[1..] == rest;
    } else {
      var tail := segment[1..];
      assert forall c :: c in tail ==> c in segment;
      SplitSegment(tail, rest);
      assert (segment + "/" + rest)[1..] == tail + "/" + rest;
      assert [segment[0]] + tail == segment;
    }
  }

  lemma {:induction false} SplitJoin(segments: seq<string>)
    requires segments != [] && forall i :: 0 <= i < |segments| ==> '/' !in segments[i]
    ensures Split(Join(segments)) == segments
    decreases |segments|
  {
    if |segments| == 1 {
      SplitSegment(segments[0], "");
      assert segments == [segments[0]];
    } else {
      SplitJoin(segments[1..]);
      SplitSegment(segments[0], Join(segments[1..]));
      assert segments == [segments[0]] + segments[1..];
    }
  }

  // ---- the address ----

  function EncodeSegments(segments: seq<string>): (encoded: seq<string>)
    ensures |encoded| == |segments|
  {
    if segments == [] then [] else [Encode(segments[0])] + EncodeSegments(segments[1..])
  }

  function FrameSegments(viewerId: string, entry: string): seq<string> {
    ["", "v", viewerId] + EncodeSegments(Split(entry))
  }

  /** The path the bootstrap gives the frame. */
  function FrameSource(viewerId: string, entry: string): string {
    Join(FrameSegments(viewerId, entry))
  }

  /** A dot, or with `escaped` its percent-encoding, at the front; what follows it. */
  function AfterDot(s: string, escaped: bool): Option<string> {
    if s != [] && s[0] == '.' then Some(s[1..])
    else if escaped && |s| >= 3 && s[0] == '%' && s[1] == '2' && (s[2] == 'e' || s[2] == 'E') then Some(s[3..])
    else None
  }

  predicate IsSingleDot(s: string, escaped: bool) {
    AfterDot(s, escaped) == Some("")
  }

  predicate IsDoubleDot(s: string, escaped: bool) {
    AfterDot(s, escaped).Some? && IsSingleDot(AfterDot(s, escaped).value, escaped)
  }

  /**
    Dot segments removed (section 5.2.4 of RFC 3986); parsing an address does it for escaped dots too
    (section 4.4 of the URL Standard).
   */
  function RemoveDots(segments: seq<string>, done: seq<string>, escaped: bool): seq<string>
    decreases |segments|
  {
    if segments == [] then done
    else
      var last := if |segments| == 1 then [""] else [];
      if IsDoubleDot(segments[0], escaped) then
        RemoveDots(segments[1..], (if done == [] then [] else done[..|done|-1]) + last, escaped)
      else if IsSingleDot(segments[0], escaped) then RemoveDots(segments[1..], done + last, escaped)
      else RemoveDots(segments[1..], done + [segments[0]], escaped)
  }

  function Parsed(pathname: string): string
  {
    if pathname != "" && pathname[0] == '/' then "/" + Join(RemoveDots(Split(pathname[1..]), [], true)) else pathname
  }

  // ---- the worker ----

  datatype Answer = Path(path: string) | Refused(status: nat)

  function DecodeSegments(parts: seq<string>): Option<seq<string>> {
    if parts == [] then Some([])
    else
      match Decode(parts[0])
      case None => None
      case Some(text) =>
        match DecodeSegments(parts[1..])
        case None => None
        case Some(rest) => Some([text] + rest)
  }

  predicate IsViewerId(s: string) {
    |s| == 32 && forall c :: c in s ==> 'a' <= c <= 'f' || '0' <= c <= '9'
  }

  predicate GoodSegment(s: string) {
    s != "" && s[0] != '.'
  }

  /** What the worker lets through: no backslash, no NUL, no empty and no dot-leading segment. */
  predicate GoodPath(path: string) {
    && path != "" && '\\' !in path && '\0' !in path
    && forall i :: 0 <= i < |Split(path)| ==> GoodSegment(Split(path)[i])
  }

  /** The path of a request whose address is under `/v/`. */
  function WorkerPath(pathname: string): Answer {
    var parts := Split(pathname);
    match DecodeSegments(if |parts| >= 3 then parts[3..] else [])
    case None => Refused(400)
    case Some(segments) =>
      var path := Join(segments);
      if |parts| < 3 || !IsViewerId(parts[2]) || !GoodPath(path) then Refused(403) else Path(path)
  }

  // ---- the round trip ----

  lemma {:induction false} DecodeEncodedSegments(segments: seq<string>)
    ensures DecodeSegments(EncodeSegments(segments)) == Some(segments)
    decreases |segments|
  {
    if segments != [] {
      DecodeEncode(segments[0]);
      DecodeEncodedSegments(segments[1..]);
      assert segments == [segments[0]] + segments[1..];
    }
  }

  lemma {:induction false} EscapeAllIsPlain(bytes: seq<int>)
    requires forall i :: 0 <= i < |bytes| ==> 0 <= bytes[i] < 256
    ensures '/' !in EscapeAll(bytes)
    decreases |bytes|
  {
    if bytes != [] {
      EscapeAllIsPlain(bytes[1..]);
    }
  }

  lemma {:induction false} EncodeHasNoSlash(s: string)
    ensures '/' !in Encode(s)
    decreases |s|
  {
    if s != [] {
      EncodeHasNoSlash(s[1..]);
      if !Unescaped(s[0]) {
        EscapeAllIsPlain(Utf8(s[0] as int));
      }
    }
  }

  lemma EscapeIsNoDot(b: int, rest: string)
    requires 0 <= b < 256 && b != 0x2e
    ensures AfterDot(Escape(b) + rest, true).None?
  {
    var s := Escape(b) + rest;
    assert s[0] == '%' && s[1] == HexDigit(b / 16) && s[2] == HexDigit(b % 16);
  }

  /** Encoding leaves no dot in front but one that was there, escaped or not. */
  lemma EncodedDots(s: string)
    requires s == "" || s[0] != '.'
    ensures AfterDot(Encode(s), true).None?
  {
    hide AfterDot, HexDigit, Escape, EscapeAll, Utf8;
    if s == [] {
      NothingIsNoDot();
    } else if Unescaped(s[0]) {
      LetterIsNoDot(s[0], Encode(s[1..]));
    } else {
      var bytes := Utf8(s[0] as int);
      FirstByte(s[0]);
      Escapes(bytes, Encode(s[1..]));
      EscapeIsNoDot(bytes[0], EscapeAll(bytes[1..]) + Encode(s[1..]));
    }
  }

  lemma FirstByte(c: char)
    requires !Unescaped(c)
    ensures Utf8(c as int)[0] != 0x2e
  {
  }

  lemma NothingIsNoDot()
    ensures AfterDot("", true).None?
  {
  }

  lemma LetterIsNoDot(c: char, rest: string)
    requires Unescaped(c) && c != '.'
    ensures AfterDot([c] + rest, true).None?
  {
  }

  lemma {:induction false} EncodedSegmentsStay(segments: seq<string>)
    requires forall i :: 0 <= i < |segments| ==> GoodSegment(segments[i])
    ensures forall i :: 0 <= i < |segments| ==>
              AfterDot(EncodeSegments(segments)[i], true).None? && '/' !in EncodeSegments(segments)[i]
    decreases |segments|
  {
    if segments != [] {
      EncodedSegmentsStay(segments[1..]);
      EncodedDots(segments[0]);
      EncodeHasNoSlash(segments[0]);
    }
  }

  lemma {:induction false} NoDotsToRemove(segments: seq<string>, done: seq<string>, escaped: bool)
    requires forall i :: 0 <= i < |segments| ==> AfterDot(segments[i], escaped).None?
    ensures RemoveDots(segments, done, escaped) == done + segments
    decreases |segments|
  {
    if segments != [] {
      NoDotsToRemove(segments[1..], done + [segments[0]], escaped);
      assert done + [segments[0]] + segments[1..] == done + segments;
    }
  }

  lemma FrameSegmentsAreClean(viewerId: string, entry: string)
    requires IsViewerId(viewerId) && GoodPath(entry)
    ensures forall s :: s in FrameSegments(viewerId, entry) ==> '/' !in s && AfterDot(s, true).None?
  {
    EncodedSegmentsStay(Split(entry));
    assert viewerId[0] in viewerId;
  }

  lemma CleanPathStays(segments: seq<string>)
    requires segments != [] && forall s :: s in segments ==> '/' !in s && AfterDot(s, true).None?
    ensures Parsed("/" + Join(segments)) == "/" + Join(segments)
  {
    hide AfterDot;
    SplitJoin(segments);
    NoDotsToRemove(segments, [], true);
    assert [] + segments == segments;
    assert ("/" + Join(segments))[1..] == Join(segments);
  }

  lemma FrameSourceSegments(viewerId: string, entry: string)
    requires IsViewerId(viewerId) && GoodPath(entry)
    ensures Split(FrameSource(viewerId, entry)) == FrameSegments(viewerId, entry)
    ensures Parsed(FrameSource(viewerId, entry)) == FrameSource(viewerId, entry)
  {
    hide AfterDot, Parsed, GoodPath, IsViewerId;
    var segments := FrameSegments(viewerId, entry);
    FrameSegmentsAreClean(viewerId, entry);
    SplitJoin(segments);
    var tail := ["v", viewerId] + EncodeSegments(Split(entry));
    assert segments == [""] + tail;
    assert Join(segments) == "" + "/" + Join(tail) == "/" + Join(tail);
    CleanPathStays(tail);
  }

  /** An entry reaches the worker's request unchanged exactly when the worker would let it through. */
  lemma EntryRoundTripIff(viewerId: string, entry: string)
    requires IsViewerId(viewerId)
    ensures WorkerPath(Parsed(FrameSource(viewerId, entry))) == Path(entry) <==> GoodPath(entry)
  {
    if GoodPath(entry) {
      FrameSourceSegments(viewerId, entry);
      DecodeEncodedSegments(Split(entry));
      JoinSplit(entry);
      assert FrameSegments(viewerId, entry)[3..] == EncodeSegments(Split(entry));
    }
  }

  lemma {:induction false} CleanPrefix(prefix: seq<string>, rest: seq<string>, done: seq<string>)
    requires rest != [] && forall i :: 0 <= i < |prefix| ==> AfterDot(prefix[i], true).None?
    ensures RemoveDots(prefix + rest, done, true) == RemoveDots(rest, done + prefix, true)
    decreases |prefix|
  {
    if prefix == [] {
      assert prefix + rest == rest && done + prefix == done;
    } else {
      CleanPrefix(prefix[1..], rest, done + [prefix[0]]);
      assert (prefix + rest)[1..] == prefix[1..] + rest;
      assert done + [prefix[0]] + prefix[1..] == done + prefix;
    }
  }

  /** Parsing takes `x/..` out of an address. */
  lemma StepBackParsed(lead: seq<string>, x: string, tail: seq<string>)
    requires tail != [] && forall s :: s in lead + [x] + tail ==> '/' !in s && AfterDot(s, true).None?
    ensures Parsed("/" + Join(lead + [x, ".."] + tail)) == "/" + Join(lead + tail)
  {
    hide AfterDot, Split;
    var all := lead + [x, ".."] + tail;
    forall i | 0 <= i < |all| ensures '/' !in all[i] {
      assert all[i] == ".." || all[i] in lead + [x] + tail;
    }
    SplitJoin(all);
    assert ("/" + Join(all))[1..] == Join(all);
    assert all == (lead + [x]) + ([".."] + tail);
    CleanPrefix(lead + [x], [".."] + tail, []);
    DotsAreDots();
    assert ([".."] + tail)[1..] == tail && [] + (lead + [x]) == lead + [x] && (lead + [x])[..|lead|] == lead && lead + [] == lead;
    NoDotsToRemove(tail, lead, true);
  }

  lemma DotsAreDots()
    ensures IsDoubleDot("..", true) && Encode("..") == ".."
  {
    assert ".."[1..] == "." && "."[1..] == "";
    assert Encode(".") == ".";
  }

  lemma EncodeSteppedBack(x: string, y: string)
    requires '/' !in x
    ensures EncodeSegments(Split(x + "/../" + y)) == [Encode(x), ".."] + EncodeSegments(Split(y))
  {
    hide Encode;
    assert x + "/../" + y == x + "/" + (".." + "/" + y);
    SplitSegment(x, ".." + "/" + y);
    SplitSegment("..", y);
    DotsAreDots();
    var segments := [x] + ([".."] + Split(y));
    assert segments[1..] == [".."] + Split(y) && ([".."] + Split(y))[1..] == Split(y);
  }

  /** An entry that steps back inside itself arrives as the path it steps to. */
  lemma StepBackArrivesElsewhere(viewerId: string, x: string, y: string)
    requires IsViewerId(viewerId) && GoodSegment(x) && '/' !in x && GoodPath(y)
    ensures WorkerPath(Parsed(FrameSource(viewerId, x + "/../" + y))) == Path(y)
  {
    hide AfterDot, Parsed, GoodPath, IsViewerId, WorkerPath, Encode, Split;
    var lead, tail := ["v", viewerId], EncodeSegments(Split(y));
    EncodeSteppedBack(x, y);
    FrameSegmentsAreClean(viewerId, y);
    EncodedDots(x);
    EncodeHasNoSlash(x);
    forall s | s in lead + [Encode(x)] + tail ensures '/' !in s && AfterDot(s, true).None? {
      assert s in FrameSegments(viewerId, y) || s == Encode(x);
    }
    assert ["", "v", viewerId] + ([Encode(x), ".."] + tail) == [""] + (lead + [Encode(x), ".."] + tail);
    AddressOf(lead + [Encode(x), ".."] + tail);
    StepBackParsed(lead, Encode(x), tail);
    assert ["", "v", viewerId] + tail == [""] + (lead + tail);
    AddressOf(lead + tail);
    FrameSourceSegments(viewerId, y);
    EntryRoundTripIff(viewerId, y);
  }

  lemma AddressOf(segments: seq<string>)
    requires segments != []
    ensures Join([""] + segments) == "/" + Join(segments)
  {
    assert ([""] + segments)[1..] == segments;
    assert "" + "/" + Join(segments) == "/" + Join(segments);
  }

  /** An entry that steps out of itself is refused. */
  lemma StepOutIsRefused(viewerId: string)
    requires IsViewerId(viewerId)
    ensures WorkerPath(Parsed(FrameSource(viewerId, ".."))) == Refused(403)
  {
    hide AfterDot, IsViewerId;
    var all := ["v", viewerId, ".."];
    SplitSegment("..", "");
    DotsAreDots();
    assert FrameSegments(viewerId, "..") == [""] + all;
    AddressOf(all);
    ViewerIdIsClean(viewerId);
    SplitJoin(all);
    assert ("/" + Join(all))[1..] == Join(all);
    assert all == ["v", viewerId] + [".."];
    CleanPrefix(["v", viewerId], [".."], []);
    assert [] + ["v", viewerId] == ["v", viewerId] && ["v", viewerId][..1] == ["v"] && ["v"] + [""] == ["v", ""];
    assert RemoveDots([".."], ["v", viewerId], true) == RemoveDots([], ["v", ""], true);
    AddressOf(["v", ""]);
    SplitJoin(["", "v", ""]);
    assert [""] + ["v", ""] == ["", "v", ""];
    EmptyIsNoViewer();
  }

  lemma ViewerIdIsClean(viewerId: string)
    requires IsViewerId(viewerId)
    ensures forall s :: s in ["v", viewerId] ==> '/' !in s && AfterDot(s, true).None?
  {
    assert viewerId[0] in viewerId;
  }

  lemma EmptyIsNoViewer()
    ensures !IsViewerId("")
  {
  }

  /**
    The worker's answer, exactly: 400 where a segment does not decode; a path where the address names a
    viewer by 32 lower-case hex digits and the decoded path has no backslash, no NUL, no empty segment
    and none that starts with a dot; and 403 otherwise.
   */
  lemma WorkerAnswerIff(pathname: string)
    ensures var parts := Split(pathname);
            var decoded := DecodeSegments(if |parts| >= 3 then parts[3..] else []);
            && (WorkerPath(pathname) == Refused(400) <==> decoded.None?)
            && (WorkerPath(pathname).Path? <==>
                  && decoded.Some? && |parts| >= 3
                  && |parts[2]| == 32 && (forall c :: c in parts[2] ==> '0' <= c <= '9' || 'a' <= c <= 'f')
                  && var path := Join(decoded.value);
                     path != "" && '\\' !in path && '\0' !in path
                     && forall i :: 0 <= i < |Split(path)| ==> Split(path)[i] != "" && Split(path)[i][0] != '.')
            && (WorkerPath(pathname).Path? ==> WorkerPath(pathname).path == Join(decoded.value))
            && (decoded.Some? && !WorkerPath(pathname).Path? ==> WorkerPath(pathname) == Refused(403))
  {
    hide Split, Join, DecodeSegments, GoodPath, IsViewerId;
    var parts := Split(pathname);
    if |parts| >= 3 {
      ViewerIdIff(parts[2]);
      var decoded := DecodeSegments(parts[3..]);
      if decoded.Some? {
        GoodPathIff(Join(decoded.value));
      }
    }
  }

  lemma ViewerIdIff(s: string)
    ensures IsViewerId(s) <==> |s| == 32 && forall c :: c in s ==> '0' <= c <= '9' || 'a' <= c <= 'f'
  {
  }

  lemma GoodPathIff(path: string)
    ensures GoodPath(path) <==>
              && path != "" && '\\' !in path && '\0' !in path
              && forall i :: 0 <= i < |Split(path)| ==> Split(path)[i] != "" && Split(path)[i][0] != '.'
  {
    hide Split;
  }

  /** Whatever the address, an accepted path has no dot segment left to remove. */
  lemma AcceptedIsNormal(pathname: string)
    requires WorkerPath(pathname).Path?
    ensures var path := WorkerPath(pathname).path;
            GoodPath(path) && Join(RemoveDots(Split(path), [], false)) == path
  {
    var path := WorkerPath(pathname).path;
    NoDotsToRemove(Split(path), [], false);
    assert [] + Split(path) == Split(path);
    JoinSplit(path);
  }
}
