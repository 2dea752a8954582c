/**
  One artifact file on its way to a frame: a service worker pulls, a broker reads and replies, over
  two message queues.  The stream runtime calls `pull` only while the stream is readable and the
  previous pull has settled (section 4.2.3 of the WHATWG Streams Standard).
 */
module ArtifactStream {

  newtype byte = x: int | 0 <= x < 256

  const MAX_FILE_BYTES: nat := 256 * 1024 * 1024
  const MAX_READ_BYTES: nat := 8 * 1024 * 1024
  const MAX_VIEWER_BYTES: nat := 32 * 1024 * 1024

  datatype ToBroker = Pull | Cancel

  /** `Failed` is an error report, or anything else that is neither a chunk nor an end. */
  datatype ToWorker = Chunk(bytes: seq<byte>) | End | Failed

  // ---- the worker ----

  datatype Stream = Readable | Closed | Errored | Cancelled

  datatype Worker = Worker(
    stream: Stream,
    pulling: bool,
    listening: bool,
    timerSet: bool,
    bytes: nat,
    cancelled: bool,
    portOpen: bool,
    enqueued: seq<byte>,
    pulls: nat,
    answers: nat)

  const FRESH_WORKER := Worker(Readable, false, false, false, 0, false, true, [], 0, 0)

  /** The worker's next state and what it posts. */
  datatype WorkerStep = WorkerStep(worker: Worker, posted: seq<ToBroker>)

  function WorkerPull(w: Worker): WorkerStep {
    if w.stream != Readable || w.pulling then WorkerStep(w, [])
    else if w.cancelled then WorkerStep(w.(listening := true, timerSet := true), [])
    else WorkerStep(w.(pulling := true, listening := true, timerSet := true, pulls := w.pulls + 1), [Pull])
  }

  /** `cancel` in the worker, with the stream already in its final state. */
  function WorkerCancel(w: Worker, stream: Stream): WorkerStep {
    WorkerStep(w.(stream := stream, cancelled := true, timerSet := false, portOpen := false, pulling := false),
               if w.portOpen then [Cancel] else [])
  }

  function WorkerTimeout(w: Worker): WorkerStep {
    if !w.timerSet then WorkerStep(w, []) else WorkerCancel(w, Errored)
  }

  function WorkerConsumerCancel(w: Worker): WorkerStep {
    if w.stream != Readable then WorkerStep(w, []) else WorkerCancel(w, Cancelled)
  }

  /** Before the first pull the head's handler is still installed and swallows whatever comes. */
  function WorkerReceive(w: Worker, message: ToWorker): WorkerStep {
    if !w.portOpen then WorkerStep(w, [])
    else if !w.listening then WorkerStep(w.(timerSet := false), [])
    else
      var v := w.(timerSet := false, answers := w.answers + 1);
      match message
      case Chunk(bytes) =>
        var total := w.bytes + |bytes|;
        if total > MAX_FILE_BYTES then WorkerCancel(v.(bytes := total), Errored)
        else WorkerStep(v.(bytes := total, enqueued := w.enqueued + bytes, pulling := false), [])
      case End => WorkerStep(v.(stream := Closed, portOpen := false, pulling := false), [])
      case Failed => WorkerCancel(v, Errored)
  }

  // ---- the broker's side of one stream ----

  /**
    `aborted` says the body itself was failed by the viewer's abort signal; `cut` only records that the
    viewer closed while an uncancelled reader still had bytes to read.
   */
  datatype Broker = Broker(
    portOpen: bool,
    owned: bool,
    inFlight: nat,
    cancelling: bool,
    readerCancelled: bool,
    hostClosed: bool,
    aborted: bool,
    cut: bool,
    reportedDone: bool,
    pos: nat,
    bytes: nat,
    totalBytes: nat,
    sent: seq<byte>)

  const FRESH_BROKER := Broker(true, true, 0, false, false, false, false, false, false, 0, 0, 0, [])

  datatype BrokerStep = BrokerStep(broker: Broker, posted: seq<ToWorker>)

  function BrokerReceive(b: Broker, message: ToBroker): BrokerStep {
    if !b.portOpen then BrokerStep(b, [])
    else match message
      case Pull => BrokerStep(b.(inFlight := b.inFlight + 1), [])
      case Cancel => BrokerStep(b.(readerCancelled := true, cancelling := true), [])
  }

  /** The error path: report, cancel the reader, and close the port once that has finished. */
  function BrokerFail(b: Broker): BrokerStep {
    BrokerStep(b.(readerCancelled := true, cancelling := true), if b.portOpen then [Failed] else [])
  }

  /** A read resolved with the next `count` bytes of the file. */
  function BrokerRead(b: Broker, content: seq<byte>, count: nat): BrokerStep {
    if b.inFlight == 0 || b.readerCancelled || b.pos + count > |content| then BrokerStep(b, [])
    else
      Answered(Counted(b, count), content[b.pos..b.pos + count])
  }

  function Counted(b: Broker, count: nat): Broker
    requires b.inFlight > 0
  {
    b.(inFlight := b.inFlight - 1, pos := b.pos + count, bytes := b.bytes + count, totalBytes := b.totalBytes + count)
  }

  /** The bytes go out unless they exceed a limit. */
  function Answered(b: Broker, part: seq<byte>): BrokerStep {
    if b.bytes > MAX_READ_BYTES || b.totalBytes > MAX_VIEWER_BYTES then BrokerFail(b)
    else if !b.portOpen then BrokerStep(b, [])
    else BrokerStep(b.(sent := b.sent + part), [Chunk(part)])
  }

  /** A read resolved without bytes: the file is at its end, or the reader of a sound body was cancelled. */
  function BrokerReadDone(b: Broker, content: seq<byte>): BrokerStep {
    if b.inFlight == 0 || b.aborted || (b.pos < |content| && !b.readerCancelled) then BrokerStep(b, [])
    else BrokerStep(b.(inFlight := b.inFlight - 1, reportedDone := true, owned := false, portOpen := false),
                    if b.portOpen then [End] else [])
  }

  function BrokerReadError(b: Broker): BrokerStep {
    if b.inFlight == 0 then BrokerStep(b, []) else BrokerFail(b.(inFlight := b.inFlight - 1))
  }

  function BrokerCancelDone(b: Broker): Broker {
    if !b.cancelling then b else b.(cancelling := false, owned := false, portOpen := false)
  }

  /** The viewer has a reader that is not at the end of the file and was not cancelled. */
  predicate Cuts(b: Broker, content: seq<byte>) {
    b.owned && !b.readerCancelled && b.pos < |content|
  }

  /**
    Closing the viewer signals its abort and cancels every reader it still owns.  With `aborts` the
    transport's body obeys the signal and fails first, as that of a plain fetch does.
   */
  function BrokerHostClose(b: Broker, content: seq<byte>, aborts: bool): Broker {
    b.(hostClosed := true, readerCancelled := b.readerCancelled || b.owned,
       aborted := b.aborted || (aborts && b.owned), cut := b.cut || Cuts(b, content))
  }

  // ---- both, with their queues ----

  datatype State = State(worker: Worker, broker: Broker, toBroker: seq<ToBroker>, toWorker: seq<ToWorker>)

  datatype Event =
    | ConsumerPull
    | ConsumerCancel
    | Timeout
    | DeliverToWorker
    | DeliverToBroker
    | Read(count: nat)
    | ReadDone
    | ReadError
    | CancelDone
    | HostClose(aborts: bool)
    | OtherBytes(count: nat)

  const INIT := State(FRESH_WORKER, FRESH_BROKER, [], [])

  function Worked(s: State, step: WorkerStep): State {
    s.(worker := step.worker, toBroker := s.toBroker + step.posted)
  }

  function Brokered(s: State, step: BrokerStep): State {
    s.(broker := step.broker, toWorker := s.toWorker + step.posted)
  }

  function Step(s: State, content: seq<byte>, e: Event): State {
    match e
    case ConsumerPull => Worked(s, WorkerPull(s.worker))
    case ConsumerCancel => Worked(s, WorkerConsumerCancel(s.worker))
    case Timeout => Worked(s, WorkerTimeout(s.worker))
    case DeliverToWorker =>
      if s.toWorker == [] then s
      else Worked(s.(toWorker := s.toWorker[1..]), WorkerReceive(s.worker, s.toWorker[0]))
    case DeliverToBroker =>
      if s.toBroker == [] then s
      else Brokered(s.(toBroker := s.toBroker[1..]), BrokerReceive(s.broker, s.toBroker[0]))
    case Read(count) => Brokered(s, BrokerRead(s.broker, content, count))
    case ReadDone => Brokered(s, BrokerReadDone(s.broker, content))
    case ReadError => Brokered(s, BrokerReadError(s.broker))
    case CancelDone => s.(broker := BrokerCancelDone(s.broker))
    case HostClose(aborts) => s.(broker := BrokerHostClose(s.broker, content, aborts))
    case OtherBytes(count) => s.(broker := s.broker.(totalBytes := s.broker.totalBytes + count))
  }

  function Run(s: State, content: seq<byte>, es: seq<Event>): State {
    if es == [] then s else Step(Run(s, content, es[..|es|-1]), content, es[|es|-1])
  }

  function Flat(messages: seq<ToWorker>): seq<byte> {
    if messages == [] then []
    else (if messages[0].Chunk? then messages[0].bytes else []) + Flat(messages[1..])
  }

  lemma FlatOne(message: ToWorker)
    ensures Flat([message]) == if message.Chunk? then message.bytes else []
  {
    assert [message][1..] == [];
  }

  // ---- the invariant ----

  ghost predicate WorkerOk(w: Worker) {
    && |w.enqueued| <= MAX_FILE_BYTES
    && (w.stream == Readable ==> w.bytes == |w.enqueued| && w.portOpen && !w.cancelled)
    && (w.stream != Readable ==> !w.portOpen && !w.pulling)
    && (w.timerSet <==> w.pulling)
    && (w.pulling ==> w.listening)
    && (!w.listening ==> w.pulls == w.answers == 0)
  }

  ghost predicate BrokerOk(b: Broker, content: seq<byte>) {
    && b.pos <= |content|
    && b.sent <= content[..b.pos]
    && |b.sent| <= b.bytes
    && |b.sent| <= MAX_READ_BYTES
    && (b.portOpen ==> b.owned)
    && (b.portOpen && !b.cancelling ==> b.sent == content[..b.pos] && |b.sent| == b.bytes)
    && (b.cancelling ==> b.readerCancelled)
    && (b.cut ==> b.readerCancelled && b.pos < |content|)
    && (b.portOpen && b.readerCancelled ==> b.cut || b.pos == |content| || b.cancelling)
  }

  /** While the worker listens, its one credit is a queued pull, a read in flight or a queued reply. */
  ghost predicate CreditOk(s: State, content: seq<byte>) {
    && Cancel !in s.toBroker
    && |s.toBroker| + s.broker.inFlight + |s.toWorker| == (if s.worker.pulling then 1 else 0)
    && s.worker.pulls == s.worker.answers + (if s.worker.pulling then 1 else 0)
    && s.worker.enqueued + Flat(s.toWorker) == s.broker.sent
    && (!s.broker.portOpen || s.broker.cancelling ==> s.toWorker == [End] || s.toWorker == [Failed])
    && (s.toWorker == [End] ==> EndedAt(s.broker, content, s.broker.sent))
  }

  /** The reader said it was done when `body` had been sent: all of the file, unless closing cut it. */
  ghost predicate EndedAt(b: Broker, content: seq<byte>, body: seq<byte>) {
    && b.reportedDone && !b.portOpen && !b.owned && body == b.sent
    && (b.cut <==> body != content)
  }

  ghost predicate Inv(s: State, content: seq<byte>) {
    && WorkerOk(s.worker)
    && BrokerOk(s.broker, content)
    && (s.worker.portOpen ==> CreditOk(s, content))
    && s.worker.pulls <= s.worker.answers + 1
    && s.worker.enqueued <= s.broker.sent
    && (s.worker.stream == Closed ==> EndedAt(s.broker, content, s.worker.enqueued))
  }

  lemma WorkerActsKeepInv(s: State, content: seq<byte>)
    requires Inv(s, content)
    ensures Inv(Step(s, content, ConsumerPull), content)
    ensures Inv(Step(s, content, ConsumerCancel), content)
    ensures Inv(Step(s, content, Timeout), content)
  {
    hide BrokerOk, EndedAt, Flat;
  }

  lemma DeliverToWorkerKeepsInv(s: State, content: seq<byte>)
    requires Inv(s, content)
    ensures Inv(Step(s, content, DeliverToWorker), content)
  {
    hide BrokerOk, EndedAt;
    if s.toWorker != [] && s.worker.portOpen {
      assert s.toWorker[1..] == [];
      FlatOne(s.toWorker[0]);
      var enqueued := Step(s, content, DeliverToWorker).worker.enqueued;
      assert enqueued + [] == enqueued;
    }
  }

  /** A read in flight is the worker's only credit: nothing is queued and the port is open. */
  lemma ReadIsTheCredit(s: State, content: seq<byte>)
    requires Inv(s, content) && s.worker.portOpen && s.broker.inFlight > 0
    ensures s.worker.pulling && s.broker.inFlight == 1 && s.toWorker == [] && s.toBroker == []
    ensures s.broker.portOpen && !s.broker.cancelling
    ensures !s.broker.readerCancelled || s.broker.cut || s.broker.pos == |content|
    ensures s.worker.enqueued == s.broker.sent
  {
  }

  lemma DeliverToBrokerKeepsInv(s: State, content: seq<byte>)
    requires Inv(s, content)
    ensures Inv(Step(s, content, DeliverToBroker), content)
  {
    hide WorkerOk;
    if s.toBroker != [] {
      assert s.toBroker == [s.toBroker[0]] + s.toBroker[1..];
    }
  }

  lemma PrefixGrows(sent: seq<byte>, content: seq<byte>, pos: nat, count: nat)
    requires pos + count <= |content| && sent <= content[..pos]
    ensures sent <= content[..pos + count]
    ensures content[..pos] + content[pos..pos + count] == content[..pos + count]
  {
  }

  lemma AnsweredKeepsBroker(b: Broker, content: seq<byte>, count: nat)
    requires BrokerOk(b, content) && b.inFlight > 0 && !b.readerCancelled && b.pos + count <= |content|
    ensures var t := Answered(Counted(b, count), content[b.pos..b.pos + count]).broker;
            BrokerOk(t, content) && b.sent <= t.sent
  {
    PrefixGrows(b.sent, content, b.pos, count);
  }

  lemma ReadKeepsBroker(b: Broker, content: seq<byte>, count: nat)
    requires BrokerOk(b, content)
    ensures BrokerOk(BrokerRead(b, content, count).broker, content)
    ensures b.sent <= BrokerRead(b, content, count).broker.sent
  {
    hide BrokerOk, Answered, Counted;
    if b.inFlight > 0 && !b.readerCancelled && b.pos + count <= |content| {
      AnsweredKeepsBroker(b, content, count);
    }
  }

  lemma ReadKeepsInv(s: State, content: seq<byte>, count: nat)
    requires Inv(s, content)
    ensures Inv(Step(s, content, Read(count)), content)
  {
    hide WorkerOk;
    var b := s.broker;
    ReadKeepsBroker(b, content, count);
    assert s.toWorker + [] == s.toWorker;
    if s.worker.portOpen && b.inFlight > 0 {
      ReadIsTheCredit(s, content);
      ReadAnswersTheCredit(s, content, count);
    } else {
      hide BrokerOk;
    }
  }

  lemma ReadAnswersTheCredit(s: State, content: seq<byte>, count: nat)
    requires Inv(s, content) && s.worker.portOpen && s.worker.pulling && s.broker.inFlight == 1
    requires s.toWorker == [] && s.toBroker == [] && s.broker.portOpen && !s.broker.cancelling
    requires s.worker.enqueued == s.broker.sent
    ensures CreditOk(Step(s, content, Read(count)), content)
  {
    hide WorkerOk, BrokerOk;
    var b := s.broker;
    FlatOne(Failed);
    var t := Step(s, content, Read(count));
    if b.readerCancelled || b.pos + count > |content| {
      assert t == s;
    } else {
      var part := content[b.pos..b.pos + count];
      FlatOne(Chunk(part));
      assert t.toWorker == [Failed] || t.toWorker == [Chunk(part)];
      assert t.toWorker[0] != End;
    }
  }

  lemma ReadEndsKeepInv(s: State, content: seq<byte>)
    requires Inv(s, content)
    ensures Inv(Step(s, content, ReadDone), content)
    ensures Inv(Step(s, content, ReadError), content)
  {
    hide WorkerOk;
    assert content[..|content|] == content && s.toWorker + [] == s.toWorker;
    if s.worker.portOpen && s.broker.inFlight > 0 {
      ReadIsTheCredit(s, content);
      assert s.toWorker + [Failed] == [Failed] && s.toWorker + [End] == [End];
      FlatOne(Failed);
      FlatOne(End);
    }
  }

  lemma OthersKeepInv(s: State, content: seq<byte>, count: nat)
    requires Inv(s, content)
    ensures Inv(Step(s, content, CancelDone), content)
    ensures forall aborts :: Inv(Step(s, content, HostClose(aborts)), content)
    ensures Inv(Step(s, content, OtherBytes(count)), content)
  {
    hide WorkerOk, Flat;
  }

  lemma StepKeepsInv(s: State, content: seq<byte>, e: Event)
    requires Inv(s, content)
    ensures Inv(Step(s, content, e), content)
  {
    hide Inv, Step;
    match e
    case ConsumerPull => WorkerActsKeepInv(s, content);
    case ConsumerCancel => WorkerActsKeepInv(s, content);
    case Timeout => WorkerActsKeepInv(s, content);
    case DeliverToWorker => DeliverToWorkerKeepsInv(s, content);
    case DeliverToBroker => DeliverToBrokerKeepsInv(s, content);
    case Read(count) => ReadKeepsInv(s, content, count);
    case ReadDone => ReadEndsKeepInv(s, content);
    case ReadError => ReadEndsKeepInv(s, content);
    case CancelDone => OthersKeepInv(s, content, 0);
    case HostClose(_) => OthersKeepInv(s, content, 0);
    case OtherBytes(count) => OthersKeepInv(s, content, count);
  }

  lemma {:induction false} RunKeepsInv(s: State, content: seq<byte>, es: seq<Event>)
    requires Inv(s, content)
    ensures Inv(Run(s, content, es), content)
  {
    hide Inv, Step;
    if es != [] {
      RunKeepsInv(s, content, es[..|es|-1]);
      StepKeepsInv(Run(s, content, es[..|es|-1]), content, es[|es|-1]);
    }
  }

  // ---- what holds over every run ----

  /**
    At any moment the body is a prefix of what the reader produced, at most one pull is unanswered,
    no limit is exceeded, and the body has closed normally only if the reader said it was done.
   */
  lemma BodyIsAPrefix(content: seq<byte>, es: seq<Event>)
    ensures var s := Run(INIT, content, es);
            && s.broker.pos <= |content| && s.worker.enqueued <= content[..s.broker.pos]
            && s.worker.pulls <= s.worker.answers + 1
            && |s.worker.enqueued| <= MAX_READ_BYTES <= MAX_FILE_BYTES
            && (s.worker.stream == Closed ==> s.broker.reportedDone && s.worker.enqueued == s.broker.sent)
  {
    RunKeepsInv(INIT, content, es);
  }

  /** Queued with the broker's port open, a read in flight, or one queued reply. */
  ghost predicate InOnePlace(s: State) {
    || (s.toBroker == [Pull] && s.broker.portOpen && s.broker.inFlight == 0 && s.toWorker == [])
    || (s.toBroker == [] && s.broker.inFlight == 1 && s.broker.portOpen && s.toWorker == [])
    || (s.toBroker == [] && s.broker.inFlight == 0 && |s.toWorker| == 1)
  }

  lemma CreditPlace(s: State, content: seq<byte>)
    requires s.worker.portOpen && CreditOk(s, content) && s.worker.pulling
    ensures InOnePlace(s)
  {
    hide EndedAt, Flat;
    if s.toBroker != [] {
      assert s.toBroker[0] in s.toBroker;
      assert s.toBroker == [s.toBroker[0]] && s.toBroker[0] == Pull;
      assert |s.toWorker| == 0;
    }
    if s.broker.inFlight > 0 {
      assert |s.toWorker| == 0;
    }
  }

  /** A pull that is still waited for is in exactly one place, and where it is something can move it on. */
  lemma CreditIsNeverLost(content: seq<byte>, es: seq<Event>)
    requires Run(INIT, content, es).worker.pulling
    ensures InOnePlace(Run(INIT, content, es))
  {
    hide Run, CreditOk, BrokerOk, EndedAt, InOnePlace;
    InitInv(content);
    RunKeepsInv(INIT, content, es);
    CreditPlace(Run(INIT, content, es), content);
  }

  lemma InitInv(content: seq<byte>)
    ensures Inv(INIT, content)
  {
  }

  ghost predicate Ended(w: Worker) {
    w.stream != Readable && !w.portOpen && !w.pulling && !w.timerSet
  }

  lemma StepAfterEnd(s: State, content: seq<byte>, e: Event)
    requires Ended(s.worker)
    ensures Step(s, content, e).worker == s.worker
    ensures |Step(s, content, e).toBroker| <= |s.toBroker|
  {
    assert s.toBroker + [] == s.toBroker;
  }

  /** After close, error, timeout or cancel the worker does nothing more: no pull, no byte, no second ending. */
  lemma {:induction false} NothingAfterEnd(s: State, content: seq<byte>, es: seq<Event>)
    requires Inv(s, content) && s.worker.stream != Readable
    ensures Run(s, content, es).worker == s.worker
    ensures |Run(s, content, es).toBroker| <= |s.toBroker|
  {
    hide Step;
    if es != [] {
      NothingAfterEnd(s, content, es[..|es|-1]);
      StepAfterEnd(Run(s, content, es[..|es|-1]), content, es[|es|-1]);
    }
  }

  ghost predicate Delivered(s: State, content: seq<byte>) {
    s.worker.stream == Closed && s.worker.enqueued == content
  }

  /** Step `k` of the run closes the viewer while its reader still has bytes to read. */
  ghost predicate CutAt(content: seq<byte>, es: seq<Event>, k: nat)
    requires k < |es|
  {
    es[k].HostClose? && Cuts(Run(INIT, content, es[..k]).broker, content)
  }

  /** The record of a cut is the run's own. */
  lemma {:induction false} CutIsRecorded(content: seq<byte>, es: seq<Event>)
    ensures Run(INIT, content, es).broker.cut <==> exists k :: 0 <= k < |es| && CutAt(content, es, k)
  {
    hide Step, Cuts;
    if es != [] {
      var n := |es| - 1;
      CutIsRecorded(content, es[..n]);
      forall k | 0 <= k < n ensures CutAt(content, es[..n], k) <==> CutAt(content, es, k) {
        assert es[..n][..k] == es[..k];
      }
      CutStep(Run(INIT, content, es[..n]), content, es[n]);
      assert Run(INIT, content, es).broker.cut <==> Run(INIT, content, es[..n]).broker.cut || CutAt(content, es, n);
    }
  }

  lemma ReceiptKeepsCut(b: Broker, message: ToBroker)
    ensures BrokerReceive(b, message).broker.cut == b.cut
  {
  }

  lemma ReadKeepsCut(b: Broker, content: seq<byte>, count: nat)
    ensures BrokerRead(b, content, count).broker.cut == b.cut
  {
  }

  lemma CutKept(b: Broker, content: seq<byte>)
    ensures forall message :: BrokerReceive(b, message).broker.cut == b.cut
    ensures forall count :: BrokerRead(b, content, count).broker.cut == b.cut
    ensures BrokerReadDone(b, content).broker.cut == b.cut && BrokerReadError(b).broker.cut == b.cut
    ensures BrokerCancelDone(b).cut == b.cut
  {
    hide BrokerReceive, BrokerRead;
    forall message ensures BrokerReceive(b, message).broker.cut == b.cut { ReceiptKeepsCut(b, message); }
    forall count ensures BrokerRead(b, content, count).broker.cut == b.cut { ReadKeepsCut(b, content, count); }
  }

  lemma CutStep(s: State, content: seq<byte>, e: Event)
    ensures Step(s, content, e).broker.cut <==> s.broker.cut || (e.HostClose? && Cuts(s.broker, content))
  {
    hide WorkerPull, WorkerConsumerCancel, WorkerTimeout, WorkerReceive, Cuts,
         BrokerReceive, BrokerRead, BrokerReadDone, BrokerReadError, BrokerCancelDone;
    CutKept(s.broker, content);
  }

  /**
    A body that has closed normally is the whole file exactly when the viewer was never closed while
    its reader still had bytes to read.
   */
  lemma ClosedBodyIsWholeIff(content: seq<byte>, es: seq<Event>)
    requires Run(INIT, content, es).worker.stream == Closed
    ensures Delivered(Run(INIT, content, es), content) <==> !exists k :: 0 <= k < |es| && CutAt(content, es, k)
  {
    RunKeepsInv(INIT, content, es);
    CutIsRecorded(content, es);
  }

  lemma RunSnoc(s: State, content: seq<byte>, es: seq<Event>, e: Event)
    ensures Run(s, content, es + [e]) == Step(Run(s, content, es), content, e)
  {
    assert (es + [e])[..|es|] == es;
  }

  /** One pull, its delivery to the broker, an event there, and the delivery of the reply. */
  function RoundTrip(e: Event): seq<Event> {
    [ConsumerPull, DeliverToBroker, e, DeliverToWorker]
  }

  lemma RunRoundTrip(s: State, content: seq<byte>, es: seq<Event>, e: Event)
    ensures Run(s, content, es + RoundTrip(e)) ==
            Step(Step(Step(Step(Run(s, content, es), content, ConsumerPull), content, DeliverToBroker), content, e),
                 content, DeliverToWorker)
  {
    hide Step;
    RunSnoc(s, content, es, ConsumerPull);
    RunSnoc(s, content, es + [ConsumerPull], DeliverToBroker);
    RunSnoc(s, content, es + [ConsumerPull] + [DeliverToBroker], e);
    RunSnoc(s, content, es + [ConsumerPull] + [DeliverToBroker] + [e], DeliverToWorker);
    assert es + RoundTrip(e) == es + [ConsumerPull] + [DeliverToBroker] + [e] + [DeliverToWorker];
  }

  /** Between two pulls, with nothing in the queues. */
  ghost predicate Idle(s: State) {
    && s.toBroker == [] && s.toWorker == [] && s.broker.portOpen && s.broker.inFlight == 0
    && s.worker.stream == Readable && s.worker.portOpen && !s.worker.pulling && !s.worker.cancelled
  }

  function Waiting(s: State): State {
    State(s.worker.(pulling := true, listening := true, timerSet := true, pulls := s.worker.pulls + 1),
          s.broker.(inFlight := 1), [], [])
  }

  lemma PullArrives(s: State, content: seq<byte>)
    requires Idle(s)
    ensures Step(Step(s, content, ConsumerPull), content, DeliverToBroker) == Waiting(s)
  {
    var t := Step(s, content, ConsumerPull);
    assert t.toBroker == [Pull];
    assert t.toBroker[1..] == [];
  }

  lemma ReadRoundTrip(s: State, content: seq<byte>, count: nat)
    requires Idle(s) && !s.broker.readerCancelled && s.broker.pos + count <= |content|
    requires s.broker.bytes + count <= MAX_READ_BYTES && s.broker.totalBytes + count <= MAX_VIEWER_BYTES
    requires s.worker.bytes + count <= MAX_FILE_BYTES
    ensures var t := Step(Step(Waiting(s), content, Read(count)), content, DeliverToWorker);
            && Idle(t) && t.broker.pos == s.broker.pos + count && t.broker.aborted == s.broker.aborted
            && t.worker.enqueued == s.worker.enqueued + content[s.broker.pos..s.broker.pos + count]
  {
    var t := Step(Waiting(s), content, Read(count));
    assert t.toWorker == [Chunk(content[s.broker.pos..s.broker.pos + count])];
    assert t.toWorker[1..] == [];
  }

  lemma DoneRoundTrip(s: State, content: seq<byte>)
    requires Idle(s) && !s.broker.aborted && (s.broker.pos == |content| || s.broker.readerCancelled)
    ensures var t := Step(Step(Waiting(s), content, ReadDone), content, DeliverToWorker);
            t.worker.stream == Closed && t.worker.enqueued == s.worker.enqueued
  {
    var t := Step(Waiting(s), content, ReadDone);
    assert t.toWorker == [End];
  }

  lemma WholeFileArrives(content: seq<byte>)
    requires |content| <= MAX_READ_BYTES
    ensures Delivered(Run(INIT, content, RoundTrip(Read(|content|)) + RoundTrip(ReadDone)), content)
  {
    hide Step, Waiting, Idle, Run;
    FirstRoundTrip(content);
    var s := Run(INIT, content, RoundTrip(Read(|content|)));
    RunRoundTrip(INIT, content, RoundTrip(Read(|content|)), ReadDone);
    PullArrives(s, content);
    DoneRoundTrip(s, content);
  }

  lemma FirstRoundTrip(content: seq<byte>)
    requires |content| <= MAX_READ_BYTES
    ensures var s := Run(INIT, content, RoundTrip(Read(|content|)));
            Idle(s) && s.broker.pos == |content| && !s.broker.aborted && s.worker.enqueued == content
  {
    hide Step, Waiting;
    RunRoundTrip(INIT, content, [], Read(|content|));
    assert [] + RoundTrip(Read(|content|)) == RoundTrip(Read(|content|));
    PullArrives(INIT, content);
    ReadRoundTrip(INIT, content, |content|);
    assert [] + content[0..|content|] == content;
  }

  ghost predicate CanDeliver(content: seq<byte>) {
    exists es :: Delivered(Run(INIT, content, es), content)
  }

  /** The viewer can deliver exactly the files within the broker's own limit. */
  lemma DeliverableIff(content: seq<byte>)
    ensures CanDeliver(content) <==> |content| <= MAX_READ_BYTES
  {
    hide Run, Step;
    if |content| <= MAX_READ_BYTES {
      WholeFileArrives(content);
    }
    forall es ensures |Run(INIT, content, es).worker.enqueued| <= MAX_READ_BYTES {
      BodyIsAPrefix(content, es);
    }
  }

  /** A run that cuts a body and still closes it normally: the transport goes on after the close. */
  lemma ClosedViewerTruncates(content: seq<byte>)
    requires content != []
    ensures var es := [HostClose(false)] + RoundTrip(ReadDone);
            CutAt(content, es, 0) && Run(INIT, content, es).worker.stream == Closed && Run(INIT, content, es).worker.enqueued == []
  {
    var es := [HostClose(false)] + RoundTrip(ReadDone);
    RunSnoc(INIT, content, [], HostClose(false));
    assert [] + [HostClose(false)] == [HostClose(false)] && es[..0] == [];
    var s := Run(INIT, content, [HostClose(false)]);
    assert Idle(s) && s.broker.readerCancelled && !s.broker.aborted;
    RunRoundTrip(INIT, content, [HostClose(false)], ReadDone);
    PullArrives(s, content);
    DoneRoundTrip(s, content);
  }

  ghost predicate NeverCloses(s: State) {
    s.broker.aborted && s.worker.stream != Closed && !s.broker.reportedDone
  }

  lemma AbortedStep(s: State, content: seq<byte>, e: Event)
    requires Inv(s, content) && NeverCloses(s)
    ensures NeverCloses(Step(s, content, e))
  {
    if s.toWorker != [] && s.worker.portOpen {
      assert s.toWorker == [s.toWorker[0]];
    }
  }

  /** If the transport obeys the abort, a body whose end was not yet reported never closes normally. */
  lemma {:induction false} AbortedNeverCloses(s: State, content: seq<byte>, es: seq<Event>)
    requires Inv(s, content) && s.broker.owned && s.worker.stream != Closed && !s.broker.reportedDone
    ensures NeverCloses(Run(Step(s, content, HostClose(true)), content, es))
  {
    hide Step, Inv;
    StepKeepsInv(s, content, HostClose(true));
    if es == [] {
      AbortStep(s, content);
    } else {
      AbortedNeverCloses(s, content, es[..|es|-1]);
      RunKeepsInv(Step(s, content, HostClose(true)), content, es[..|es|-1]);
      AbortedStep(Run(Step(s, content, HostClose(true)), content, es[..|es|-1]), content, es[|es|-1]);
    }
  }

  lemma AbortStep(s: State, content: seq<byte>)
    requires s.broker.owned && s.worker.stream != Closed && !s.broker.reportedDone
    ensures NeverCloses(Step(s, content, HostClose(true)))
  {
  }

  // ---- the worker against any broker ----

  datatype WorkerEvent = Pulls | Cancels | TimesOut | Receives(message: ToWorker)

  function WorkerAct(w: Worker, e: WorkerEvent): WorkerStep {
    match e
    case Pulls => WorkerPull(w)
    case Cancels => WorkerConsumerCancel(w)
    case TimesOut => WorkerTimeout(w)
    case Receives(message) => WorkerReceive(w, message)
  }

  function WorkerRun(es: seq<WorkerEvent>): Worker {
    if es == [] then FRESH_WORKER else WorkerAct(WorkerRun(es[..|es|-1]), es[|es|-1]).worker
  }

  lemma WorkerActKeepsOk(w: Worker, e: WorkerEvent)
    requires WorkerOk(w)
    ensures WorkerOk(WorkerAct(w, e).worker)
    ensures w.stream != Readable ==> WorkerAct(w, e) == WorkerStep(w, [])
    ensures Pull in WorkerAct(w, e).posted ==> w.stream == Readable && !w.pulling
    ensures |WorkerAct(w, e).posted| <= 1
  {
  }

  /** Whatever messages arrive, the body stays within the file limit and an ended stream stays as it is. */
  lemma {:induction false} AnyBrokerIsBounded(es: seq<WorkerEvent>, later: seq<WorkerEvent>)
    ensures WorkerOk(WorkerRun(es)) && |WorkerRun(es).enqueued| <= MAX_FILE_BYTES
    ensures WorkerRun(es).stream != Readable ==> WorkerRun(es + later) == WorkerRun(es)
    decreases |es| + |later|
  {
    if later != [] {
      var before := later[..|later|-1];
      AnyBrokerIsBounded(es, before);
      assert (es + later)[..|es + later|-1] == es + before;
      WorkerActKeepsOk(WorkerRun(es), later[|later|-1]);
    } else {
      assert es + later == es;
      if es != [] {
        AnyBrokerIsBounded(es[..|es|-1], []);
        WorkerActKeepsOk(WorkerRun(es[..|es|-1]), es[|es|-1]);
      }
    }
  }

  // ---- the code on both sides ----

  /** The closure variables of the worker's `deliver` and the controller of its body. */
  class Body {
    var stream: Stream
    var pulling: bool
    var listening: bool
    var timerSet: bool
    var bytes: nat
    var cancelled: bool
    var portOpen: bool
    var enqueued: seq<byte>
    ghost var pulls: nat
    ghost var answers: nat

    ghost function View(): Worker
      reads this
    {
      Worker(stream, pulling, listening, timerSet, bytes, cancelled, portOpen, enqueued, pulls, answers)
    }

    constructor ()
      ensures View() == FRESH_WORKER
    {
      stream, pulling, listening, timerSet, bytes := Readable, false, false, false, 0;
      cancelled, portOpen, enqueued, pulls, answers := false, true, [], 0, 0;
    }

    /** The runtime calls this while the stream is readable and no pull is pending. */
    method StartPull() returns (posted: seq<ToBroker>)
      requires WorkerOk(View()) && stream == Readable && !pulling
      modifies this
      ensures WorkerStep(View(), posted) == WorkerPull(old(View())) && WorkerOk(View())
    {
      listening, timerSet := true, true;
      if cancelled {
        posted := [];
      } else {
        posted, pulling, pulls := [Pull], true, pulls + 1;
      }
    }

    method CancelStream(end: Stream) returns (posted: seq<ToBroker>)
      modifies this`stream, this`cancelled, this`timerSet, this`portOpen, this`pulling
      ensures WorkerStep(View(), posted) == WorkerCancel(old(View()), end)
    {
      stream, cancelled, timerSet := end, true, false;
      posted := if portOpen then [Cancel] else [];
      portOpen, pulling := false, false;
    }

    method ConsumerCancels() returns (posted: seq<ToBroker>)
      requires WorkerOk(View()) && stream == Readable
      modifies this
      ensures WorkerStep(View(), posted) == WorkerConsumerCancel(old(View())) && WorkerOk(View())
    {
      posted := CancelStream(Cancelled);
    }

    method TimesOut() returns (posted: seq<ToBroker>)
      requires WorkerOk(View()) && timerSet
      modifies this
      ensures WorkerStep(View(), posted) == WorkerTimeout(old(View())) && WorkerOk(View())
    {
      posted := CancelStream(Errored);
    }

    method OnMessage(message: ToWorker) returns (posted: seq<ToBroker>)
      requires WorkerOk(View()) && portOpen
      modifies this
      ensures WorkerStep(View(), posted) == WorkerReceive(old(View()), message) && WorkerOk(View())
    {
      posted := [];
      timerSet := false;
      if listening {
        answers := answers + 1;
        if message.Chunk? {
          bytes := bytes + |message.bytes|;
          if bytes > MAX_FILE_BYTES {
            posted := CancelStream(Errored);
          } else {
            enqueued := enqueued + message.bytes;
          }
        } else if message.End? {
          stream, portOpen := Closed, false;
        } else {
          posted := CancelStream(Errored);
        }
        pulling := false;
      }
    }
  }

  /** The broker's variables for one open file. */
  class OpenFile {
    const content: seq<byte>
    var portOpen: bool
    var owned: bool
    var inFlight: nat
    var cancelling: bool
    var readerCancelled: bool
    var hostClosed: bool
    ghost var aborted: bool
    ghost var cut: bool
    ghost var reportedDone: bool
    var pos: nat
    var bytes: nat
    var totalBytes: nat
    ghost var sent: seq<byte>

    ghost function View(): Broker
      reads this
    {
      Broker(portOpen, owned, inFlight, cancelling, readerCancelled, hostClosed, aborted, cut, reportedDone, pos, bytes, totalBytes, sent)
    }

    constructor (file: seq<byte>)
      ensures content == file && View() == FRESH_BROKER
    {
      content, portOpen, owned, inFlight := file, true, true, 0;
      cancelling, readerCancelled, hostClosed, aborted, cut, reportedDone := false, false, false, false, false, false;
      pos, bytes, totalBytes, sent := 0, 0, 0, [];
    }

    method OnMessage(message: ToBroker)
      requires portOpen
      modifies this
      ensures BrokerStep(View(), []) == BrokerReceive(old(View()), message)
    {
      if message == Cancel {
        readerCancelled, cancelling := true, true;
      } else {
        inFlight := inFlight + 1;
      }
    }

    method Fail() returns (posted: seq<ToWorker>)
      modifies this`readerCancelled, this`cancelling
      ensures BrokerStep(View(), posted) == BrokerFail(old(View()))
    {
      posted := if portOpen then [Failed] else [];
      readerCancelled, cancelling := true, true;
    }

    method Count(count: nat)
      requires inFlight > 0
      modifies this`inFlight, this`pos, this`bytes, this`totalBytes
      ensures View() == Counted(old(View()), count)
    {
      inFlight, pos := inFlight - 1, pos + count;
      bytes, totalBytes := bytes + count, totalBytes + count;
    }

    method Answer(part: seq<byte>) returns (posted: seq<ToWorker>)
      modifies this`readerCancelled, this`cancelling, this`sent
      ensures BrokerStep(View(), posted) == Answered(old(View()), part)
    {
      if bytes > MAX_READ_BYTES || totalBytes > MAX_VIEWER_BYTES {
        posted := Fail();
      } else if portOpen {
        posted := [Chunk(part)];
        sent := sent + part;
      } else {
        posted := [];
      }
    }

    method OnRead(count: nat) returns (posted: seq<ToWorker>)
      requires BrokerOk(View(), content) && inFlight > 0 && !readerCancelled && pos + count <= |content|
      modifies this
      ensures BrokerStep(View(), posted) == BrokerRead(old(View()), content, count) && BrokerOk(View(), content)
    {
      hide BrokerOk, Counted, Answered;
      ReadKeepsBroker(View(), content, count);
      var part := content[pos..pos + count];
      Count(count);
      posted := Answer(part);
    }

    method OnReadDone() returns (posted: seq<ToWorker>)
      requires BrokerOk(View(), content) && inFlight > 0 && !aborted && (pos == |content| || readerCancelled)
      modifies this
      ensures BrokerStep(View(), posted) == BrokerReadDone(old(View()), content) && BrokerOk(View(), content)
    {
      posted := if portOpen then [End] else [];
      inFlight, reportedDone, owned, portOpen := inFlight - 1, true, false, false;
    }

    method OnReadError() returns (posted: seq<ToWorker>)
      requires inFlight > 0
      modifies this
      ensures BrokerStep(View(), posted) == BrokerReadError(old(View()))
    {
      inFlight := inFlight - 1;
      posted := Fail();
    }

    method OnCancelDone()
      requires cancelling
      modifies this
      ensures View() == BrokerCancelDone(old(View()))
    {
      cancelling, owned, portOpen := false, false, false;
    }

    /** `aborts`: the transport's body obeys the abort signal. */
    method OnHostClose(ghost aborts: bool)
      modifies this`hostClosed, this`readerCancelled, this`aborted, this`cut
      ensures View() == BrokerHostClose(old(View()), content, aborts)
    {
      cut := cut || Cuts(View(), content);
      aborted := aborted || (aborts && owned);
      hostClosed := true;
      if owned { readerCancelled := true; }
    }
  }
}
