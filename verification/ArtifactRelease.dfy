/**
  How the two ends of an artifact stream let go of each other: what the worker posts when its body
  ends, that the broker's reader is freed, and that nothing is sent beyond the broker's limits.
 */
module ArtifactRelease {
  import opened ArtifactStream

  /** The body ended early: by an error, a timeout or its consumer. */
  predicate EndedEarly(w: Worker) {
    w.stream == Errored || w.stream == Cancelled
  }

  /** A message that the worker takes as a failure: an error report, or bytes beyond its limit. */
  predicate Fails(w: Worker, message: ToWorker) {
    message.Failed? || (message.Chunk? && |w.enqueued| + |message.bytes| > MAX_FILE_BYTES)
  }

  /**
    A step ends a readable body early exactly when its consumer cancels it, a waiting pull times out, or
    a failure is delivered to a worker that listens; it then posts exactly one cancel.
   */
  lemma EarlyEndIff(s: State, content: seq<byte>, e: Event)
    requires Inv(s, content) && s.worker.stream == Readable
    ensures var t := Step(s, content, e);
            && (t.worker.stream == Cancelled <==> e == ConsumerCancel)
            && (t.worker.stream == Errored <==>
                  || (e == Timeout && s.worker.pulling)
                  || (e == DeliverToWorker && s.toWorker != [] && s.worker.listening && Fails(s.worker, s.toWorker[0])))
            && (EndedEarly(t.worker) ==> t.toBroker == s.toBroker + [Cancel])
  {
    hide BrokerOk, CreditOk, EndedAt, BrokerReceive, BrokerRead, BrokerReadDone, BrokerReadError, BrokerCancelDone, BrokerHostClose;
  }

  /** A cancel is on its way to the broker, or its reader is being cancelled, or it is free. */
  ghost predicate Releasing(s: State) {
    Cancel in s.toBroker || s.broker.cancelling || !s.broker.owned
  }

  /** The broker's port is open as long as it owns the reader, and an ended body releases it. */
  ghost predicate Released(s: State) {
    && s.broker.portOpen == s.broker.owned
    && (s.worker.stream != Readable ==> Releasing(s))
  }

  lemma WorkerStepReleases(s: State, content: seq<byte>, e: Event)
    requires Inv(s, content) && Released(s) && (e.ConsumerPull? || e.ConsumerCancel? || e.Timeout? || e.DeliverToWorker?)
    ensures Released(Step(s, content, e))
  {
    hide BrokerOk;
  }

  lemma ReceiptReleases(s: State, content: seq<byte>)
    requires Released(s)
    ensures Released(Step(s, content, DeliverToBroker))
  {
    if s.toBroker != [] {
      assert s.toBroker == [s.toBroker[0]] + s.toBroker[1..];
    }
  }

  lemma BrokerStepReleases(s: State, content: seq<byte>, e: Event)
    requires Released(s) && !(e.ConsumerPull? || e.ConsumerCancel? || e.Timeout? || e.DeliverToWorker? || e.DeliverToBroker?)
    ensures Released(Step(s, content, e))
  {
  }

  lemma StepReleases(s: State, content: seq<byte>, e: Event)
    requires Inv(s, content) && Released(s)
    ensures Released(Step(s, content, e))
  {
    hide Step, Inv, Released;
    if e.ConsumerPull? || e.ConsumerCancel? || e.Timeout? || e.DeliverToWorker? {
      WorkerStepReleases(s, content, e);
    } else if e.DeliverToBroker? {
      ReceiptReleases(s, content);
    } else {
      BrokerStepReleases(s, content, e);
    }
  }

  lemma {:induction false} RunReleases(content: seq<byte>, es: seq<Event>)
    ensures Inv(Run(INIT, content, es), content) && Released(Run(INIT, content, es))
  {
    hide Step, Inv, Released;
    InitInv(content);
    FreshIsReleased();
    RunKeepsInv(INIT, content, es);
    if es != [] {
      RunReleases(content, es[..|es|-1]);
      StepReleases(Run(INIT, content, es[..|es|-1]), content, es[|es|-1]);
    }
  }

  lemma FreshIsReleased()
    ensures Released(INIT)
  {
  }

  /**
    On every run, once the body has ended, early or normally, a cancel is queued to the broker, or its
    reader is being cancelled, or the reader is free and the port closed.
   */
  lemma EndedBodyReleases(content: seq<byte>, es: seq<Event>)
    requires Run(INIT, content, es).worker.stream != Readable
    ensures var s := Run(INIT, content, es);
            Cancel in s.toBroker || (s.broker.cancelling && s.broker.readerCancelled) || (!s.broker.owned && !s.broker.portOpen)
  {
    RunReleases(content, es);
  }

  /** Everything queued is delivered, and a cancel under way finishes. */
  function Drain(n: nat): seq<Event> {
    if n == 0 then [] else Drain(n - 1) + [DeliverToBroker]
  }

  lemma {:induction false} DrainEmpties(s: State, content: seq<byte>, n: nat)
    requires n <= |s.toBroker|
    ensures Run(s, content, Drain(n)).toBroker == s.toBroker[n..] && Run(s, content, Drain(n)).worker == s.worker
  {
    if n > 0 {
      DrainEmpties(s, content, n - 1);
      RunSnoc(s, content, Drain(n - 1), DeliverToBroker);
    }
  }

  /** So the reader of an ended body is free as soon as what is queued was delivered and the cancel is done. */
  lemma EndedReaderIsFreed(content: seq<byte>, es: seq<Event>)
    requires Run(INIT, content, es).worker.stream != Readable
    ensures var s := Run(INIT, content, es);
            !Run(s, content, Drain(|s.toBroker|) + [CancelDone]).broker.owned
  {
    var s := Run(INIT, content, es);
    var n := |s.toBroker|;
    RunReleases(content, es);
    DrainEmpties(s, content, n);
    DrainKeeps(s, content, n);
    RunSnoc(s, content, Drain(n), CancelDone);
  }

  lemma {:induction false} DrainKeeps(s: State, content: seq<byte>, n: nat)
    requires Inv(s, content) && Released(s)
    ensures Inv(Run(s, content, Drain(n)), content) && Released(Run(s, content, Drain(n)))
  {
    hide Step, Inv, Released;
    if n > 0 {
      DrainKeeps(s, content, n - 1);
      RunSnoc(s, content, Drain(n - 1), DeliverToBroker);
      StepKeepsInv(Run(s, content, Drain(n - 1)), content, DeliverToBroker);
      StepReleases(Run(s, content, Drain(n - 1)), content, DeliverToBroker);
    }
  }

  /**
    A step sends bytes only as an answer to a read of the next ones, with the file's and the viewer's
    counts, this read included, within their limits; beyond either limit the read is reported as failed.
   */
  lemma SendsWithinLimits(s: State, content: seq<byte>, e: Event)
    requires Inv(s, content)
    ensures var b, c := s.broker, Step(s, content, e).broker;
            c.sent != b.sent ==>
              && e.Read? && c.bytes == b.bytes + e.count <= MAX_READ_BYTES
              && c.totalBytes == b.totalBytes + e.count <= MAX_VIEWER_BYTES
              && b.pos + e.count <= |content| && c.sent == b.sent + content[b.pos..b.pos + e.count]
              && Step(s, content, e).toWorker == s.toWorker + [Chunk(content[b.pos..b.pos + e.count])]
  {
    hide WorkerOk, CreditOk, EndedAt, WorkerPull, WorkerConsumerCancel, WorkerTimeout, WorkerReceive, BrokerRead;
    if e.Read? {
      ReadSends(s.broker, content, e.count);
    }
  }

  lemma ReadSends(b: Broker, content: seq<byte>, count: nat)
    ensures var step := BrokerRead(b, content, count);
            step.broker.sent != b.sent ==>
              && step.broker.bytes == b.bytes + count <= MAX_READ_BYTES
              && step.broker.totalBytes == b.totalBytes + count <= MAX_VIEWER_BYTES
              && b.pos + count <= |content| && step.broker.sent == b.sent + content[b.pos..b.pos + count]
              && step.posted == [Chunk(content[b.pos..b.pos + count])]
  {
  }

  /** Beyond either limit a read answers with a failure, and its reader is cancelled. */
  lemma BeyondLimitsFails(s: State, content: seq<byte>, count: nat)
    requires Inv(s, content) && s.broker.inFlight > 0 && !s.broker.readerCancelled && s.broker.pos + count <= |content|
    requires s.broker.bytes + count > MAX_READ_BYTES || s.broker.totalBytes + count > MAX_VIEWER_BYTES
    ensures var t := Step(s, content, Read(count));
            && t.broker.cancelling && t.broker.readerCancelled && t.broker.sent == s.broker.sent
            && t.toWorker == s.toWorker + (if s.broker.portOpen then [Failed] else [])
  {
    hide WorkerOk, CreditOk, EndedAt, BrokerOk;
  }
}
