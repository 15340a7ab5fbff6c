/** The worker: the retry loop around `receive_once` and the two phases of a task
    invocation (worker/worker_app/tasks.py). */
module Worker {
  import opened StreamNames
  import opened Protocol
  import opened Receiver
  import opened Shuffle
  import opened Redis
  import opened ChunkedTransfer

  /** One turn of the retry loop: the id its DATA_REQUEST got, the cursor it read
      from, and what `receive_once` gave. */
  datatype Attempt = Attempt(requestId: nat, from: nat, result: Reception)

  /** Each attempt begins where the one before it stopped: the segments read are
      consecutive, disjoint and without gap, and each result explains its own. */
  ghost predicate Account(c: Codec, entries: seq<Message>, request: Message, attempts: seq<Attempt>) {
    forall i :: 0 <= i < |attempts| ==> AccountAt(c, entries, request, attempts, i)
  }

  ghost predicate AccountAt(c: Codec, entries: seq<Message>, request: Message, attempts: seq<Attempt>, i: nat)
    requires i < |attempts|
  {
    var a := attempts[i];
    && 0 < a.requestId <= |entries| && entries[a.requestId - 1] == request
    && (i > 0 ==> attempts[i - 1].requestId < a.requestId)
    && a.from == (if i == 0 then 0 else attempts[i - 1].result.lastId)
    && Explains(c, entries, a.from, a.result)
  }

  function Repeat(m: Message, n: nat): seq<Message> {
    seq(n, _ => m)
  }

  lemma ExplainsLater(c: Codec, e: seq<Message>, e': seq<Message>, from: nat, r: Reception)
    requires e <= e' && Explains(c, e, from, r)
    ensures Explains(c, e', from, r)
  {
    if r.Timeout? {
      assert e'[from..r.lastId] == e[from..r.lastId];
    } else {
      assert e'[from..] == e[from..] + e'[|e|..];
      FoldStable(c, Idle, e[from..], e'[|e|..]);
    }
  }

  lemma AccountLater(c: Codec, e: seq<Message>, e': seq<Message>, request: Message, attempts: seq<Attempt>)
    requires e <= e' && Account(c, e, request, attempts)
    ensures Account(c, e', request, attempts)
  {
    forall i | 0 <= i < |attempts| ensures AccountAt(c, e', request, attempts, i) {
      assert AccountAt(c, e, request, attempts, i);
      ExplainsLater(c, e, e', attempts[i].from, attempts[i].result);
    }
  }

  lemma AccountMore(c: Codec, e: seq<Message>, e': seq<Message>, request: Message, attempts: seq<Attempt>, a: Attempt)
    requires e <= e' && Account(c, e, request, attempts)
    requires |e| < a.requestId <= |e'| && e'[a.requestId - 1] == request
    requires a.from == (if attempts == [] then 0 else attempts[|attempts| - 1].result.lastId)
    requires Explains(c, e', a.from, a.result)
    ensures Account(c, e', request, attempts + [a])
  {
    var more := attempts + [a];
    AccountLater(c, e, e', request, attempts);
    forall i | 0 <= i < |more| ensures AccountAt(c, e', request, more, i) {
      if i < |attempts| {
        assert AccountAt(c, e', request, attempts, i);
      } else if i > 0 {
        assert AccountAt(c, e, request, attempts, i - 1);
      }
    }
  }

  /** Recreate-from-start: ask, receive, and on any failure ask again. `got` is the
      payload extracted; its absence is the False of the source. */
  method ReceiveWorkspace(c: Codec, s: Stream, wait: real, maxRetries: nat, request: Message)
      returns (got: Option<Bytes>, ghost attempts: seq<Attempt>)
    requires s.Valid()
    modifies s
    ensures s.Valid()
    ensures Made(c, old(s.entries), old(s.future), request, attempts, s.entries, s.future)
    ensures |attempts| <= maxRetries
    ensures forall i :: 0 <= i < |attempts| - 1 ==> !attempts[i].result.Received?
    ensures match got
            case Some(data) => attempts != [] && attempts[|attempts| - 1].result.Received?
                               && attempts[|attempts| - 1].result.data == data
            case None => |attempts| == maxRetries
                         && forall a <- attempts :: !a.result.Received?
  {
    var lastId := 0;
    attempts := [];
    ghost var e0, f0 := s.entries, s.future;
    NoAttemptYet(c, e0, f0, request);
    for attempt := 1 to maxRetries + 1
      invariant s.Valid() && |attempts| == attempt - 1 && lastId == LastId(attempts)
      invariant Retrying(c, e0, f0, request, attempts, s.entries, s.future)
    {
      ghost var e, f := s.entries, s.future;
      BeforeEnd(c, e0, f0, request, attempts, e, f);
      var id := Publish(s, request, e0, f0, Repeat(request, |attempts|));
      ghost var e', f' := s.entries, s.future;
      var r, at := ReceiveOnce(c, s, wait, lastId);
      AttemptMade(c, e0, f0, request, attempts, e, e', f', s.entries, s.future, Attempt(id, lastId, r));
      attempts := attempts + [Attempt(id, lastId, r)];
      lastId := r.lastId;
      if r.Received? {
        got := Some(r.data);
        return;
      }
    }
    got := None;
  }

  function LastId(attempts: seq<Attempt>): nat {
    if attempts == [] then 0 else attempts[|attempts| - 1].result.lastId
  }

  /** The loop between two attempts: all so far failed, all accounted for, and
      exactly one request written for each. */
  ghost predicate Retrying(c: Codec, e0: seq<Message>, f0: seq<Message>, request: Message,
                           attempts: seq<Attempt>, e: seq<Message>, f: seq<Message>)
  {
    && Made(c, e0, f0, request, attempts, e, f)
    && forall a <- attempts :: !a.result.Received?
  }

  ghost predicate Made(c: Codec, e0: seq<Message>, f0: seq<Message>, request: Message,
                       attempts: seq<Attempt>, e: seq<Message>, f: seq<Message>)
  {
    && Account(c, e, request, attempts)
    && Wrote(e0, f0, Repeat(request, |attempts|), e, f)
  }

  lemma NoAttemptYet(c: Codec, e0: seq<Message>, f0: seq<Message>, request: Message)
    ensures Retrying(c, e0, f0, request, [], e0, f0)
  {
    WroteNothing(e0, f0);
    assert Repeat(request, 0) == [];
  }

  lemma BeforeEnd(c: Codec, e0: seq<Message>, f0: seq<Message>, request: Message,
                  attempts: seq<Attempt>, e: seq<Message>, f: seq<Message>)
    requires Made(c, e0, f0, request, attempts, e, f)
    ensures LastId(attempts) <= |e|
  {
    if attempts != [] {
      assert AccountAt(c, e, request, attempts, |attempts| - 1);
    }
  }

  lemma AttemptMade(c: Codec, e0: seq<Message>, f0: seq<Message>, request: Message, attempts: seq<Attempt>,
                    e: seq<Message>, e': seq<Message>, f': seq<Message>,
                    e'': seq<Message>, f'': seq<Message>, a: Attempt)
    requires Account(c, e, request, attempts)
    requires Wrote(e0, f0, Repeat(request, |attempts|) + [request], e', f')
    requires e <= e' && |e| < a.requestId <= |e'| && e'[a.requestId - 1] == request
    requires Grown(e', f', e'', f'')
    requires a.from == LastId(attempts) && Explains(c, e'', a.from, a.result)
    ensures Made(c, e0, f0, request, attempts + [a], e'', f'')
  {
    assert Repeat(request, |attempts|) + [request] == Repeat(request, |attempts| + 1);
    WroteGrown(e0, f0, Repeat(request, |attempts| + 1), e', f', e'', f'');
    AccountMore(c, e, e'', request, attempts, a);
  }

  /** On an honest stream a reception is a timeout, or the whole payload of a transfer
      that is complete on the stream. */
  ghost predicate HonestReception(c: Codec, sent: map<Id, Payload>, entries: seq<Message>, r: Reception) {
    match r
    case Timeout(_) => true
    case Invalid(_, _) => false
    case Received(data, id, t) =>
      && t in sent && data == sent[t].data
      && id <= |entries| && Of(t, entries[..id]) == Script(c, t, sent[t])
  }

  lemma HonestOne(c: Codec, sent: map<Id, Payload>, entries: seq<Message>, from: nat, r: Reception)
    requires c.Lossless() && Honest(c, sent, entries)
    requires Explains(c, entries, from, r)
    ensures HonestReception(c, sent, entries, r)
  {
    if !r.Timeout? {
      var v := Fold(c, Idle, entries[from..]);
      LastStartWins(c, sent, entries, from, |entries|);
      assert entries[from..|entries|] == entries[from..];
      DecidedHonestly(c, sent, entries, from, v);
    }
  }

  lemma DecidedHonestly(c: Codec, sent: map<Id, Payload>, entries: seq<Message>, from: nat, v: Verdict)
    requires from <= |entries| && v.Decided? && 0 < v.at <= |entries| - from
    requires Faithful(c, sent, entries, from, |entries|, v)
    ensures v.outcome.Accepted? && v.outcome.transfer in sent && v.outcome.data == sent[v.outcome.transfer].data
    ensures Of(v.outcome.transfer, entries[..from + v.at]) == Script(c, v.outcome.transfer, sent[v.outcome.transfer])
  {
  }

  /** So every failed attempt is a timeout, and what the loop returns is such a payload. */
  lemma HonestAttempts(c: Codec, sent: map<Id, Payload>, entries: seq<Message>, request: Message, attempts: seq<Attempt>)
    requires c.Lossless() && Honest(c, sent, entries)
    requires Account(c, entries, request, attempts)
    ensures forall a <- attempts :: HonestReception(c, sent, entries, a.result)
  {
    forall a <- attempts ensures HonestReception(c, sent, entries, a.result) {
      var i :| 0 <= i < |attempts| && attempts[i] == a;
      assert AccountAt(c, entries, request, attempts, i);
      HonestOne(c, sent, entries, a.from, a.result);
    }
  }

  const TRANSFERRING_INPUT := StatusReport("TRANSFERRING_INPUT")
  const TRANSFER_FAILED := StatusReport("TRANSFER_FAILED")
  const EXECUTING := StatusReport("EXECUTING")
  const TASK_SUCCEEDED := StatusReport("TASK_SUCCEEDED")
  const TASK_FAILED := StatusReport("TASK_FAILED")

  /** The streams one invocation writes and reads. */
  datatype Wires = Wires(announcements: Stream, events: Stream, status: Stream, output: Stream)
  {
    ghost predicate Valid() {
      && announcements.Valid() && events.Valid() && status.Valid() && output.Valid()
      && announcements != events && announcements != status && announcements != output
      && events != status && events != output && status != output
    }
  }

  class WorkerProcess {
    var prepared: map<string, Bytes>   // _prepared_workspaces
    const tenant: string
    const delegate: string

    constructor (tenant: string, delegate: string)
      ensures prepared == map[] && this.tenant == tenant && this.delegate == delegate
    {
      prepared := map[];
      this.tenant, this.delegate := tenant, delegate;
    }

    /** Phase 1, before the Celery body runs: announce, then request and rebuild the
        workspace. An empty execution id stands for a missing one. */
    method PrepareExecution(c: Codec, taskId: string, execution: string, file: string, w: Wires,
                            wait: real, maxRetries: nat)
        returns (ghost statuses: seq<Message>, ghost attempts: seq<Attempt>)
      requires w.Valid()
      modifies this, w.announcements, w.events, w.status
      ensures w.Valid()
      ensures execution == "" ==> statuses == [] && attempts == [] && prepared == old(prepared)
      ensures execution != "" ==>
        && Made(c, old(w.events.entries), old(w.events.future), DataRequest(tenant, delegate, file),
                attempts, w.events.entries, w.events.future)
        && Wrote(old(w.announcements.entries), old(w.announcements.future),
                 [ExecutionStarted(execution, StreamKeys(execution, delegate))],
                 w.announcements.entries, w.announcements.future)
        && (if Succeeded(attempts)
            then statuses == [StatusReport("TRANSFERRING_INPUT")]
                 && prepared == old(prepared)[taskId := attempts[|attempts| - 1].result.data]
            else statuses == [StatusReport("TRANSFERRING_INPUT"), StatusReport("TRANSFER_FAILED")]
                 && prepared == old(prepared) && |attempts| == maxRetries)
      ensures Wrote(old(w.status.entries), old(w.status.future), statuses, w.status.entries, w.status.future)
    {
      statuses, attempts := [], [];
      ghost var e0, f0 := w.status.entries, w.status.future;
      WroteNothing(e0, f0);
      if execution == "" {
        return;
      }
      WroteNothing(w.announcements.entries, w.announcements.future);
      var _ := Publish(w.announcements, ExecutionStarted(execution, StreamKeys(execution, delegate)),
                       w.announcements.entries, w.announcements.future, []);
      var _ := Publish(w.status, TRANSFERRING_INPUT, e0, f0, statuses);
      statuses := statuses + [TRANSFERRING_INPUT];

      var got;
      got, attempts := ReceiveWorkspace(c, w.events, wait, maxRetries, DataRequest(tenant, delegate, file));
      if got.None? {
        var _ := Publish(w.status, TRANSFER_FAILED, e0, f0, statuses);
        statuses := statuses + [TRANSFER_FAILED];
        return;
      }
      prepared := prepared[taskId := got.value];
    }

    /** Phase 2, the body of execute_task: nothing without a prepared workspace. `run` is the
        executor; None is an exception out of it. `cut` is when sending the output raises,
        if it does. */
    method ExecuteTask(c: Codec, taskId: string, run: Bytes -> Option<Bytes>, w: Wires, chunkSize: nat, transfer: Id,
                       cut: Option<nat>)
        returns (ghost statuses: seq<Message>, ghost sentOutput: seq<Message>)
      requires w.Valid() && chunkSize > 0
      modifies this, w.status, w.output
      ensures w.Valid()
      ensures prepared == old(prepared) - {taskId}
      ensures taskId !in old(prepared) ==> statuses == [] && sentOutput == []
      ensures taskId in old(prepared) ==>
        Executed(c, run(old(prepared)[taskId]), transfer, chunkSize, cut, statuses, sentOutput)
      ensures Wrote(old(w.status.entries), old(w.status.future), statuses, w.status.entries, w.status.future)
      ensures Wrote(old(w.output.entries), old(w.output.future), sentOutput, w.output.entries, w.output.future)
    {
      statuses, sentOutput := [], [];
      ghost var e0, f0 := w.status.entries, w.status.future;
      WroteNothing(e0, f0);
      WroteNothing(w.output.entries, w.output.future);
      if taskId !in prepared {
        return;
      }
      var workspace := prepared[taskId];
      prepared := prepared - {taskId};
      var _ := Publish(w.status, EXECUTING, e0, f0, statuses);
      statuses := statuses + [EXECUTING];
      var result := run(workspace);
      var ok := result.Some?;
      if ok {
        var sum, size;
        ok, sum, size := SendBytes(c, w.output, result.value, chunkSize, transfer, cut);
        ghost var whole := Transfer(c, transfer, result.value, chunkSize);
        sentOutput := if ok then whole else whole[..cut.value];
      }
      var report := if ok then TASK_SUCCEEDED else TASK_FAILED;
      var _ := Publish(w.status, report, e0, f0, statuses);
      statuses := statuses + [report];
    }

    /** One whole invocation: what it reports, and what it sends. Without an execution id,
        nothing; if no attempt received a workspace, TRANSFER_FAILED and nothing sent; and
        otherwise what came of running the executor on the very bytes the last attempt
        received. No workspace is left behind. */
    method Invoke(c: Codec, taskId: string, execution: string, file: string, run: Bytes -> Option<Bytes>, w: Wires,
                  wait: real, maxRetries: nat, chunkSize: nat, transfer: Id, cut: Option<nat>)
        returns (ghost attempts: seq<Attempt>, ghost statuses: seq<Message>, ghost sentOutput: seq<Message>)
      requires w.Valid() && chunkSize > 0 && taskId !in prepared
      modifies this, w.announcements, w.events, w.status, w.output
      ensures w.Valid() && prepared == old(prepared)
      ensures Wrote(old(w.status.entries), old(w.status.future), statuses, w.status.entries, w.status.future)
      ensures Wrote(old(w.output.entries), old(w.output.future), sentOutput, w.output.entries, w.output.future)
      ensures execution == "" ==> attempts == [] && statuses == [] && sentOutput == []
      ensures execution != "" ==>
        && Made(c, old(w.events.entries), old(w.events.future), DataRequest(tenant, delegate, file),
                attempts, w.events.entries, w.events.future)
        && if !Succeeded(attempts)
           then |attempts| == maxRetries && sentOutput == []
                && statuses == [StatusReport("TRANSFERRING_INPUT"), StatusReport("TRANSFER_FAILED")]
           else statuses != [] && statuses[0] == StatusReport("TRANSFERRING_INPUT")
                && Executed(c, run(attempts[|attempts| - 1].result.data), transfer, chunkSize, cut, statuses[1..], sentOutput)
    {
      ghost var before := prepared;
      ghost var e0, f0 := w.status.entries, w.status.future;
      ghost var phase1;
      phase1, attempts := PrepareExecution(c, taskId, execution, file, w, wait, maxRetries);
      assert execution != "" && Succeeded(attempts) <==> taskId in prepared;
      ghost var e1, f1, phase2 := w.status.entries, w.status.future, [];
      phase2, sentOutput := ExecuteTask(c, taskId, run, w, chunkSize, transfer, cut);
      statuses := phase1 + phase2;
      WroteBoth(e0, f0, phase1, e1, f1, phase2, w.status.entries, w.status.future);
      assert prepared == before;
      assert phase1 != [] ==> phase1[0] == TRANSFERRING_INPUT;
      assert |phase1| == 1 ==> statuses[1..] == phase2;
    }
  }

  /** What phase 2 reports and sends, given what the executor made of the workspace: the
      whole output and then success, or failure after no output or as much of it as got
      through -- even all of it. */
  ghost predicate Executed(c: Codec, result: Option<Bytes>, transfer: Id, chunkSize: nat, cut: Option<nat>,
                           statuses: seq<Message>, sentOutput: seq<Message>)
    requires chunkSize > 0
  {
    match result
    case None => statuses == [StatusReport("EXECUTING"), StatusReport("TASK_FAILED")] && sentOutput == []
    case Some(zip) =>
      var whole := Transfer(c, transfer, zip, chunkSize);
      if cut.None? || |whole| < cut.value
      then statuses == [StatusReport("EXECUTING"), StatusReport("TASK_SUCCEEDED")] && sentOutput == whole
      else statuses == [StatusReport("EXECUTING"), StatusReport("TASK_FAILED")] && sentOutput == whole[..cut.value]
  }

  ghost predicate Succeeded(attempts: seq<Attempt>) {
    attempts != [] && attempts[|attempts| - 1].result.Received?
  }
}
