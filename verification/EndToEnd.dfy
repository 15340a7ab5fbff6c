/** One task invocation of the worker, watched by the dispatcher. */
module EndToEnd {
  import opened StreamNames
  import opened Protocol
  import opened Shuffle
  import opened Redis
  import opened ChunkedTransfer
  import opened Watching
  import opened StreamDispatcher
  import opened Worker
  import opened FailedRuns

  lemma {:induction false} StatusesOf(evs: seq<Event>, ev: Event)
    requires ev in evs && ev.kind == Kind.Status
    ensures ev.m in Project(Kind.Status, evs)
    decreases |evs|
  {
    if evs[0] != ev {
      StatusesOf(evs[1..], ev);
    }
  }

  /** What a successful invocation writes, as far as a watcher has read it. At whatever
      point the watcher stands, with whatever requests and log lines among what it read:
      the execution is terminal exactly when the whole output has been read, and then it
      has SUCCEEDED with the worker's own bytes stored under their hash. */
  lemma FaultFreeInvocation(c: Codec, path: string, t: Id, zip: Bytes, v0: View,
                            replies: seq<seq<Event>>, s: Contents, at: Counts)
    requires c.Lossless()
    requires Open(v0.row.status) && v0.held == None
    requires Life(c, path, v0, replies) && AllRead(s, at, Flat(replies))
    requires s.status <= [TRANSFERRING_INPUT, EXECUTING, TASK_SUCCEEDED]
    requires s.output <= Transfer(c, t, zip, CHUNK_SIZE)
    ensures var v := ApplyAll(c, path, v0, Flat(replies));
            if at.output == |Transfer(c, t, zip, CHUNK_SIZE)| then
              && v.row.status == SUCCEEDED && v.stored == Some(zip)
              && v.row.outputPath == path && v.row.outputChecksum == c.sha(zip)
            else Open(v.row.status)
  {
    var evs := Flat(replies);
    var p := Payload(zip, CHUNK_SIZE);
    forall ev <- evs | ev.kind == Kind.Status && ev.m.StatusReport?
      ensures ev.m.status == "TRANSFERRING_INPUT" || ev.m.status == "EXECUTING" || ev.m.status == "TASK_SUCCEEDED"
    {
      StatusesOf(evs, ev);
      assert ev.m in s.status[..at.status];
      assert ev.m in [TRANSFERRING_INPUT, EXECUTING, TASK_SUCCEEDED];
    }
    assert Project(Output, evs) == s.output[..at.output] <= Script(c, t, p);
    Convergence(c, path, t, p, v0, replies);
    var script := Script(c, t, p);
    assert at.output == |script| ==> s.output[..at.output] == script;
  }

  lemma WroteAlone(own: seq<Message>, after: seq<Message>, left: seq<Message>)
    requires Wrote([], [], own, after, left)
    ensures after == own
  {
    assert after[0..] == after;
    WovenAlone(own, after);
  }

  /** One thread on streams that are being filled, at any pace, with these entries. */
  method WatchFilling(c: Codec, events: seq<Message>, lines: seq<Message>, statuses: seq<Message>, output: seq<Message>,
                      db: Database, clock: Clock, fx: Fixtures, e: string, path: string, lifetime: nat)
      returns (ending: Ending, ghost replies: seq<seq<Event>>, ghost s: Contents, ghost at: Counts)
    requires e in db.rows
    modifies db, clock
    ensures s.status <= statuses && s.output <= output && AllRead(s, at, Flat(replies))
    ensures var v0 := old(See(db, e, path, |db.LogsOf(e)|, null));
            && Life(c, path, v0, replies)
            && (ending != Gone ==>
                  var v := ApplyAll(c, path, v0, Flat(replies));
                  && e in db.rows && db.rows[e].(delegate := None) == v.row && db.FileAt(path) == v.stored
                  && (ending == Settled ==> !Open(v.row.status)))
  {
    var f1 := new Stream(events, 0.0, 0.0);
    var f2 := new Stream(lines, 0.0, 0.0);
    var f3 := new Stream(statuses, 0.0, 0.0);
    var f4 := new Stream(output, 0.0, 0.0);
    var feed := Feed(f1, f2, f3, f4);
    assert Coming(feed) == Contents([], lines, statuses, output);
    ending, replies, at := WatchExecution(c, db, feed, clock, fx, e, path, lifetime);
    s := ContentsOf(feed);
  }

  /** What is left behind by a successful invocation and its watcher. */
  ghost predicate Outcome(c: Codec, path: string, whole: seq<Message>, zip: Bytes, ending: Ending, at: Counts,
                          row: Row, stored: Option<Bytes>)
  {
    && (if at.output == |whole| then
          && row.status == SUCCEEDED && stored == Some(zip)
          && row.outputPath == path && row.outputChecksum == c.sha(zip)
        else Open(row.status))
    && (ending == Settled ==> row.status == SUCCEEDED)
  }

  /** And by one that fails, as `x`: nothing is stored, and the row is `x` once all the
      reports have been read, and QUEUED, TRANSFERRING or RUNNING until then. */
  ghost predicate Failed(x: ExecStatus, reports: nat, ending: Ending, at: Counts, was: View, row: Row, stored: Option<Bytes>) {
    && (if at.status == reports then row.status == x else Open(row.status))
    && (ending == Settled ==> row.status == x)
    && stored == was.stored && row.outputPath == was.row.outputPath && row.outputChecksum == was.row.outputChecksum
  }

  lemma FaultFreeOutcome(c: Codec, path: string, t: Id, zip: Bytes, v0: View, replies: seq<seq<Event>>,
                         s: Contents, at: Counts, statuses: seq<Message>, output: seq<Message>, cut: Option<nat>,
                         ending: Ending, row: Row)
    requires c.Lossless() && Open(v0.row.status) && v0.held == None
    requires Life(c, path, v0, replies) && AllRead(s, at, Flat(replies))
    requires s.status <= statuses && s.output <= output
    requires statuses != [] && statuses[0] == StatusReport("TRANSFERRING_INPUT")
    requires cut.None? || |Transfer(c, t, zip, CHUNK_SIZE)| < cut.value
    requires Executed(c, Some(zip), t, CHUNK_SIZE, cut, statuses[1..], output)
    requires var v := ApplyAll(c, path, v0, Flat(replies));
             row.(delegate := None) == v.row && (ending == Settled ==> !Open(v.row.status))
    ensures Outcome(c, path, Transfer(c, t, zip, CHUNK_SIZE), zip, ending, at, row,
                    ApplyAll(c, path, v0, Flat(replies)).stored)
  {
    assert statuses == [statuses[0]] + statuses[1..] == [TRANSFERRING_INPUT, EXECUTING, TASK_SUCCEEDED];
    FaultFreeInvocation(c, path, t, zip, v0, replies, s, at);
    var row' := ApplyAll(c, path, v0, Flat(replies)).row;
    assert row.status == row'.status && row.outputPath == row'.outputPath && row.outputChecksum == row'.outputChecksum;
  }

  lemma FailedOutcome(c: Codec, path: string, t: Id, p: Payload, v0: View, replies: seq<seq<Event>>,
                      s: Contents, at: Counts, statuses: seq<Message>, output: seq<Message>, x: ExecStatus,
                      ending: Ending, row: Row)
    requires c.Lossless() && Open(v0.row.status) && v0.held == None
    requires Life(c, path, v0, replies) && AllRead(s, at, Flat(replies))
    requires s.status <= statuses && s.output <= output && EndsIn(statuses, x)
    requires output <= Script(c, t, p) && output != Script(c, t, p)
    requires var v := ApplyAll(c, path, v0, Flat(replies));
             row.(delegate := None) == v.row && (ending == Settled ==> !Open(v.row.status))
    ensures Failed(x, |statuses|, ending, at, v0, row, ApplyAll(c, path, v0, Flat(replies)).stored)
  {
    var evs := Flat(replies);
    assert Project(Kind.Status, evs) == s.status[..at.status] <= statuses;
    assert Project(Output, evs) == s.output[..at.output] <= output;
    assert Project(Output, evs) != Script(c, t, p);
    FailureConverges(c, path, statuses, x, t, p, v0, replies);
    assert at.status == |statuses| <==> Project(Kind.Status, evs) == statuses;
    var row' := ApplyAll(c, path, v0, evs).row;
    assert row.status == row'.status && row.outputPath == row'.outputPath && row.outputChecksum == row'.outputChecksum;
  }

  /** An invocation in which no attempt received a workspace. */
  lemma UnpreparedOutcome(c: Codec, path: string, v0: View, replies: seq<seq<Event>>,
                          s: Contents, at: Counts, statuses: seq<Message>, output: seq<Message>, ending: Ending, row: Row)
    requires c.Lossless() && Open(v0.row.status) && v0.held == None
    requires Life(c, path, v0, replies) && AllRead(s, at, Flat(replies))
    requires s.status <= statuses && s.output <= output && output == []
    requires statuses == [StatusReport("TRANSFERRING_INPUT"), StatusReport("TRANSFER_FAILED")]
    requires var v := ApplyAll(c, path, v0, Flat(replies));
             row.(delegate := None) == v.row && (ending == Settled ==> !Open(v.row.status))
    ensures Failed(ExecStatus.TRANSFER_FAILED, |statuses|, ending, at, v0, row, ApplyAll(c, path, v0, Flat(replies)).stored)
  {
    FailedOutcome(c, path, "", Payload([], 1), v0, replies, s, at, statuses, output, ExecStatus.TRANSFER_FAILED, ending, row);
  }

  /** An invocation whose run raised, or whose output was cut off before its end. */
  lemma RaisedOutcome(c: Codec, path: string, t: Id, result: Option<Bytes>, cut: Option<nat>, v0: View,
                      replies: seq<seq<Event>>, s: Contents, at: Counts, statuses: seq<Message>, output: seq<Message>,
                      ending: Ending, row: Row)
    requires c.Lossless() && Open(v0.row.status) && v0.held == None
    requires Life(c, path, v0, replies) && AllRead(s, at, Flat(replies))
    requires s.status <= statuses && s.output <= output
    requires statuses != [] && statuses[0] == StatusReport("TRANSFERRING_INPUT")
    requires Executed(c, result, t, CHUNK_SIZE, cut, statuses[1..], output)
    requires result.None? || (cut.Some? && cut.value < |Transfer(c, t, result.value, CHUNK_SIZE)|)
    requires var v := ApplyAll(c, path, v0, Flat(replies));
             row.(delegate := None) == v.row && (ending == Settled ==> !Open(v.row.status))
    ensures Failed(FAILED, |statuses|, ending, at, v0, row, ApplyAll(c, path, v0, Flat(replies)).stored)
  {
    assert statuses == [statuses[0]] + statuses[1..];
    var p := if result.Some? then Payload(result.value, CHUNK_SIZE) else Payload([], 1);
    assert output <= Script(c, t, p) && output != Script(c, t, p);
    FailedOutcome(c, path, t, p, v0, replies, s, at, statuses, output, FAILED, ending, row);
  }

  /** A worker's invocation and a dispatcher thread on its execution, from end to end.
      The thread sees the worker's entries arrive at any pace and XREAD cut them anyhow;
      `lines` are the log lines among them, and what stands on the events stream are the
      worker's requests with whatever others write there. Unless the row vanishes:
      - if an attempt received a workspace, the executor made `zip` of it and sending that
        did not raise, the row is SUCCEEDED, with exactly `zip` stored under its own hash,
        once the thread has read the whole output, and not terminal before;
      - if no attempt received one, it is TRANSFER_FAILED, and if the executor raised or
        sending did before the output's end was out, it is FAILED, once the thread has
        read all the reports; it is not terminal before, and nothing is stored;
      - a thread that ends on a terminal status has got that far. */
  method InvokeAndWatch(c: Codec, worker: WorkerProcess, taskId: string, e: string, file: string,
                        run: Bytes -> Option<Bytes>, wires: Wires, lines: seq<Message>,
                        wait: real, maxRetries: nat, transfer: Id, cut: Option<nat>,
                        db: Database, clock: Clock, fx: Fixtures, path: string, lifetime: nat)
      returns (ending: Ending, ghost attempts: seq<Attempt>, ghost reports: nat, ghost at: Counts)
    requires c.Lossless() && wires.Valid() && taskId !in worker.prepared
    requires wires.status.entries == wires.status.future == [] && wires.output.entries == wires.output.future == []
    requires e != "" && e in db.rows && Open(db.rows[e].status)
    modifies worker, wires.announcements, wires.events, wires.status, wires.output, db, clock
    ensures Made(c, old(wires.events.entries), old(wires.events.future), DataRequest(worker.tenant, worker.delegate, file),
                 attempts, wires.events.entries, wires.events.future)
    ensures reports == |wires.status.entries|
    ensures ending != Gone ==> e in db.rows
    ensures ending != Gone && !Succeeded(attempts) ==>
      Failed(ExecStatus.TRANSFER_FAILED, reports, ending, at, old(See(db, e, path, |db.LogsOf(e)|, null)), db.rows[e], db.FileAt(path))
    ensures ending != Gone && Succeeded(attempts) ==>
      match run(attempts[|attempts| - 1].result.data)
      case None =>
        Failed(FAILED, reports, ending, at, old(See(db, e, path, |db.LogsOf(e)|, null)), db.rows[e], db.FileAt(path))
      case Some(zip) =>
        var whole := Transfer(c, transfer, zip, CHUNK_SIZE);
        && (cut.None? || |whole| < cut.value ==> Outcome(c, path, whole, zip, ending, at, db.rows[e], db.FileAt(path)))
        && (cut.Some? && cut.value < |whole| ==>
              Failed(FAILED, reports, ending, at, old(See(db, e, path, |db.LogsOf(e)|, null)), db.rows[e], db.FileAt(path)))
  {
    ghost var statuses, sentOutput, replies, s;
    attempts, statuses, sentOutput :=
      worker.Invoke(c, taskId, e, file, run, wires, wait, maxRetries, CHUNK_SIZE, transfer, cut);
    WroteAlone(statuses, wires.status.entries, wires.status.future);
    WroteAlone(sentOutput, wires.output.entries, wires.output.future);
    reports := |statuses|;
    ghost var v0 := See(db, e, path, |db.LogsOf(e)|, null);
    ending, replies, s, at :=
      WatchFilling(c, wires.events.entries, lines, wires.status.entries, wires.output.entries,
                   db, clock, fx, e, path, lifetime);
    if ending != Gone {
      Conclude(c, path, transfer, cut, v0, replies, s, at, statuses, sentOutput, attempts, run, maxRetries, ending, db.rows[e]);
    }
  }

  /** Whatever way the invocation went. */
  lemma Conclude(c: Codec, path: string, t: Id, cut: Option<nat>, v0: View, replies: seq<seq<Event>>,
                 s: Contents, at: Counts, statuses: seq<Message>, output: seq<Message>, attempts: seq<Attempt>,
                 run: Bytes -> Option<Bytes>, maxRetries: nat, ending: Ending, row: Row)
    requires c.Lossless() && Open(v0.row.status) && v0.held == None
    requires Life(c, path, v0, replies) && AllRead(s, at, Flat(replies))
    requires s.status <= statuses && s.output <= output
    requires if !Succeeded(attempts)
             then output == [] && statuses == [StatusReport("TRANSFERRING_INPUT"), StatusReport("TRANSFER_FAILED")]
             else statuses != [] && statuses[0] == StatusReport("TRANSFERRING_INPUT")
                  && Executed(c, run(attempts[|attempts| - 1].result.data), t, CHUNK_SIZE, cut, statuses[1..], output)
    requires var v := ApplyAll(c, path, v0, Flat(replies));
             row.(delegate := None) == v.row && (ending == Settled ==> !Open(v.row.status))
    ensures var stored := ApplyAll(c, path, v0, Flat(replies)).stored;
            if !Succeeded(attempts) then Failed(ExecStatus.TRANSFER_FAILED, |statuses|, ending, at, v0, row, stored)
            else
              match run(attempts[|attempts| - 1].result.data)
              case None => Failed(FAILED, |statuses|, ending, at, v0, row, stored)
              case Some(zip) =>
                var whole := Transfer(c, t, zip, CHUNK_SIZE);
                && (cut.None? || |whole| < cut.value ==> Outcome(c, path, whole, zip, ending, at, row, stored))
                && (cut.Some? && cut.value < |whole| ==> Failed(FAILED, |statuses|, ending, at, v0, row, stored))
  {
    if !Succeeded(attempts) {
      UnpreparedOutcome(c, path, v0, replies, s, at, statuses, output, ending, row);
    } else {
      var result := run(attempts[|attempts| - 1].result.data);
      if result.None? || (cut.Some? && cut.value < |Transfer(c, t, result.value, CHUNK_SIZE)|) {
        RaisedOutcome(c, path, t, result, cut, v0, replies, s, at, statuses, output, ending, row);
      } else if cut.None? || |Transfer(c, t, result.value, CHUNK_SIZE)| < cut.value {
        FaultFreeOutcome(c, path, t, result.value, v0, replies, s, at, statuses, output, cut, ending, row);
      }
    }
  }
}
