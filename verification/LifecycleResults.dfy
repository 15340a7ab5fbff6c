/** What holds in every reachable state of an execution's life, and what never
    changes again. */
module LifecycleResults {
  import opened StreamNames
  import opened Protocol
  import opened Receiver
  import opened Shuffle
  import opened OutputReceiver
  import opened Watching
  import opened Lifecycle
  import opened LifecycleSteps

  /** Recovery safety: in every run -- any timeouts, redelivered invocations, watchers
      dying in mid-transfer and replaced, streams deleted under a reader -- a worker that
      gets a workspace gets the full payload of one transfer that the dispatcher wrote
      completely; every failed attempt was a timeout; and a worker gives up only after
      exactly `retries` of them. */
  lemma RecoverySafety(g: Config, s: System, w: nat)
    requires g.c.Lossless() && Reachable(g, s) && w in s.workers
    ensures var v := s.workers[w];
            && v.asked <= g.retries
            && (forall f <- v.failures :: f == TimedOut)
            && match v.phase
               case Done(Some(data), t) =>
                 && t in s.sent && data == s.sent[t].data
                 && Of(t, s.events) == Script(g.c, t, s.sent[t])
                 && |v.failures| + 1 == v.asked
               case Done(None, _) => |v.failures| == v.asked == g.retries
               case Hearing(_) => |v.failures| + 1 == v.asked
               case Ready => |v.failures| == v.asked
  {
    ReachableInv(g, s);
    assert WorkerOk(g, s, s.workers[w]);
  }

  /** One watcher: in every interleaving of announcements, deaths, restarts and pruning
      at most one thread is alive, and it is the one in the table. */
  lemma AtMostOneWatcher(g: Config, s: System, t1: nat, t2: nat)
    requires g.c.Lossless() && Reachable(g, s)
    requires t1 in s.threads && t2 in s.threads && !s.threads[t1].pc.Ended? && !s.threads[t2].pc.Ended?
    ensures t1 == t2 && s.watched == Some(t1)
  {
    ReachableInv(g, s);
  }

  /** The count of attempts is exact: it is the number of transfers whose save went
      through, so no increment is ever lost; each of those was sent completely; and a
      thread about to save still holds the current count. */
  lemma AttemptsExact(g: Config, s: System)
    requires g.c.Lossless() && Reachable(g, s)
    ensures s.row.transferAttempts == |s.saved|
    ensures forall t <- s.saved :: Complete(g, s, t)
    ensures s.row.transferAttempts <= |set t | t in s.sent && Complete(g, s, t)|
    ensures forall tid <- s.threads ::
              s.threads[tid].pc.Saving? ==> s.threads[tid].pc.attempts == s.row.transferAttempts
                                            && s.threads[tid].pc.transfer !in s.saved
  {
    ReachableInv(g, s);
    Subset(s.saved, set t | t in s.sent && Complete(g, s, t));
    forall tid <- s.threads
      ensures s.threads[tid].pc.Saving? ==> s.threads[tid].pc.attempts == s.row.transferAttempts
                                            && s.threads[tid].pc.transfer !in s.saved
    {
      assert SendsOf(g, s, s.threads[tid].pc);
    }
  }

  lemma Subset(a: set<Id>, b: set<Id>)
    requires a <= b
    ensures |a| <= |b|
  {
    assert b == a + (b - a);
  }

  /** Log persistence is an exact prefix, at every point of every watcher's life. */
  lemma LogPrefix(g: Config, s: System, tid: nat)
    requires g.c.Lossless() && Reachable(g, s) && tid in s.threads
    ensures var th := s.threads[tid];
            var upto := Later(th.at.log, th.base);
            && th.base <= upto <= |s.log|
            && Numbered(th.logs, LogLines(s.log[th.base..upto]))
  {
    ReachableInv(g, s);
    assert LogsOf(s, s.threads[tid]);
  }

  // ------------------------------------------------------------- terminal stability

  /** The status is terminal and no thread is in the middle of anything. */
  ghost predicate AtRest(s: System) {
    && Terminal(s.row.status)
    && forall tid <- s.threads :: s.threads[tid].pc.Top? || s.threads[tid].pc.Cleaning? || s.threads[tid].pc.Ended?
  }

  lemma RestStep(g: Config, s: System, a: Action)
    requires AtRest(s) && Enabled(g, s, a)
    ensures var s' := Act(g, s, a);
            AtRest(s') && s'.row == s.row && s'.stored == s.stored && s'.sent == s.sent
  {
    if OwnMove(a) {
      MovedStep(g, s, a);
      RestMoved(g, s, a);
    } else if OutsideMove(a) {
      OutsideStep(g, s, a);
    } else {
      RestMain(g, s, a);
    }
  }

  lemma RestMoved(g: Config, s: System, a: Action)
    requires AtRest(s) && Enabled(g, s, a) && OwnMove(a)
    ensures a.CheckTop? || a.Clean? || a.Die?
    ensures var pc := Act(g, s, a).threads[a.tid].pc; pc.Top? || pc.Cleaning? || pc.Ended?
  {
  }

  lemma RestMain(g: Config, s: System, a: Action)
    requires AtRest(s) && Enabled(g, s, a) && !OwnMove(a) && !OutsideMove(a)
    ensures var s' := Act(g, s, a);
            AtRest(s') && s'.row == s.row && s'.stored == s.stored && s'.sent == s.sent
  {
  }

  lemma {:induction false} RestRun(g: Config, s: System, run: seq<Action>, s': System)
    requires AtRest(s) && Runs(g, s, run, s')
    ensures AtRest(s') && s'.row == s.row && s'.stored == s.stored && s'.sent == s.sent
    decreases |run|
  {
    if run != [] {
      RestStep(g, s, run[0]);
      RestRun(g, Act(g, s, run[0]), run[1..], s');
    }
  }

  /** Once a watcher stands at the head of its loop with a terminal status, nothing that
      follows -- announcements, new watchers from "0", restarts, late messages -- changes
      the row or the stored output, and no transfer is ever sent again. */
  lemma TerminalStability(g: Config, s: System, tid: nat, run: seq<Action>, s': System)
    requires g.c.Lossless() && Reachable(g, s)
    requires At(s, tid, Top)
    requires s.row.status == SUCCEEDED || s.row.status == FAILED || s.row.status == TRANSFER_FAILED
    requires Runs(g, s, run, s')
    ensures s'.row == s.row && s'.stored == s.stored && s'.sent == s.sent
  {
    ReachableInv(g, s);
    assert s.watched == Some(tid);
    forall u <- s.threads
      ensures s.threads[u].pc.Top? || s.threads[u].pc.Cleaning? || s.threads[u].pc.Ended?
    {
      assert !s.threads[u].pc.Ended? ==> s.watched == Some(u);
    }
    RestRun(g, s, run, s');
  }

  // -------------------------------------------------------- SUCCEEDED means stored

  ghost predicate NoneStoring(s: System) {
    forall tid <- s.threads :: !s.threads[tid].pc.Storing?
  }

  predicate Kills(a: Action, tid: nat) {
    (a.Die? && a.tid == tid) || a.Restart?
  }

  /** A step tears an output: it kills a thread that has opened the output file of an
      execution already SUCCEEDED, when what it has written of it by then -- nothing,
      some or all -- has not the hash that the row records. */
  ghost predicate Tears(g: Config, s: System, a: Action) {
    && s.row.status == SUCCEEDED
    && exists tid :: tid in s.threads && Kills(a, tid) && TornAt(g, s, s.threads[tid].pc)
  }

  ghost predicate TornAt(g: Config, s: System, pc: Pc) {
    pc.Storing? && pc.done <= |pc.data| && g.c.sha(pc.data[..pc.done]) != s.row.outputChecksum
  }

  ghost predicate Torn(g: Config, s: System, run: seq<Action>)
    decreases |run|
  {
    && run != [] && Enabled(g, s, run[0])
    && (Tears(g, s, run[0]) || Torn(g, Act(g, s, run[0]), run[1..]))
  }

  ghost predicate Matches(g: Config, s: System) {
    s.stored.Some? && s.row.outputChecksum == g.c.sha(s.stored.value)
  }

  ghost predicate Matched(g: Config, s: System) {
    s.row.status == SUCCEEDED && NoneStoring(s) ==> Matches(g, s)
  }

  lemma MatchedHandle(g: Config, s: System, s': System, tid: nat, grant: Grant)
    requires OneWatcher(s) && Matched(g, s) && Handled(g, s, s', tid, grant)
    ensures Matched(g, s')
  {
    assert NoneStoring(s);
    assert s'.threads[tid].pc.Storing? ==> !NoneStoring(s');
  }

  lemma MatchedRecord(g: Config, s: System, tid: nat)
    requires Stores(g, s) && Enabled(g, s, Record(tid))
    ensures Matched(g, Act(g, s, Record(tid)))
  {
    var pc := s.threads[tid].pc;
    assert StoringOk(g, s, pc);
    assert pc.data[..|pc.data|] == pc.data;
  }

  lemma MatchedWrite(g: Config, s: System, tid: nat, done: nat)
    requires Enabled(g, s, Write(tid, done))
    ensures Matched(g, Act(g, s, Write(tid, done)))
  {
    assert Act(g, s, Write(tid, done)).threads[tid].pc.Storing?;
  }

  lemma MatchedSave(g: Config, s: System, tid: nat)
    requires Enabled(g, s, Save(tid))
    ensures Matched(g, Act(g, s, Save(tid)))
  {
  }

  /** What a death leaves is what had been written. */
  lemma MatchedKill(g: Config, s: System, a: Action)
    requires Stores(g, s) && Matched(g, s) && Enabled(g, s, a) && (a.Die? || a.Restart?) && !Tears(g, s, a)
    ensures Matched(g, Act(g, s, a))
  {
    FilesCalmStep(g, s, a);
    if s.row.status == SUCCEEDED && !NoneStoring(s) {
      var tid :| tid in s.threads && s.threads[tid].pc.Storing?;
      assert StoringOk(g, s, s.threads[tid].pc);
      if Kills(a, tid) {
        assert !TornAt(g, s, s.threads[tid].pc);
      } else {
        assert Act(g, s, a).threads[tid].pc.Storing?;
      }
    }
  }

  /** The other steps neither end nor begin a file update. */
  lemma MatchedElse(g: Config, s: System, a: Action)
    requires Matched(g, s) && Enabled(g, s, a)
    requires OutsideMove(a) || a.Announce? || a.Prune? || a.CheckTop? || a.Poll? || a.EndReply? || a.Emit? || a.Clean?
    ensures Matched(g, Act(g, s, a))
  {
    var s' := Act(g, s, a);
    FilesCalmStep(g, s, a);
    if !NoneStoring(s) {
      var tid :| tid in s.threads && s.threads[tid].pc.Storing?;
      StoringStays(g, s, a, tid);
    }
  }

  lemma StoringStays(g: Config, s: System, a: Action, tid: nat)
    requires Enabled(g, s, a) && tid in s.threads && s.threads[tid].pc.Storing?
    requires OutsideMove(a) || a.Announce? || a.Prune? || a.CheckTop? || a.Poll? || a.EndReply? || a.Emit? || a.Clean?
    ensures tid in Act(g, s, a).threads && Act(g, s, a).threads[tid].pc.Storing?
  {
    if OwnMove(a) {
      MovedStep(g, s, a);
    } else if OutsideMove(a) {
      OutsideStep(g, s, a);
    }
  }

  lemma MatchedStep(g: Config, s: System, a: Action)
    requires Inv(g, s) && Matched(g, s) && Enabled(g, s, a) && !Tears(g, s, a)
    ensures Matched(g, Act(g, s, a))
  {
    if a.HandleNext? {
      HandleStep(g, s, a.tid, a.grant);
      MatchedHandle(g, s, Act(g, s, a), a.tid, a.grant);
    } else if a.Record? {
      MatchedRecord(g, s, a.tid);
    } else if a.Write? {
      MatchedWrite(g, s, a.tid, a.done);
    } else if a.Save? {
      MatchedSave(g, s, a.tid);
    } else if a.Die? || a.Restart? {
      MatchedKill(g, s, a);
    } else {
      MatchedElse(g, s, a);
    }
  }

  /** A tear is final: nobody is left to write the file or the row again. */
  lemma TearRests(g: Config, s: System, a: Action)
    requires OneWatcher(s) && Stores(g, s) && Enabled(g, s, a) && Tears(g, s, a)
    ensures AtRest(Act(g, s, a)) && !Matches(g, Act(g, s, a))
  {
    var s' := Act(g, s, a);
    var tid :| tid in s.threads && Kills(a, tid) && TornAt(g, s, s.threads[tid].pc);
    assert StoringOk(g, s, s.threads[tid].pc);
    FilesCalmStep(g, s, a);
    forall u <- s'.threads ensures s'.threads[u].pc.Ended? {
      assert u != tid ==> s.threads[u].pc.Ended?;
    }
  }

  lemma {:induction false} MatchedRun(g: Config, s: System, run: seq<Action>, s': System)
    requires g.c.Lossless() && Inv(g, s) && Matched(g, s) && Runs(g, s, run, s')
    ensures Inv(g, s')
    ensures Torn(g, s, run) ==> AtRest(s') && !Matches(g, s')
    ensures !Torn(g, s, run) ==> Matched(g, s')
    decreases |run|
  {
    if run != [] {
      var s1 := Act(g, s, run[0]);
      InvStep(g, s, run[0]);
      if Tears(g, s, run[0]) {
        TearRests(g, s, run[0]);
        RestRun(g, s1, run[1..], s');
        InvRun(g, s1, run[1..], s');
      } else {
        MatchedStep(g, s, run[0]);
        MatchedRun(g, s1, run[1..], s');
      }
    }
  }

  /** SUCCEEDED means stored -- exactly when nothing was torn. On every run, whenever no
      thread is in the middle of a file update, a SUCCEEDED execution has its path and a
      file there; and the recorded checksum is the hash of that file if and only if no
      step of the run was a tear. */
  lemma StoredExactly(g: Config, s0: System, run: seq<Action>, s: System)
    requires g.c.Lossless() && Init(s0) && Runs(g, s0, run, s)
    requires s.row.status == SUCCEEDED && NoneStoring(s)
    ensures s.row.outputPath == g.path && s.stored.Some?
    ensures s.row.outputChecksum == g.c.sha(s.stored.value) <==> !Torn(g, s0, run)
  {
    InitInv(g, s0);
    MatchedRun(g, s0, run, s);
  }

  // --------------------------------------------------- one thread against its handlers

  /** At the head of its loop, what a thread sees -- row, file, partial transfer and log
      rows -- is what handling its messages one after another leads to from what there was
      when it began: nothing that other threads, writers or workers do comes between. And
      it has read them reply by reply, each in key order, each after the status was found
      not to be terminal. */
  lemma ThreadFollowsHandlers(g: Config, s: System, tid: nat)
    requires g.c.Lossless() && Reachable(g, s) && At(s, tid, Top)
    ensures var th := s.threads[tid];
            && th.handled == Flat(th.lives) && Life(g.c, g.path, th.start, th.lives)
            && Seen(s, th) == ApplyAll(g.c, g.path, th.start, th.handled)
  {
    ReachableInv(g, s);
    var th := s.threads[tid];
    assert ProjectsOf(g, s, th) && LifeOf(g, th);
    assert Flat(th.lives) + [] == Flat(th.lives);
  }

  /** So convergence holds in every interleaving: if what a thread has handled reports no
      failure and is of one output transfer, then at the head of its loop the execution is
      SUCCEEDED with exactly that output if its end has been handled, and not terminal if
      it has not. */
  lemma ThreadConverges(g: Config, s: System, tid: nat, t: Id, p: Payload)
    requires g.c.Lossless() && Reachable(g, s) && At(s, tid, Top)
    requires var th := s.threads[tid];
             && Open(th.start.row.status) && th.start.held == None
             && NoFailureReported(th.handled) && Project(Output, th.handled) <= Script(g.c, t, p)
    ensures if Project(Output, s.threads[tid].handled) == Script(g.c, t, p)
            then s.row.status == SUCCEEDED && s.stored == Some(p.data)
                 && s.row.outputPath == g.path && s.row.outputChecksum == g.c.sha(p.data)
            else Open(s.row.status)
  {
    var th := s.threads[tid];
    ThreadFollowsHandlers(g, s, tid);
    Convergence(g.c, g.path, t, p, th.start, th.lives);
  }

  // ---------------------------------------------------------------------- deletion

  /** At least `n.k` entries of each stream are there, and unreadable. */
  ghost predicate Buried(s: System, n: Counts) {
    forall k :: n.At(k) <= |s.Entries(k)| && n.At(k) <= s.floor.At(k)
  }

  lemma BuriedStep(g: Config, s: System, a: Action, n: Counts)
    requires Buried(s, n) && Enabled(g, s, a)
    ensures Buried(Act(g, s, a), n)
  {
    var s' := Act(g, s, a);
    forall k ensures n.At(k) <= |s'.Entries(k)| && n.At(k) <= s'.floor.At(k) {
      assert n.At(k) <= |s.Entries(k)| && n.At(k) <= s.floor.At(k);
      GrowsOnly(g, s, a, k);
    }
  }

  lemma GrowsOnly(g: Config, s: System, a: Action, k: Kind)
    requires Enabled(g, s, a)
    ensures |s.Entries(k)| <= |Act(g, s, a).Entries(k)|
    ensures Act(g, s, a).floor == s.floor || Act(g, s, a).floor.At(k) == |s.Entries(k)|
  {
    if a.HandleNext? {
      HandleStep(g, s, a.tid, a.grant);
    }
  }

  lemma {:induction false} BuriedRun(g: Config, s: System, run: seq<Action>, s': System, n: Counts)
    requires Buried(s, n) && Runs(g, s, run, s')
    ensures Buried(s', n)
    decreases |run|
  {
    if run != [] {
      BuriedStep(g, s, run[0], n);
      BuriedRun(g, Act(g, s, run[0]), run[1..], s', n);
    }
  }

  /** What a watcher deletes is gone: after its cleanup and whatever follows, no entry that
      was on any of the four streams is ever read again, by a thread or by a worker. */
  lemma DeletedForGood(g: Config, s: System, tid: nat, run: seq<Action>, s': System, k: Kind)
    requires Enabled(g, s, Clean(tid)) && Runs(g, Act(g, s, Clean(tid)), run, s')
    ensures forall u <- s'.threads :: Pos(s', s'.threads[u], k) >= |s.Entries(k)|
    ensures forall w <- s'.workers :: Later(s'.workers[w].cursor, s'.floor.events) >= |s.events|
  {
    var n := Counts(|s.events|, |s.log|, |s.status|, |s.output|);
    var s1 := Act(g, s, Clean(tid));
    assert s1.floor == n && forall k' :: s1.Entries(k') == s.Entries(k') && n.At(k') == |s.Entries(k')|;
    BuriedRun(g, s1, run, s', n);
    assert n.At(k) <= s'.floor.At(k) && n.At(Events) <= s'.floor.At(Events);
  }

  // ---------------------------------------------------------- and when it does not

  lemma {:induction false} RunsSnoc(g: Config, s: System, run: seq<Action>, s': System, a: Action)
    requires Runs(g, s, run, s') && Enabled(g, s', a)
    ensures Runs(g, s, run + [a], Act(g, s', a))
    decreases |run|
  {
    if run == [] {
      assert run + [a] == [a] && [a][1..] == [];
    } else {
      assert (run + [a])[0] == run[0] && (run + [a])[1..] == run[1..] + [a];
      RunsSnoc(g, Act(g, s, run[0]), run[1..], s', a);
    }
  }

  lemma ReachableNext(g: Config, s: System, a: Action)
    requires Reachable(g, s) && Enabled(g, s, a)
    ensures Reachable(g, Act(g, s, a))
  {
    var s0, run :| Init(s0) && Runs(g, s0, run, s);
    RunsSnoc(g, s0, run, s, a);
  }

  const EMPTY_SYSTEM := System([], [], [], [], ZERO, Row("", None, "", QUEUED, "", 0, "", ""), None,
                               map[], None, map[], map[], {})

  /** Two whole output transfers, of one chunk each. */
  function TwoOutputs(c: Codec, first: Bytes, second: Bytes): seq<Message> {
    [DataStart("a", |first|, 1, c.sha(first)), DataChunk("a", 0, c.b64(first)), DataEnd("a", 1),
     DataStart("b", |second|, 1, c.sha(second)), DataChunk("b", 0, c.b64(second)), DataEnd("b", 1)]
  }

  /** Thread 0 alone is watching, in the middle of a reply that holds six output
      messages, with `n` of them handled. */
  ghost predicate Midway(g: Config, s: System, ms: seq<Message>, n: nat, pc: Pc, held: Option<Held>)
    requires n <= 6
  {
    && Reachable(g, s)
    && s.output == ms && |ms| == 6 && s.floor == ZERO && s.threads.Keys == {0}
    && var th := s.threads[0];
    && th.pc == pc && th.at == Counts(0, 0, 0, n) && th.todo == Counts(0, 0, 0, 6 - n) && th.held == held
  }

  lemma AppendOutput(g: Config, s: System, m: Message)
    ensures Enabled(g, s, Append(Output, m))
    ensures Act(g, s, Append(Output, m)) == s.(output := s.output + [m])
  {
  }

  lemma {:induction false} ReachOutputs(g: Config, s: System, ms: seq<Message>, n: nat)
    requires Reachable(g, s) && s.output == [] && n <= |ms|
    ensures Reachable(g, s.(output := ms[..n]))
    decreases n
  {
    if n == 0 {
      assert s.(output := ms[..0]) == s;
    } else {
      ReachOutputs(g, s, ms, n - 1);
      var s1 := s.(output := ms[..n - 1]);
      AppendOutput(g, s1, ms[n - 1]);
      ReachableNext(g, s1, Append(Output, ms[n - 1]));
      assert ms[..n - 1] + [ms[n - 1]] == ms[..n];
    }
  }

  lemma ReachReading(g: Config, ms: seq<Message>) returns (s: System)
    ensures Reachable(g, s) && s.output == ms && s.floor == ZERO && s.threads.Keys == {0}
    ensures s.threads[0].pc == Reading && s.threads[0].at == ZERO && s.threads[0].held == None
  {
    assert Runs(g, EMPTY_SYSTEM, [], EMPTY_SYSTEM);
    ReachableNext(g, EMPTY_SYSTEM, Announce(0));
    var idle := Act(g, EMPTY_SYSTEM, Announce(0));
    ReachOutputs(g, idle, ms, |ms|);
    assert ms[..|ms|] == ms;
    var s1 := idle.(output := ms);
    ReachableNext(g, s1, CheckTop(0, false));
    s := Act(g, s1, CheckTop(0, false));
  }

  lemma ReachReply(g: Config, ms: seq<Message>) returns (s: System)
    requires |ms| == 6
    ensures Midway(g, s, ms, 0, Handling, None)
  {
    var s1 := ReachReading(g, ms);
    var n := Counts(0, 0, 0, 6);
    assert Enabled(g, s1, Poll(0, n));
    ReachableNext(g, s1, Poll(0, n));
    s := Act(g, s1, Poll(0, n));
  }

  /** Handling the next of the messages, which decides nothing. */
  lemma MidwayQuiet(g: Config, s: System, ms: seq<Message>, n: nat, held: Option<Held>) returns (s': System)
    requires n < 6 && Midway(g, s, ms, n, Handling, held)
    requires Handle(g.c, held, ms[n]).effect.Nothing?
    ensures Midway(g, s', ms, n + 1, Handling, Handle(g.c, held, ms[n]).state) && s'.row == s.row && s'.stored == s.stored
  {
    assert NextKind(s.threads[0].todo) == Some(Output) && Pos(s, s.threads[0], Output) == n;
    ReachableNext(g, s, HandleNext(0, Refuse));
    s' := Act(g, s, HandleNext(0, Refuse));
  }

  /** Handling the next of the messages, which is a valid end. */
  lemma MidwayOpen(g: Config, s: System, ms: seq<Message>, n: nat, held: Option<Held>, data: Bytes, sum: string)
      returns (s': System)
    requires n < 6 && Midway(g, s, ms, n, Handling, held)
    requires Handle(g.c, held, ms[n]) == Turn(None, Store(data, sum))
    ensures Midway(g, s', ms, n + 1, Storing(data, 0, sum), None) && s'.row == s.row && s'.stored == Some([])
  {
    assert NextKind(s.threads[0].todo) == Some(Output) && Pos(s, s.threads[0], Output) == n;
    ReachableNext(g, s, HandleNext(0, Refuse));
    s' := Act(g, s, HandleNext(0, Refuse));
  }

  lemma MidwayWrite(g: Config, s: System, ms: seq<Message>, n: nat, data: Bytes, sum: string, done: nat)
      returns (s': System)
    requires n <= 6 && Midway(g, s, ms, n, Storing(data, 0, sum), None)
    requires s.stored == Some([]) && done <= |data|
    ensures Midway(g, s', ms, n, Storing(data, done, sum), None)
    ensures s'.row == s.row && s'.stored == Some(data[..done])
  {
    assert data[..0] == [];
    s' := s;
    if done > 0 {
      ReachableNext(g, s, Write(0, done));
      s' := Act(g, s, Write(0, done));
    }
  }

  /** One whole transfer of a chunk, from its start to its opened file. */
  lemma MidwayTransfer(g: Config, s: System, ms: seq<Message>, n: nat, t: Id, data: Bytes) returns (s': System)
    requires g.c.Lossless()
    requires n <= 3 && Midway(g, s, ms, n, Handling, None)
    requires ms[n] == DataStart(t, |data|, 1, g.c.sha(data)) && ms[n + 1] == DataChunk(t, 0, g.c.b64(data))
    requires ms[n + 2] == DataEnd(t, 1)
    ensures Midway(g, s', ms, n + 3, Storing(data, 0, g.c.sha(data)), None)
    ensures s'.row == s.row && s'.stored == Some([])
  {
    var started := Held(t, |data|, g.c.sha(data), [], {});
    var s1 := MidwayQuiet(g, s, ms, n, None);
    assert [] + g.c.unb64(g.c.b64(data)) == data && {} + {0} == {0};
    var full := Held(t, |data|, g.c.sha(data), data, {0});
    assert Handle(g.c, Some(started), ms[n + 1]) == Turn(Some(full), Nothing);
    var s2 := MidwayQuiet(g, s1, ms, n + 1, Some(started));
    assert Handle(g.c, Some(full), ms[n + 2]) == Turn(None, Store(data, g.c.sha(data)));
    s' := MidwayOpen(g, s2, ms, n + 2, Some(full), data, g.c.sha(data));
  }

  lemma MidwayRecord(g: Config, s: System, ms: seq<Message>, n: nat, data: Bytes, sum: string) returns (s': System)
    requires n <= 6 && Midway(g, s, ms, n, Storing(data, |data|, sum), None)
    ensures Midway(g, s', ms, n, Handling, None)
    ensures s'.row.status == SUCCEEDED && s'.row.outputChecksum == sum
  {
    ReachableNext(g, s, Record(0));
    s' := Act(g, s, Record(0));
  }

  /** The first of the two outputs is stored and recorded. */
  lemma ReachFirstRecorded(g: Config, ms: seq<Message>, first: Bytes) returns (s: System)
    requires g.c.Lossless() && |ms| == 6
    requires ms[0] == DataStart("a", |first|, 1, g.c.sha(first)) && ms[1] == DataChunk("a", 0, g.c.b64(first))
    requires ms[2] == DataEnd("a", 1)
    ensures Midway(g, s, ms, 3, Handling, None)
    ensures s.row.status == SUCCEEDED && s.row.outputChecksum == g.c.sha(first)
  {
    var s0 := ReachReply(g, ms);
    var s1 := MidwayTransfer(g, s0, ms, 0, "a", first);
    var s2 := MidwayWrite(g, s1, ms, 3, first, g.c.sha(first), |first|);
    s := MidwayRecord(g, s2, ms, 3, first, g.c.sha(first));
  }

  lemma MidwayDie(g: Config, s: System, ms: seq<Message>, n: nat, pc: Pc) returns (s': System)
    requires n <= 6 && Midway(g, s, ms, n, pc, None) && !pc.Ended? && s.row.status == SUCCEEDED
    ensures Reachable(g, s') && AtRest(s') && s'.row == s.row && s'.stored == s.stored
  {
    ReachableNext(g, s, Die(0));
    s' := Act(g, s, Die(0));
  }

  /** And torn it may be. Two outputs in one reply, and a death once the second file is
      open and `done` bytes of it are written, leave the execution SUCCEEDED for ever with
      the first output's checksum over those bytes: over an empty file right after the
      open, over the whole second output right before the row update. */
  lemma TornStore(g: Config, first: Bytes, second: Bytes, done: nat) returns (s: System)
    requires g.c.Lossless() && done <= |second| && g.c.sha(second[..done]) != g.c.sha(first)
    ensures Reachable(g, s) && AtRest(s)
    ensures s.row.status == SUCCEEDED && s.stored == Some(second[..done])
    ensures s.row.outputChecksum == g.c.sha(first) != g.c.sha(s.stored.value)
  {
    var ms := TwoOutputs(g.c, first, second);
    var s3 := ReachFirstRecorded(g, ms, first);
    var s4 := MidwayTransfer(g, s3, ms, 3, "b", second);
    var s5 := MidwayWrite(g, s4, ms, 6, second, g.c.sha(second), done);
    s := MidwayDie(g, s5, ms, 6, Storing(second, done, g.c.sha(second)));
  }
}
