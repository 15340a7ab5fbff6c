/** What a watcher makes of an invocation that fails: the counterpart of
    `Watching.Convergence`. */
module FailedRuns {
  import opened StreamNames
  import opened Protocol
  import opened Receiver
  import opened Shuffle
  import opened OutputReceiver
  import opened Watching

  /** Status reports of which the last and only it says that the run failed, as `x`. */
  ghost predicate EndsIn(trace: seq<Message>, x: ExecStatus) {
    && trace != []
    && (forall i :: 0 <= i < |trace| - 1 ==>
          trace[i] == StatusReport("TRANSFERRING_INPUT") || trace[i] == StatusReport("EXECUTING"))
    && ((x == FAILED && trace[|trace| - 1] == StatusReport("TASK_FAILED"))
        || (x == TRANSFER_FAILED && trace[|trace| - 1] == StatusReport("TRANSFER_FAILED")))
  }

  /** One failed run: its reports, what the last of them means, the output it began and
      never ended, and what there was to see before. */
  datatype Run = Run(c: Codec, path: string, trace: seq<Message>, x: ExecStatus, t: Id, p: Payload, v0: View)
  {
    function Ms(): seq<Message> {
      Script(c, t, p)
    }

    ghost predicate Valid() {
      c.Lossless() && EndsIn(trace, x)
    }
  }

  /** `r` of the reports and `k` entries of the output have been handled. */
  datatype Stage = Stage(r: nat, k: nat, v: View)

  function After(run: Run, s: Stage, evs: seq<Event>): Stage {
    Stage(s.r + |Project(Kind.Status, evs)|, s.k + |Project(Output, evs)|, ApplyAll(run.c, run.path, s.v, evs))
  }

  /** The file and what the row says of it are still those of the beginning. */
  ghost predicate Failing(run: Run, s: Stage) {
    && s.r <= |run.trace| && s.k < |run.Ms()|
    && (if s.r < |run.trace| then Open(s.v.row.status) else s.v.row.status == run.x)
    && Holding(run, s.k, s.v.held)
    && s.v.stored == run.v0.stored
    && s.v.row.outputPath == run.v0.row.outputPath && s.v.row.outputChecksum == run.v0.row.outputChecksum
  }

  ghost predicate Holding(run: Run, k: nat, held: Option<Held>)
    requires k < |run.Ms()|
  {
    var verdict := Fold(run.c, Idle, run.Ms()[..k]);
    verdict.Undecided? && OutputReceiver.Same(verdict.st, held)
  }

  /** One more entry of the output, not its end. */
  lemma HeldOn(run: Run, k: nat, held: Option<Held>)
    requires run.Valid() && k + 1 < |run.Ms()| && Holding(run, k, held)
    ensures var turn := Handle(run.c, held, run.Ms()[k]); turn.effect.Nothing? && Holding(run, k + 1, turn.state)
  {
    var ms := run.Ms();
    assert ms[..k + 1] == ms[..k] + [ms[k]];
    FoldSnoc(run.c, Idle, ms[..k], ms[k]);
    AgreeStep(run.c, Fold(run.c, Idle, ms[..k]).st, held, ms[k]);
    UndecidedBefore(run.c, run.t, run.p, k + 1);
  }

  /** One event, and the stage it leads to. */
  function Next(run: Run, s: Stage, ev: Event): Stage {
    Stage(if ev.kind == Status then s.r + 1 else s.r, if ev.kind == Output then s.k + 1 else s.k,
          Apply(run.c, run.path, s.v, ev))
  }

  lemma FailNext(run: Run, s: Stage, ev: Event)
    requires run.Valid() && Failing(run, s)
    requires match ev.kind
             case Status => s.r < |run.trace| && ev.m == run.trace[s.r]
             case Output => s.k + 1 < |run.Ms()| && ev.m == run.Ms()[s.k]
             case Events => s.r < |run.trace|
             case Log => true
    ensures Failing(run, Next(run, s, ev))
  {
    if ev.kind == Output {
      HeldOn(run, s.k, s.v.held);
    }
  }

  /** Once a report of a reply has been handled, no request follows in it. */
  ghost predicate NoRequests(evs: seq<Event>) {
    forall ev <- evs :: ev.kind != Events
  }

  lemma RestOf(evs: seq<Event>)
    requires evs != [] && KeyOrdered(evs)
    ensures KeyOrdered(evs[1..])
    ensures evs[0].kind == Status ==> NoRequests(evs[1..])
    ensures NoRequests(evs) ==> evs[0].kind != Events && NoRequests(evs[1..])
  {
    assert evs[0] in evs && forall ev <- evs[1..] :: ev in evs;
    forall ev | ev in evs[1..] && evs[0].kind == Status ensures ev.kind != Events {
      var j :| 0 <= j < |evs[1..]| && evs[1..][j] == ev;
      assert evs[j + 1] == ev && Rank(evs[0].kind) <= Rank(evs[j + 1].kind);
    }
  }

  /** What these events hold of the reports and of the output comes next. */
  ghost predicate Ahead(run: Run, s: Stage, evs: seq<Event>) {
    && s.r <= |run.trace| && Project(Kind.Status, evs) <= run.trace[s.r..]
    && s.k < |run.Ms()| && s.k + |Project(Output, evs)| < |run.Ms()| && Project(Output, evs) <= run.Ms()[s.k..]
  }

  lemma AheadRest(run: Run, s: Stage, evs: seq<Event>)
    requires evs != [] && Ahead(run, s, evs)
    ensures Ahead(run, Next(run, s, evs[0]), evs[1..])
    ensures evs[0].kind == Status ==> s.r < |run.trace| && evs[0].m == run.trace[s.r]
    ensures evs[0].kind == Output ==> s.k + 1 < |run.Ms()| && evs[0].m == run.Ms()[s.k]
  {
    if evs[0].kind == Status {
      NextIs(run.trace, s.r, evs[0].m, Project(Kind.Status, evs[1..]));
    } else if evs[0].kind == Output {
      NextIs(run.Ms(), s.k, evs[0].m, Project(Output, evs[1..]));
    }
  }

  lemma AfterNext(run: Run, s: Stage, evs: seq<Event>)
    requires evs != []
    ensures After(run, s, evs) == After(run, Next(run, s, evs[0]), evs[1..])
  {
  }

  lemma AfterAppend(run: Run, s: Stage, a: seq<Event>, b: seq<Event>)
    ensures After(run, s, a + b) == After(run, After(run, s, a), b)
  {
    ProjectAppend(Kind.Status, a, b);
    ProjectAppend(Output, a, b);
    ApplyAppend(run.c, run.path, s.v, a, b);
  }

  lemma {:induction false} FailReply(run: Run, s: Stage, evs: seq<Event>)
    requires run.Valid() && Failing(run, s) && Ahead(run, s, evs)
    requires KeyOrdered(evs) && (s.r == |run.trace| ==> NoRequests(evs))
    ensures Failing(run, After(run, s, evs))
    decreases |evs|
  {
    if evs == [] {
      assert After(run, s, evs) == s;
    } else {
      RestOf(evs);
      AheadRest(run, s, evs);
      FailNext(run, s, evs[0]);
      FailReply(run, Next(run, s, evs[0]), evs[1..]);
      AfterNext(run, s, evs);
    }
  }

  lemma AheadSplit(run: Run, s: Stage, first: seq<Event>, rest: seq<Event>)
    requires Ahead(run, s, first + rest)
    ensures Ahead(run, s, first) && Ahead(run, After(run, s, first), rest)
  {
    ProjectAppend(Kind.Status, first, rest);
    ProjectAppend(Output, first, rest);
    PrefixSplit(run.trace, s.r, Project(Kind.Status, first), Project(Kind.Status, rest));
    PrefixSplit(run.Ms(), s.k, Project(Output, first), Project(Output, rest));
  }

  lemma StillReporting(run: Run, s: Stage)
    requires run.Valid() && Failing(run, s) && !Terminal(s.v.row.status)
    ensures s.r < |run.trace|
  {
  }

  lemma {:induction false} FailLife(run: Run, s: Stage, replies: seq<seq<Event>>)
    requires run.Valid() && Failing(run, s) && Ahead(run, s, Flat(replies))
    requires Life(run.c, run.path, s.v, replies)
    ensures Failing(run, After(run, s, Flat(replies)))
    decreases |replies|
  {
    if replies == [] {
      assert After(run, s, []) == s;
    } else {
      var first, rest := replies[0], Flat(replies[1..]);
      AheadSplit(run, s, first, rest);
      StillReporting(run, s);
      FailReply(run, s, first);
      FailLife(run, After(run, s, first), replies[1..]);
      AfterAppend(run, s, first, rest);
    }
  }

  /** A failed run, under any slicing: with reports of which the last says so, and an output
      whose end is never read, if any, the execution stays QUEUED, TRANSFERRING or RUNNING
      until all the reports have been handled, whatever requests are granted; then it is
      FAILED or TRANSFER_FAILED as reported; and no file is stored or recorded. */
  lemma FailureConverges(c: Codec, path: string, trace: seq<Message>, x: ExecStatus, t: Id, p: Payload,
                         v: View, replies: seq<seq<Event>>)
    requires c.Lossless() && EndsIn(trace, x)
    requires Open(v.row.status) && v.held == None && Life(c, path, v, replies)
    requires Project(Kind.Status, Flat(replies)) <= trace
    requires Project(Output, Flat(replies)) <= Script(c, t, p) && Project(Output, Flat(replies)) != Script(c, t, p)
    ensures var v' := ApplyAll(c, path, v, Flat(replies));
            && (if Project(Kind.Status, Flat(replies)) == trace then v'.row.status == x else Open(v'.row.status))
            && v'.stored == v.stored && v'.row.outputPath == v.row.outputPath && v'.row.outputChecksum == v.row.outputChecksum
  {
    var run := Run(c, path, trace, x, t, p, v);
    assert run.Ms()[..0] == [] && run.Ms()[0..] == run.Ms() && trace[0..] == trace;
    FailLife(run, Stage(0, 0, v), replies);
  }
}
