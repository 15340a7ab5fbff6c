/** What one watcher does with the messages it reads, and where that leads: the
    handlers of stream_dispatcher.py as functions on what the watcher can see. */
module Watching {
  import opened StreamNames
  import opened Protocol
  import opened Receiver
  import opened Shuffle
  import opened OutputReceiver

  /** One number per stream: cursors, reply lengths, or deletion points. */
  datatype Counts = Counts(events: nat, log: nat, status: nat, output: nat)
  {
    function At(k: Kind): nat {
      match k
      case Events => events
      case Log => log
      case Status => status
      case Output => output
    }

    function With(k: Kind, n: nat): Counts {
      match k
      case Events => this.(events := n)
      case Log => this.(log := n)
      case Status => this.(status := n)
      case Output => this.(output := n)
    }
  }

  const ZERO := Counts(0, 0, 0, 0)

  const READ_COUNT: nat := 50

  datatype ExecStatus = QUEUED | TRANSFERRING | TRANSFER_FAILED | RUNNING | SUCCEEDED | FAILED

  predicate Terminal(s: ExecStatus) {
    s == SUCCEEDED || s == FAILED || s == TRANSFER_FAILED
  }

  /** The other three. */
  predicate Open(s: ExecStatus) {
    s == QUEUED || s == TRANSFERRING || s == RUNNING
  }

  /** TASK_SUCCEEDED is deliberately absent: a worker's word never makes SUCCEEDED. */
  function StatusMapping(status: string): Option<ExecStatus> {
    if status == "TRANSFERRING_INPUT" then Some(TRANSFERRING)
    else if status == "EXECUTING" then Some(RUNNING)
    else if status == "TRANSFER_FAILED" then Some(TRANSFER_FAILED)
    else if status == "TASK_FAILED" then Some(FAILED)
    else None
  }

  /** The Execution row. The delegate is null once its row is gone. */
  datatype Row = Row(tenant: string, delegate: Option<string>, fixture: string, status: ExecStatus,
                     transferId: Id, transferAttempts: nat, outputPath: string, outputChecksum: string)

  datatype LogRow = LogRow(seqNo: nat, line: string)

  /** The row, the bytes at the output path, and the watcher's own state with the
      log rows it has created. */
  datatype View = View(row: Row, stored: Option<Bytes>, held: Option<Held>, logs: seq<LogRow>)

  /** One message handled. `granted` is the id of the transfer sent in answer to a
      DATA_REQUEST, None if it was refused or its file not found. */
  datatype Event = Event(kind: Kind, m: Message, granted: Option<Id>)

  function Apply(c: Codec, path: string, v: View, ev: Event): View {
    match ev.kind
    case Events =>
      if ev.m.DataRequest? && ev.granted.Some? then
        v.(row := v.row.(status := TRANSFERRING, transferId := ev.granted.value,
                         transferAttempts := v.row.transferAttempts + 1))
      else v
    case Log =>
      if ev.m.LogLine? then v.(logs := v.logs + [LogRow(|v.logs| + 1, ev.m.text)]) else v
    case Status =>
      if ev.m.StatusReport? && StatusMapping(ev.m.status).Some? then
        v.(row := v.row.(status := StatusMapping(ev.m.status).value))
      else v
    case Output =>
      var turn := Handle(c, v.held, ev.m);
      match turn.effect
      case Nothing => v.(held := turn.state)
      case Store(data, sum) =>
        v.(held := turn.state, stored := Some(data),
           row := v.row.(status := SUCCEEDED, outputPath := path, outputChecksum := sum))
      case Reject => v.(held := turn.state, row := v.row.(status := FAILED))
  }

  function ApplyAll(c: Codec, path: string, v: View, evs: seq<Event>): View
    decreases |evs|
  {
    if evs == [] then v else ApplyAll(c, path, Apply(c, path, v, evs[0]), evs[1..])
  }

  lemma {:induction false} ApplyAppend(c: Codec, path: string, v: View, a: seq<Event>, b: seq<Event>)
    ensures ApplyAll(c, path, v, a + b) == ApplyAll(c, path, ApplyAll(c, path, v, a), b)
    decreases |a|
  {
    if a == [] {
      assert a + b == b;
    } else {
      assert (a + b)[0] == a[0] && (a + b)[1..] == a[1..] + b;
      ApplyAppend(c, path, Apply(c, path, v, a[0]), a[1..], b);
    }
  }

  /** The messages of one stream, in the order handled. */
  function Project(kind: Kind, evs: seq<Event>): seq<Message> {
    if evs == [] then []
    else if evs[0].kind == kind then [evs[0].m] + Project(kind, evs[1..])
    else Project(kind, evs[1..])
  }

  lemma {:induction false} ProjectAppend(kind: Kind, a: seq<Event>, b: seq<Event>)
    ensures Project(kind, a + b) == Project(kind, a) + Project(kind, b)
    decreases |a|
  {
    if a == [] {
      assert a + b == b;
    } else {
      assert (a + b)[0] == a[0] && (a + b)[1..] == a[1..] + b;
      ProjectAppend(kind, a[1..], b);
    }
  }

  // ------------------------------------------------------------- replies in turn

  function Rank(kind: Kind): nat {
    match kind
    case Events => 0
    case Log => 1
    case Status => 2
    case Output => 3
  }

  /** XREAD returns streams in the order of the keys it was given. */
  ghost predicate KeyOrdered(evs: seq<Event>) {
    forall i, j :: 0 <= i < j < |evs| ==> Rank(evs[i].kind) <= Rank(evs[j].kind)
  }

  function Flat(replies: seq<seq<Event>>): seq<Event> {
    if replies == [] then [] else replies[0] + Flat(replies[1..])
  }

  /** A watcher's life: reply after reply, each in key order, each read only after the
      status was found not to be terminal. */
  ghost predicate Life(c: Codec, path: string, v: View, replies: seq<seq<Event>>)
    decreases |replies|
  {
    replies != [] ==>
      && !Terminal(v.row.status)
      && KeyOrdered(replies[0])
      && Life(c, path, ApplyAll(c, path, v, replies[0]), replies[1..])
  }

  lemma {:induction false} FlatSnoc(replies: seq<seq<Event>>, r: seq<Event>)
    ensures Flat(replies + [r]) == Flat(replies) + r
    decreases |replies|
  {
    if replies == [] {
      assert [] + [r] == [r] && [r][1..] == [];
      assert Flat([r]) == r + Flat([]);
    } else {
      assert (replies + [r])[0] == replies[0] && (replies + [r])[1..] == replies[1..] + [r];
      FlatSnoc(replies[1..], r);
    }
  }

  lemma {:induction false} LifeSnoc(c: Codec, path: string, v: View, replies: seq<seq<Event>>, r: seq<Event>)
    requires Life(c, path, v, replies) && KeyOrdered(r)
    requires !Terminal(ApplyAll(c, path, v, Flat(replies)).row.status)
    ensures Life(c, path, v, replies + [r])
    decreases |replies|
  {
    if replies == [] {
      assert [] + [r] == [r] && [r][1..] == [];
    } else {
      assert (replies + [r])[0] == replies[0] && (replies + [r])[1..] == replies[1..] + [r];
      ApplyAppend(c, path, v, replies[0], Flat(replies[1..]));
      LifeSnoc(c, path, ApplyAll(c, path, v, replies[0]), replies[1..], r);
    }
  }

  // ----------------------------------------------------------------- convergence

  /** No failure is reported by the worker. */
  ghost predicate NoFailureReported(evs: seq<Event>) {
    forall ev <- evs :: ev.kind == Status && ev.m.StatusReport? ==>
      ev.m.status == "TRANSFERRING_INPUT" || ev.m.status == "EXECUTING" || ev.m.status == "TASK_SUCCEEDED"
  }

  /** The worker's output is still on its way: `k` entries of it have been handled. */
  ghost predicate Underway(c: Codec, t: Id, p: Payload, k: nat, v: View) {
    && k < |Script(c, t, p)|
    && !Terminal(v.row.status)
    && var verdict := Fold(c, Idle, Script(c, t, p)[..k]);
    && verdict.Undecided? && Same(verdict.st, v.held)
  }

  ghost predicate Delivered(c: Codec, path: string, p: Payload, v: View) {
    && v.row.status == SUCCEEDED
    && v.stored == Some(p.data)
    && v.row.outputPath == path
    && v.row.outputChecksum == c.sha(p.data)
  }

  lemma UndecidedBefore(c: Codec, t: Id, p: Payload, k: nat)
    requires c.Lossless() && k < |Script(c, t, p)|
    ensures Fold(c, Idle, Script(c, t, p)[..k]).Undecided?
  {
    var ms := Script(c, t, p);
    RoundTrip(c, Idle, t, p);
    assert ms == ms[..k] + ms[k..];
    FoldAppend(c, Idle, ms[..k], ms[k..]);
  }

  lemma OutputStep(c: Codec, path: string, t: Id, p: Payload, k: nat, v: View, ev: Event)
    requires c.Lossless() && Underway(c, t, p, k, v)
    requires ev.kind == Output && ev.m == Script(c, t, p)[k]
    ensures var v' := Apply(c, path, v, ev);
            Reached(c, path, t, p, k + 1, v')
  {
    var ms := Script(c, t, p);
    var st := Fold(c, Idle, ms[..k]).st;
    assert ms[..k + 1] == ms[..k] + [ms[k]];
    FoldSnoc(c, Idle, ms[..k], ms[k]);
    AgreeStep(c, st, v.held, ms[k]);
    if k + 1 < |ms| {
      UndecidedBefore(c, t, p, k + 1);
    } else {
      RoundTrip(c, Idle, t, p);
      assert ms[..k + 1] == ms;
    }
  }

  lemma OtherStep(c: Codec, path: string, t: Id, p: Payload, k: nat, v: View, ev: Event)
    requires Underway(c, t, p, k, v) && ev.kind != Output && NoFailureReported([ev])
    ensures Underway(c, t, p, k, Apply(c, path, v, ev))
  {
    assert ev in [ev];
  }

  lemma Rest(evs: seq<Event>)
    requires evs != [] && KeyOrdered(evs) && NoFailureReported(evs)
    ensures KeyOrdered(evs[1..]) && NoFailureReported(evs[1..]) && NoFailureReported([evs[0]])
  {
    assert forall e <- evs[1..] :: e in evs;
    assert evs[0] in evs;
  }

  /** Handling part of one reply: either the output is still under way, or its end was
      the last event of all. */
  lemma {:induction false} ConvergeReply(c: Codec, path: string, t: Id, p: Payload, k: nat, v: View, evs: seq<Event>)
    requires c.Lossless() && Underway(c, t, p, k, v)
    requires KeyOrdered(evs) && NoFailureReported(evs)
    requires Project(Output, evs) <= Script(c, t, p)[k..]
    ensures Reached(c, path, t, p, k + |Project(Output, evs)|, ApplyAll(c, path, v, evs))
    decreases |evs|
  {
    if evs != [] {
      var ev, rest := evs[0], evs[1..];
      Rest(evs);
      if ev.kind != Output {
        OtherStep(c, path, t, p, k, v, ev);
        ConvergeReply(c, path, t, p, k, Apply(c, path, v, ev), rest);
      } else {
        NextIs(Script(c, t, p), k, ev.m, Project(Output, rest));
        OutputStep(c, path, t, p, k, v, ev);
        if k + 1 < |Script(c, t, p)| {
          ConvergeReply(c, path, t, p, k + 1, Apply(c, path, v, ev), rest);
        } else {
          OnlyOutput(rest, ev, evs);
        }
      }
    }
  }

  lemma NextIs(ms: seq<Message>, k: nat, m: Message, rest: seq<Message>)
    requires k < |ms| && [m] + rest <= ms[k..]
    ensures m == ms[k] && rest <= ms[k + 1..]
  {
    assert ([m] + rest)[0] == m;
    assert ms[k..][1..] == ms[k + 1..];
    assert rest == ([m] + rest)[1..];
  }

  ghost predicate Reached(c: Codec, path: string, t: Id, p: Payload, k: nat, v: View) {
    if k < |Script(c, t, p)| then Underway(c, t, p, k, v) else Delivered(c, path, p, v)
  }

  /** `output` is the last key: nothing of another stream follows it in a reply. */
  lemma OnlyOutput(rest: seq<Event>, ev: Event, evs: seq<Event>)
    requires KeyOrdered(evs) && evs == [ev] + rest && ev.kind == Output
    requires Project(Output, rest) == []
    ensures rest == []
  {
    assert rest != [] ==> evs[1] == rest[0];
    assert rest != [] ==> Rank(evs[0].kind) <= Rank(evs[1].kind);
  }

  lemma {:induction false} ConvergeLife(c: Codec, path: string, t: Id, p: Payload, k: nat, v: View, replies: seq<seq<Event>>)
    requires c.Lossless() && Underway(c, t, p, k, v)
    requires Life(c, path, v, replies) && NoFailureReported(Flat(replies))
    requires Project(Output, Flat(replies)) <= Script(c, t, p)[k..]
    ensures Reached(c, path, t, p, k + |Project(Output, Flat(replies))|, ApplyAll(c, path, v, Flat(replies)))
    decreases |replies|
  {
    if replies != [] {
      var first, rest := replies[0], Flat(replies[1..]);
      var k' := k + |Project(Output, first)|;
      ApplyAppend(c, path, v, first, rest);
      FirstReply(first, rest, Script(c, t, p), k);
      ConvergeReply(c, path, t, p, k, v, first);
      if k' < |Script(c, t, p)| {
        ConvergeLife(c, path, t, p, k', ApplyAll(c, path, v, first), replies[1..]);
      } else {
        assert replies[1..] == [];
      }
    }
  }

  lemma FirstReply(first: seq<Event>, rest: seq<Event>, ms: seq<Message>, k: nat)
    requires NoFailureReported(first + rest)
    requires k <= |ms| && Project(Output, first + rest) <= ms[k..]
    ensures NoFailureReported(first) && NoFailureReported(rest)
    ensures var n := |Project(Output, first)|;
            && Project(Output, first) <= ms[k..] && k + n <= |ms|
            && Project(Output, rest) <= ms[k + n..]
            && |Project(Output, first + rest)| == n + |Project(Output, rest)|
  {
    ProjectAppend(Output, first, rest);
    NoFailureSplit(first, rest);
    PrefixSplit(ms, k, Project(Output, first), Project(Output, rest));
  }

  lemma NoFailureSplit(a: seq<Event>, b: seq<Event>)
    requires NoFailureReported(a + b)
    ensures NoFailureReported(a) && NoFailureReported(b)
  {
    assert forall e <- a :: e in a + b;
    assert forall e <- b :: e in a + b;
  }

  lemma PrefixSplit(ms: seq<Message>, k: nat, a: seq<Message>, b: seq<Message>)
    requires k <= |ms| && a + b <= ms[k..]
    ensures a <= ms[k..] && k + |a| <= |ms| && b <= ms[k + |a|..]
  {
    assert a == (a + b)[..|a|] == ms[k..][..|a|];
    assert b == (a + b)[|a|..];
    assert ms[k..][|a|..] == ms[k + |a|..];
  }

  /** Convergence under any slicing. For one fault-free invocation -- statuses that
      report no failure, one whole output transfer, any requests and log lines --
      however the replies cut the streams: as long as the output's end has not been
      handled the status is not terminal, so the watcher reads on; once it has been,
      the execution has SUCCEEDED with exactly the worker's bytes, and the watcher reads
      no more. */
  lemma Convergence(c: Codec, path: string, t: Id, p: Payload, v: View, replies: seq<seq<Event>>)
    requires c.Lossless()
    requires Open(v.row.status) && v.held == None
    requires Life(c, path, v, replies) && NoFailureReported(Flat(replies))
    requires Project(Output, Flat(replies)) <= Script(c, t, p)
    ensures var v' := ApplyAll(c, path, v, Flat(replies));
            if Project(Output, Flat(replies)) == Script(c, t, p) then Delivered(c, path, p, v') else Open(v'.row.status)
  {
    var ms := Script(c, t, p);
    assert ms[..0] == [] && ms[0..] == ms;
    ConvergeLife(c, path, t, p, 0, v, replies);
  }

  /** It does rest on the key order: one reply in which the output precedes a status
      leaves a finished execution RUNNING. */
  lemma KeyOrderMatters(c: Codec, path: string, t: Id, v: View)
      returns (reply: seq<Event>, p: Payload)
    requires c.Lossless() && v.held == None
    ensures NoFailureReported(reply) && Project(Output, reply) == Script(c, t, p)
    ensures ApplyAll(c, path, v, reply).row.status == RUNNING
  {
    p := Payload([], 1);
    var ms := Script(c, t, p);
    assert ms == [DataStart(t, 0, 1, c.sha([])), DataEnd(t, 0)];
    var e0, e1 := Event(Output, ms[0], None), Event(Output, ms[1], None);
    var e2 := Event(Status, StatusReport("EXECUTING"), None);
    reply := [e0, e1, e2];
    assert reply[1..] == [e1, e2] && reply[1..][1..] == [e2] && reply[1..][1..][1..] == [];
    assert Project(Output, [e2]) == [];
    assert Project(Output, [e1, e2]) == [e1.m];
    var v1 := Apply(c, path, v, e0);
    var v2 := Apply(c, path, v1, e1);
    assert ApplyAll(c, path, v2, [e2]) == Apply(c, path, v2, e2);
    assert ApplyAll(c, path, v1, [e1, e2]) == ApplyAll(c, path, v2, [e2]);
  }

  // ----------------------------------------------------- who has the last word on status

  /** The transfer held once one more event is handled. */
  function HeldAfter(c: Codec, held: Option<Held>, ev: Event): Option<Held> {
    if ev.kind == Output then Handle(c, held, ev.m).state else held
  }

  /** What event `i` writes to the status, if anything: a granted request, a mapped
      report, or the end of the output transfer then held. */
  function Writes(c: Codec, held: Option<Held>, evs: seq<Event>, i: nat): Option<ExecStatus>
    requires i < |evs|
    decreases i
  {
    if i > 0 then Writes(c, HeldAfter(c, held, evs[0]), evs[1..], i - 1)
    else
      match evs[0].kind
      case Events => if evs[0].m.DataRequest? && evs[0].granted.Some? then Some(TRANSFERRING) else None
      case Log => None
      case Status => if evs[0].m.StatusReport? then StatusMapping(evs[0].m.status) else None
      case Output =>
        match Handle(c, held, evs[0].m).effect
        case Nothing => None
        case Store(_, _) => Some(SUCCEEDED)
        case Reject => Some(FAILED)
  }

  ghost predicate LastWriter(c: Codec, held: Option<Held>, evs: seq<Event>, i: nat) {
    && i < |evs| && Writes(c, held, evs, i).Some?
    && forall j :: i < j < |evs| ==> Writes(c, held, evs, j).None?
  }

  ghost predicate NoWriter(c: Codec, held: Option<Held>, evs: seq<Event>) {
    forall i :: 0 <= i < |evs| ==> Writes(c, held, evs, i).None?
  }

  lemma WritesLater(c: Codec, held: Option<Held>, evs: seq<Event>)
    requires evs != []
    ensures var held', rest := HeldAfter(c, held, evs[0]), evs[1..];
            && (forall i :: 0 < i < |evs| ==> Writes(c, held, evs, i) == Writes(c, held', rest, i - 1))
            && (forall i :: 0 < i < |evs| ==> (LastWriter(c, held, evs, i) <==> LastWriter(c, held', rest, i - 1)))
            && (NoWriter(c, held, evs) <==> Writes(c, held, evs, 0).None? && NoWriter(c, held', rest))
            && (LastWriter(c, held, evs, 0) <==> Writes(c, held, evs, 0).Some? && NoWriter(c, held', rest))
  {
    var held', rest := HeldAfter(c, held, evs[0]), evs[1..];
    assert forall i :: 0 < i < |evs| ==> Writes(c, held, evs, i) == Writes(c, held', rest, i - 1);
    assert forall j :: 0 <= j < |rest| ==> Writes(c, held', rest, j) == Writes(c, held, evs, j + 1);
  }

  /** The status after any events is what the last of them to write one wrote, whichever
      stream it came from, and is unchanged if none did. */
  lemma {:induction false} LastWriterWins(c: Codec, path: string, v: View, evs: seq<Event>)
    ensures NoWriter(c, v.held, evs) ==> ApplyAll(c, path, v, evs).row.status == v.row.status
    ensures forall i :: 0 <= i && LastWriter(c, v.held, evs, i) ==>
              ApplyAll(c, path, v, evs).row.status == Writes(c, v.held, evs, i).value
    ensures NoWriter(c, v.held, evs) || exists i :: 0 <= i && LastWriter(c, v.held, evs, i)
    decreases |evs|
  {
    if evs != [] {
      var v1, rest := Apply(c, path, v, evs[0]), evs[1..];
      LastWriterWins(c, path, v1, rest);
      WritesLater(c, v.held, evs);
      if i :| 0 <= i && LastWriter(c, v1.held, rest, i) {
        assert LastWriter(c, v.held, evs, i + 1);
      }
    }
  }

  /** So a status, terminal or not, survives the rest of its reply exactly when whoever
      writes last in it, if anyone does, writes that same status. */
  lemma TerminalSurvives(c: Codec, path: string, v: View, rest: seq<Event>)
    ensures ApplyAll(c, path, v, rest).row.status == v.row.status
            <==> forall i :: 0 <= i && LastWriter(c, v.held, rest, i) ==> Writes(c, v.held, rest, i) == Some(v.row.status)
  {
    LastWriterWins(c, path, v, rest);
  }

  /** And it may not: one reply that reports a failure and then a start takes the
      execution to FAILED and on to RUNNING. */
  lemma TerminalOverwritten(c: Codec, path: string, v: View) returns (first: Event, second: Event)
    ensures KeyOrdered([first, second])
    ensures ApplyAll(c, path, v, [first]).row.status == FAILED
    ensures ApplyAll(c, path, v, [first, second]).row.status == RUNNING
  {
    first := Event(Status, StatusReport("TASK_FAILED"), None);
    second := Event(Status, StatusReport("EXECUTING"), None);
    assert [first][1..] == [] && [first, second][1..] == [second] && [second][1..] == [];
    var v1 := Apply(c, path, v, first);
    assert ApplyAll(c, path, v1, [second]) == Apply(c, path, v1, second);
  }

  /** No report, whatever it says, makes an execution SUCCEEDED: only the valid end of an
      output transfer does. */
  lemma {:induction false} OnlyOutputSucceeds(c: Codec, path: string, v: View, evs: seq<Event>)
    requires v.row.status != SUCCEEDED && ApplyAll(c, path, v, evs).row.status == SUCCEEDED
    ensures exists i :: 0 <= i < |evs| && evs[i].kind == Output && evs[i].m.DataEnd?
                        && Writes(c, v.held, evs, i) == Some(SUCCEEDED)
    decreases |evs|
  {
    var v1, rest := Apply(c, path, v, evs[0]), evs[1..];
    if v1.row.status != SUCCEEDED {
      OnlyOutputSucceeds(c, path, v1, rest);
      WritesLater(c, v.held, evs);
      var i :| 0 <= i < |rest| && rest[i].kind == Output && rest[i].m.DataEnd?
               && Writes(c, v1.held, rest, i) == Some(SUCCEEDED);
      assert evs[i + 1] == rest[i] && Writes(c, v.held, evs, i + 1) == Some(SUCCEEDED);
    } else {
      assert Writes(c, v.held, evs, 0) == Some(SUCCEEDED);
    }
  }

  /** Reports move the status and nothing else, however many and whatever they say. */
  lemma {:induction false} ReportsMoveStatusOnly(c: Codec, path: string, v: View, evs: seq<Event>)
    requires forall ev <- evs :: ev.kind == Status
    ensures ApplyAll(c, path, v, evs) == v.(row := v.row.(status := ApplyAll(c, path, v, evs).row.status))
    ensures ApplyAll(c, path, v, evs).row.status == SUCCEEDED ==> v.row.status == SUCCEEDED
    decreases |evs|
  {
    if evs != [] {
      assert evs[0] in evs && forall ev <- evs[1..] :: ev in evs;
      ReportsMoveStatusOnly(c, path, Apply(c, path, v, evs[0]), evs[1..]);
    }
  }

  // ------------------------------------------------------------ what every life keeps

  function LogLines(ms: seq<Message>): seq<string> {
    if ms == [] then []
    else if ms[0].LogLine? then [ms[0].text] + LogLines(ms[1..])
    else LogLines(ms[1..])
  }

  lemma LogLinesSnoc(ms: seq<Message>, m: Message)
    ensures LogLines(ms + [m]) == if m.LogLine? then LogLines(ms) + [m.text] else LogLines(ms)
  {
    if ms == [] {
      assert [] + [m] == [m] && [m][1..] == [];
    } else {
      assert (ms + [m])[0] == ms[0] && (ms + [m])[1..] == ms[1..] + [m];
      LogLinesSnoc(ms[1..], m);
    }
  }

  ghost function LogEntries(ms: seq<Message>): set<nat> {
    set i: nat | i < |ms| && ms[i].LogLine?
  }

  lemma {:induction false} LogLinesAppend(a: seq<Message>, b: seq<Message>)
    ensures LogLines(a + b) == LogLines(a) + LogLines(b)
    decreases |a|
  {
    if a == [] {
      assert a + b == b;
    } else {
      assert (a + b)[0] == a[0] && (a + b)[1..] == a[1..] + b;
      LogLinesAppend(a[1..], b);
    }
  }

  /** These are the texts of the LOG entries, each in its place ... */
  lemma LogLineAt(ms: seq<Message>, i: nat)
    requires i < |ms| && ms[i].LogLine?
    ensures |LogLines(ms[..i])| < |LogLines(ms)| && LogLines(ms)[|LogLines(ms[..i])|] == ms[i].text
  {
    assert ms == ms[..i] + ms[i..];
    LogLinesAppend(ms[..i], ms[i..]);
    assert LogLines(ms[i..]) == [ms[i].text] + LogLines(ms[i..][1..]);
  }

  /** ... and of nothing else. */
  lemma {:induction false} LogLinesCount(ms: seq<Message>)
    ensures |LogLines(ms)| == |LogEntries(ms)|
    decreases |ms|
  {
    if ms == [] {
      assert LogEntries(ms) == {};
    } else {
      var n := |ms| - 1;
      assert ms == ms[..n] + [ms[n]];
      LogLinesCount(ms[..n]);
      LogLinesSnoc(ms[..n], ms[n]);
      assert LogEntries(ms) == LogEntries(ms[..n]) + if ms[n].LogLine? then {n} else {};
    }
  }

  /** Rows numbered from 1, in order, one per line. */
  ghost predicate Numbered(rows: seq<LogRow>, lines: seq<string>) {
    && |rows| == |lines|
    && forall i :: 0 <= i < |rows| ==> rows[i] == LogRow(i + 1, lines[i])
  }

  /** A SUCCEEDED execution has its output stored, under its own hash. */
  ghost predicate StoredIfSucceeded(c: Codec, path: string, v: View) {
    v.row.status == SUCCEEDED ==>
      v.row.outputPath == path && v.stored.Some? && v.row.outputChecksum == c.sha(v.stored.value)
  }

  /** Whatever the messages, each handled event adds exactly the log line it carries,
      and SUCCEEDED always means stored and validated. */
  lemma {:induction false} EveryLifeKeeps(c: Codec, path: string, v: View, evs: seq<Event>, lines: seq<string>)
    requires Numbered(v.logs, lines) && StoredIfSucceeded(c, path, v)
    ensures Numbered(ApplyAll(c, path, v, evs).logs, lines + LogLines(Project(Kind.Log, evs)))
    ensures StoredIfSucceeded(c, path, ApplyAll(c, path, v, evs))
    decreases |evs|
  {
    if evs == [] {
      assert lines + [] == lines;
    } else {
      var ev, v1 := evs[0], Apply(c, path, v, evs[0]);
      assert StoredIfSucceeded(c, path, v1);
      if ev.kind == Kind.Log && ev.m.LogLine? {
        EveryLifeKeeps(c, path, v1, evs[1..], lines + [ev.m.text]);
        assert lines + LogLines(Project(Kind.Log, evs))
               == (lines + [ev.m.text]) + LogLines(Project(Kind.Log, evs[1..]));
      } else {
        EveryLifeKeeps(c, path, v1, evs[1..], lines);
      }
    }
  }
}
