/** One execution over its whole life, as a machine of atomic steps: the dispatcher's
    main loop and its watcher threads, the four streams with their deletion, the
    Execution row and the output file, and any number of worker invocations, all
    interleaved in any order. Threads may die between any two steps, the dispatcher may
    restart, announcements may repeat, receivers may time out whenever they wait.

    Entries are never forgotten here: deleting a stream moves its `floor`, below which
    XREAD returns nothing (ids of later entries keep growing). */
module Lifecycle {
  import opened StreamNames
  import opened Protocol
  import opened Receiver
  import opened Shuffle
  import opened OutputReceiver
  import opened Watching

  datatype Config = Config(c: Codec, path: string, retries: nat)

  /** Where a watcher stands between two of its atomic steps. */
  datatype Pc =
    | Top                                             // at the head of the loop
    | Reading                                         // status found not terminal
    | Handling                                        // in the middle of a reply
    | Sending(transfer: Id, next: nat, attempts: nat) // between two XADDs of an answer
    | Saving(transfer: Id, attempts: nat)             // answer sent, row not yet saved
    | Storing(data: Bytes, done: nat, checksum: string) // file opened, `done` bytes written, row not yet updated
    | Cleaning                                        // loop left, streams not yet deleted
    | Ended

  /** `todo` is what is left of the reply. History: `base` the log's deletion point and
      `start` what there was to see when the thread began, `handled` all it has handled --
      `lives` reply by reply, and `current` of the reply it is in. */
  datatype Thread = Thread(pc: Pc, at: Counts, todo: Counts, held: Option<Held>, logs: seq<LogRow>,
                           base: nat, start: View, handled: seq<Event>,
                           lives: seq<seq<Event>>, current: seq<Event>)

  datatype Failure = TimedOut | Refused(outcome: Outcome)

  datatype Phase = Ready | Hearing(st: State) | Done(got: Option<Bytes>, transfer: Id)

  /** One worker invocation in its retry loop. */
  datatype Invocation = Invocation(phase: Phase, asked: nat, cursor: nat, failures: seq<Failure>)

  /** `sent` and `saved` are history: the payload behind each transfer id, and the
      transfers whose save went through. */
  datatype System = System(
    events: seq<Message>, log: seq<Message>, status: seq<Message>, output: seq<Message>, floor: Counts,
    row: Row, stored: Option<Bytes>,
    threads: map<nat, Thread>, watched: Option<nat>,
    workers: map<nat, Invocation>,
    sent: map<Id, Payload>, saved: set<Id>)
  {
    function Entries(k: Kind): seq<Message> {
      match k
      case Events => events
      case Log => log
      case Status => status
      case Output => output
    }
  }

  function Later(a: nat, b: nat): nat {
    if a < b then b else a
  }

  /** The next entry of stream `k` that a cursor can still be given. */
  function Pos(s: System, th: Thread, k: Kind): nat {
    Later(th.at.At(k), s.floor.At(k))
  }

  /** Replies are worked through in key order. */
  function NextKind(todo: Counts): Option<Kind> {
    if todo.events > 0 then Some(Events)
    else if todo.log > 0 then Some(Kind.Log)
    else if todo.status > 0 then Some(Kind.Status)
    else if todo.output > 0 then Some(Output)
    else None
  }

  datatype Grant = Refuse | Send(transfer: Id, payload: Payload)

  datatype Action =
    // the dispatcher's main loop
    | Announce(tid: nat)
    | Prune
    | Restart
    // one watcher thread
    | CheckTop(tid: nat, expired: bool)
    | Poll(tid: nat, n: Counts)
    | HandleNext(tid: nat, grant: Grant)
    | EndReply(tid: nat)
    | Emit(tid: nat)
    | Save(tid: nat)
    | Write(tid: nat, done: nat)
    | Record(tid: nat)
    | Clean(tid: nat)
    | Die(tid: nat)
    // anyone writing to the log, status and output streams
    | Append(kind: Kind, m: Message)
    // worker invocations
    | Invoke(w: nat)
    | Ask(w: nat, tenant: string, delegate: string, file: string)
    | Hear(w: nat)
    | TimeOut(w: nat)
    | GiveUp(w: nat)

  predicate At(s: System, tid: nat, pc: Pc) {
    tid in s.threads && s.threads[tid].pc == pc
  }

  predicate Enabled(g: Config, s: System, a: Action) {
    match a
    case Announce(tid) =>
      tid !in s.threads
      && (s.watched.Some? && s.watched.value in s.threads ==> s.threads[s.watched.value].pc.Ended?)
    case Prune => s.watched.Some? && s.watched.value in s.threads && s.threads[s.watched.value].pc.Ended?
    case Restart => true
    case CheckTop(tid, _) => At(s, tid, Top)
    case Poll(tid, n) =>
      At(s, tid, Reading)
      && InReply(s, s.threads[tid], n, Events) && InReply(s, s.threads[tid], n, Kind.Log)
      && InReply(s, s.threads[tid], n, Kind.Status) && InReply(s, s.threads[tid], n, Output)
    case HandleNext(tid, grant) =>
      At(s, tid, Handling)
      && var th := s.threads[tid];
      && NextKind(th.todo).Some?
      && Pos(s, th, NextKind(th.todo).value) < |s.Entries(NextKind(th.todo).value)|
      && (grant.Send? ==> grant.transfer !in s.sent)
    case EndReply(tid) => At(s, tid, Handling) && NextKind(s.threads[tid].todo).None?
    case Emit(tid) =>
      tid in s.threads && s.threads[tid].pc.Sending?
      && s.threads[tid].pc.transfer in s.sent
      && s.threads[tid].pc.next < |Script(g.c, s.threads[tid].pc.transfer, s.sent[s.threads[tid].pc.transfer])|
    case Save(tid) => tid in s.threads && s.threads[tid].pc.Saving?
    case Write(tid, done) =>
      tid in s.threads && s.threads[tid].pc.Storing?
      && s.threads[tid].pc.done < done <= |s.threads[tid].pc.data|
    case Record(tid) =>
      tid in s.threads && s.threads[tid].pc.Storing? && s.threads[tid].pc.done == |s.threads[tid].pc.data|
    case Clean(tid) => At(s, tid, Cleaning)
    case Die(tid) => tid in s.threads && !s.threads[tid].pc.Ended?
    case Append(kind, _) => kind != Events
    case Invoke(w) => w !in s.workers
    case Ask(w, _, _, _) => w in s.workers && s.workers[w].phase.Ready? && s.workers[w].asked < g.retries
    case Hear(w) =>
      w in s.workers && s.workers[w].phase.Hearing?
      && Later(s.workers[w].cursor, s.floor.events) < |s.events|
    case TimeOut(w) => w in s.workers && s.workers[w].phase.Hearing?
    case GiveUp(w) => w in s.workers && s.workers[w].phase.Ready? && s.workers[w].asked == g.retries
  }

  predicate InReply(s: System, th: Thread, n: Counts, k: Kind) {
    n.At(k) <= READ_COUNT && (n.At(k) > 0 ==> Pos(s, th, k) + n.At(k) <= |s.Entries(k)|)
  }

  function Put(s: System, tid: nat, th: Thread): System {
    s.(threads := s.threads[tid := th])
  }

  function Goto(s: System, tid: nat, pc: Pc): System
    requires tid in s.threads
  {
    Put(s, tid, s.threads[tid].(pc := pc))
  }

  /** What a thread can see, and has made, as `Watching` describes it. */
  function Seen(s: System, th: Thread): View {
    View(s.row, s.stored, th.held, th.logs)
  }

  /** One message of the reply, handled as `Watching.Apply` says -- except that an answer
      is sent entry by entry and then saved, and an output file opened, written bit by
      bit and then recorded, in steps of their own. */
  function HandleMessage(g: Config, s: System, tid: nat, grant: Grant): System
    requires Enabled(g, s, HandleNext(tid, grant))
  {
    var th := s.threads[tid];
    var k := NextKind(th.todo).value;
    var ev := NextEvent(s, th, grant);
    var v := Apply(g.c, g.path, Seen(s, th), ev);
    var taken := th.(at := th.at.With(k, Pos(s, th, k) + 1), todo := th.todo.With(k, th.todo.At(k) - 1),
                     held := v.held, logs := v.logs, handled := th.handled + [ev],
                     current := th.current + [ev]);
    if k == Events && ev.m.DataRequest? && grant.Send? then
      Put(s, tid, taken.(pc := Sending(grant.transfer, 0, s.row.transferAttempts)))
      .(sent := s.sent[grant.transfer := grant.payload])
    else if k == Output && Handle(g.c, th.held, ev.m).effect.Store? then
      var file := Handle(g.c, th.held, ev.m).effect;
      Put(s, tid, taken.(pc := Storing(file.data, 0, file.checksum))).(stored := Some([]))
    else
      Put(s, tid, taken).(row := v.row)
  }

  /** The message that comes next, and what a request in it will be granted. */
  function NextEvent(s: System, th: Thread, grant: Grant): Event
    requires NextKind(th.todo).Some?
    requires Pos(s, th, NextKind(th.todo).value) < |s.Entries(NextKind(th.todo).value)|
  {
    var k := NextKind(th.todo).value;
    Event(k, s.Entries(k)[Pos(s, th, k)], if grant.Send? then Some(grant.transfer) else None)
  }

  /** A worker reading entry `p` of the events stream. */
  function HearEntry(g: Config, s: System, v: Invocation, p: nat): Invocation
    requires v.phase.Hearing? && p < |s.events|
  {
    var heard := v.(cursor := p + 1);
    match React(g.c, v.phase.st, s.events[p])
    case Continue(st) => heard.(phase := Hearing(st))
    case Decide(o) =>
      if o.Accepted? then heard.(phase := Done(Some(o.data), o.transfer))
      else heard.(phase := Ready, failures := v.failures + [Refused(o)])
  }

  function Act(g: Config, s: System, a: Action): System
    requires Enabled(g, s, a)
  {
    match a
    case Announce(tid) =>
      Put(s, tid, Thread(Top, ZERO, ZERO, None, [], s.floor.log, View(s.row, s.stored, None, []), [], [], []))
      .(watched := Some(tid))
    case Prune => s.(watched := None)
    case Restart => s.(threads := map t | t in s.threads :: s.threads[t].(pc := Ended), watched := None)
    case CheckTop(tid, expired) =>
      Goto(s, tid, if expired || Terminal(s.row.status) then Cleaning else Reading)
    case Poll(tid, n) =>
      Put(s, tid, s.threads[tid].(pc := if n == ZERO then Top else Handling, todo := n))
    case HandleNext(tid, grant) => HandleMessage(g, s, tid, grant)
    case EndReply(tid) =>
      var th := s.threads[tid];
      Put(s, tid, th.(pc := Top, lives := th.lives + [th.current], current := []))
    case Emit(tid) =>
      var pc := s.threads[tid].pc;
      var script := Script(g.c, pc.transfer, s.sent[pc.transfer]);
      Goto(s, tid, if pc.next + 1 == |script| then Saving(pc.transfer, pc.attempts)
                   else Sending(pc.transfer, pc.next + 1, pc.attempts))
      .(events := s.events + [script[pc.next]])
    case Save(tid) =>
      var pc := s.threads[tid].pc;
      Goto(s, tid, Handling)
      .(row := s.row.(status := TRANSFERRING, transferId := pc.transfer, transferAttempts := pc.attempts + 1),
        saved := s.saved + {pc.transfer})
    case Write(tid, done) =>
      var pc := s.threads[tid].pc;
      Goto(s, tid, pc.(done := done)).(stored := Some(pc.data[..done]))
    case Record(tid) =>
      Goto(s, tid, Handling)
      .(row := s.row.(status := SUCCEEDED, outputPath := g.path, outputChecksum := s.threads[tid].pc.checksum))
    case Clean(tid) =>
      Goto(s, tid, Ended).(floor := Counts(|s.events|, |s.log|, |s.status|, |s.output|))
    case Die(tid) => Goto(s, tid, Ended)
    case Append(kind, m) =>
      (match kind
       case Events => s
       case Log => s.(log := s.log + [m])
       case Status => s.(status := s.status + [m])
       case Output => s.(output := s.output + [m]))
    case Invoke(w) => s.(workers := s.workers[w := Invocation(Ready, 0, 0, [])])
    case Ask(w, tenant, delegate, file) =>
      s.(workers := s.workers[w := s.workers[w].(phase := Hearing(Idle), asked := s.workers[w].asked + 1)],
         events := s.events + [DataRequest(tenant, delegate, file)])
    case Hear(w) =>
      var v := s.workers[w];
      s.(workers := s.workers[w := HearEntry(g, s, v, Later(v.cursor, s.floor.events))])
    case TimeOut(w) =>
      s.(workers := s.workers[w := s.workers[w].(phase := Ready, failures := s.workers[w].failures + [TimedOut])])
    case GiveUp(w) =>
      s.(workers := s.workers[w := s.workers[w].(phase := Done(None, ""))])
  }

  /** A fresh execution: queued, its streams empty, nobody watching or working. */
  predicate Init(s: System) {
    && s.events == [] && s.log == [] && s.status == [] && s.output == [] && s.floor == ZERO
    && s.row == Row(s.row.tenant, s.row.delegate, s.row.fixture, QUEUED, "", 0, "", "") && s.stored == None
    && s.threads == map[] && s.watched == None && s.workers == map[]
    && s.sent == map[] && s.saved == {}
  }

  /** Taking the actions of `run` one after another leads from `s` to `s'`. */
  ghost predicate Runs(g: Config, s: System, run: seq<Action>, s': System)
    decreases |run|
  {
    if run == [] then s' == s
    else Enabled(g, s, run[0]) && Runs(g, Act(g, s, run[0]), run[1..], s')
  }

  ghost predicate Reachable(g: Config, s: System) {
    exists s0, run :: Init(s0) && Runs(g, s0, run, s)
  }

  // ------------------------------------------------------------------ invariants

  /** One watcher: every thread still running is the one in the table. */
  ghost predicate OneWatcher(s: System) {
    && (s.watched.Some? ==> s.watched.value in s.threads)
    && forall tid <- s.threads :: !s.threads[tid].pc.Ended? ==> s.watched == Some(tid)
  }

  /** What is on the events stream is what the one sender has written so far. */
  ghost predicate Sends(g: Config, s: System) {
    && Honest(g.c, s.sent, s.events)
    && (forall t <- s.saved :: Complete(g, s, t))
    && forall tid <- s.threads :: SendsOf(g, s, s.threads[tid].pc)
  }

  ghost predicate Complete(g: Config, s: System, t: Id) {
    t in s.sent && Of(t, s.events) == Script(g.c, t, s.sent[t])
  }

  ghost predicate SendsOf(g: Config, s: System, pc: Pc) {
    match pc
    case Sending(t, k, a) =>
      && t in s.sent && t !in s.saved && a == |s.saved|
      && k < |Script(g.c, t, s.sent[t])| && Of(t, s.events) == Script(g.c, t, s.sent[t])[..k]
    case Saving(t, a) => Complete(g, s, t) && t !in s.saved && a == |s.saved|
    case _ => true
  }

  /** The row counts exactly the transfers whose save went through. */
  ghost predicate CountsSaves(s: System) {
    s.row.transferAttempts == |s.saved|
  }

  /** `t` lost entries to a deletion, and nobody will ever write another of it. */
  ghost predicate Orphan(s: System, t: Id) {
    && t in s.sent
    && s.floor.events <= |s.events|
    && Of(t, s.events) == Of(t, s.events[..s.floor.events])
    && forall tid <- s.threads :: s.threads[tid].pc.Sending? ==> s.threads[tid].pc.transfer != t
  }

  ghost predicate Hears(g: Config, s: System, cursor: nat, st: State) {
    && cursor <= |s.events|
    && (st.Active? ==>
          || (s.floor.events <= cursor && Tracks(g.c, s.sent, s.events[..cursor], st))
          || Orphan(s, st.transfer))
  }

  ghost predicate WorkerOk(g: Config, s: System, v: Invocation) {
    && v.asked <= g.retries && v.cursor <= |s.events|
    && (forall f <- v.failures :: f == TimedOut)
    && match v.phase
       case Ready => |v.failures| == v.asked
       case Hearing(st) => |v.failures| + 1 == v.asked && Hears(g, s, v.cursor, st)
       case Done(None, _) => |v.failures| == v.asked == g.retries
       case Done(Some(data), t) => |v.failures| + 1 == v.asked && Complete(g, s, t) && s.sent[t].data == data
  }

  ghost predicate WorkersOk(g: Config, s: System) {
    && s.floor.events <= |s.events|
    && forall w <- s.workers :: WorkerOk(g, s, s.workers[w])
  }

  /** A SUCCEEDED row has its path and a file; a file being stored is a beginning of what
      its thread writes. */
  ghost predicate Stores(g: Config, s: System) {
    && (s.row.status == SUCCEEDED ==> s.row.outputPath == g.path && s.stored.Some?)
    && forall tid <- s.threads :: StoringOk(g, s, s.threads[tid].pc)
  }

  ghost predicate StoringOk(g: Config, s: System, pc: Pc) {
    pc.Storing? ==> pc.done <= |pc.data| && s.stored == Some(pc.data[..pc.done]) && pc.checksum == g.c.sha(pc.data)
  }

  /** A thread's log rows are the first LOG lines after its starting point. */
  ghost predicate LogsOf(s: System, th: Thread) {
    && th.base <= s.floor.log && Later(th.at.log, th.base) <= |s.log|
    && (!th.pc.Ended? ==> th.base == s.floor.log)
    && Numbered(th.logs, LogLines(s.log[th.base..Later(th.at.log, th.base)]))
  }

  ghost predicate Logs(s: System) {
    && s.floor.log <= |s.log|
    && forall tid <- s.threads :: LogsOf(s, s.threads[tid])
  }

  /** What a thread will see once the step it is in the middle of is done. */
  function Upcoming(g: Config, s: System, th: Thread): View {
    var v := Seen(s, th);
    match th.pc
    case Sending(t, _, a) => v.(row := v.row.(status := TRANSFERRING, transferId := t, transferAttempts := a + 1))
    case Saving(t, a) => v.(row := v.row.(status := TRANSFERRING, transferId := t, transferAttempts := a + 1))
    case Storing(data, _, sum) =>
      v.(stored := Some(data), row := v.row.(status := SUCCEEDED, outputPath := g.path, outputChecksum := sum))
    case _ => v
  }

  /** A live thread is where handling its messages one at a time leads. */
  ghost predicate Projects(g: Config, s: System) {
    forall tid <- s.threads :: ProjectsOf(g, s, s.threads[tid])
  }

  ghost predicate ProjectsOf(g: Config, s: System, th: Thread) {
    !th.pc.Ended? ==> Upcoming(g, s, th) == ApplyAll(g.c, g.path, th.start, th.handled)
  }

  /** A thread lives as `Watching.Life` says: reply after reply, each read after the status
      was found not to be terminal, each worked through in key order. */
  ghost predicate Lives(g: Config, s: System) {
    forall tid <- s.threads :: LifeOf(g, s.threads[tid])
  }

  ghost predicate LifeOf(g: Config, th: Thread) {
    !th.pc.Ended? ==>
      && th.handled == Flat(th.lives) + th.current
      && Life(g.c, g.path, th.start, th.lives)
      && (th.pc.Top? || th.pc.Cleaning? || th.pc.Reading? ==> th.current == [])
      && (!th.pc.Top? && !th.pc.Cleaning? ==> !Terminal(ApplyAll(g.c, g.path, th.start, Flat(th.lives)).row.status))
      && InOrder(th.current, th.todo)
  }

  ghost predicate InOrder(current: seq<Event>, todo: Counts) {
    && KeyOrdered(current)
    && forall ev, k :: ev in current && todo.At(k) > 0 ==> Rank(ev.kind) <= Rank(k)
  }

  ghost predicate Inv(g: Config, s: System) {
    && OneWatcher(s) && Sends(g, s) && CountsSaves(s) && WorkersOk(g, s) && Stores(g, s) && Logs(s)
    && Projects(g, s) && Lives(g, s)
  }
}
