/** The dispatcher's handlers and one watcher thread, imperatively
    (control_plane/delegates/management/commands/stream_dispatcher.py). */
module StreamDispatcher {
  import opened StreamNames
  import opened Protocol
  import opened Shuffle
  import opened Redis
  import opened ChunkedTransfer
  import opened OutputReceiver
  import opened Watching

  const CHUNK_SIZE: nat := 256 * 1024

  datatype DelegateRow = DelegateRow(tenant: string, active: bool)

  /** What the ownership check and the choice of what to send depend on. */
  datatype Tables = Tables(rows: map<string, Row>, delegates: map<string, DelegateRow>)

  /** The tables the dispatcher reads and writes, and the files under the media root. */
  class Database {
    var rows: map<string, Row>
    var delegates: map<string, DelegateRow>
    var files: map<string, Bytes>
    var logs: map<string, seq<LogRow>>
    ghost var views: seq<Tables>   // the tables each time others had been at work on them

    constructor (rows: map<string, Row>, delegates: map<string, DelegateRow>)
      ensures this.rows == rows && this.delegates == delegates && files == map[] && logs == map[]
    {
      this.rows, this.delegates, files, logs := rows, delegates, map[], map[];
      views := [];
    }

    function LogsOf(e: string): seq<LogRow> reads this {
      if e in logs then logs[e] else []
    }

    function FileAt(path: string): Option<Bytes> reads this {
      if path in files then Some(files[path]) else None
    }

    /** Other threads and requests at work: any delegate row may change, and the delegate
        of `e` be cleared or `e` itself be gone, its log rows with it. */
    method OthersRun(e: string, path: string)
      modifies this
      ensures e in rows ==>
        && e in old(rows) && LogsOf(e) == old(LogsOf(e))
        && (rows[e] == old(rows)[e] || rows[e] == old(rows)[e].(delegate := None))
      ensures FileAt(path) == old(FileAt(path))
      ensures views == old(views) + [Tables(rows, delegates)]
    {
      var changed: map<string, DelegateRow> := *;
      delegates := changed;
      var cleared: bool, deleted: bool := *, *;
      if cleared && e in rows {
        rows := rows[e := rows[e].(delegate := None)];
      }
      if deleted {
        rows, logs := rows - {e}, logs - {e};
      }
      views := views + [Tables(rows, delegates)];
    }
  }

  /** The zipped workspace fixtures: whole, or one file of one, if it is there. */
  datatype Fixtures = Fixtures(whole: string -> Bytes, single: (string, string) -> Option<Bytes>)

  /** The tenant and ownership check made before any workspace data is sent. */
  predicate Authorized(rows: map<string, Row>, delegates: map<string, DelegateRow>, e: string, tenant: string, delegate: string) {
    && e in rows
    && delegate in delegates
    && delegates[delegate].active
    && delegates[delegate].tenant == tenant
    && rows[e].tenant == tenant
    && rows[e].delegate == Some(delegate)
  }

  /** What a request may be answered with: nothing unless authorized and found. */
  function Answer(rows: map<string, Row>, delegates: map<string, DelegateRow>, fx: Fixtures, e: string, m: Message): Option<Bytes>
    requires m.DataRequest?
  {
    if !Authorized(rows, delegates, e, m.tenant, m.delegate) then None
    else if m.file == "*" || m.file == "" then Some(fx.whole(rows[e].fixture))
    else fx.single(rows[e].fixture, m.file)
  }

  method HandleDataRequest(c: Codec, db: Database, events: Stream, fx: Fixtures, e: string, m: Message, transfer: Id)
      returns (granted: Option<Id>)
    requires events.Valid() && m.DataRequest?
    modifies db`rows, events`entries, events`future
    ensures events.Valid()
    ensures granted.Some? <==>
      && e in old(db.rows)
      && m.delegate in db.delegates && db.delegates[m.delegate].active && db.delegates[m.delegate].tenant == m.tenant
      && old(db.rows)[e].tenant == m.tenant && old(db.rows)[e].delegate == Some(m.delegate)
      && (m.file == "*" || m.file == "" || fx.single(old(db.rows)[e].fixture, m.file).Some?)
    ensures granted.None? ==>
      && db.rows == old(db.rows)
      && events.entries == old(events.entries) && events.future == old(events.future)
    ensures granted.Some? ==>
      var row := old(db.rows)[e];
      var data := if m.file == "*" || m.file == "" then fx.whole(row.fixture) else fx.single(row.fixture, m.file).value;
      && granted == Some(transfer)
      && db.rows == old(db.rows)[e := row.(status := TRANSFERRING, transferId := transfer,
                                           transferAttempts := row.transferAttempts + 1)]
      && Wrote(old(events.entries), old(events.future), Transfer(c, transfer, data, CHUNK_SIZE),
               events.entries, events.future)
  {
    if e !in db.rows {
      return None;
    }
    var execution := db.rows[e];
    var authorized :=
      && m.delegate in db.delegates
      && db.delegates[m.delegate].active
      && db.delegates[m.delegate].tenant == m.tenant
      && execution.tenant == m.tenant
      && execution.delegate == Some(m.delegate);
    if !authorized {
      return None;
    }
    var zip: Bytes;
    if m.file == "*" || m.file == "" {
      zip := fx.whole(execution.fixture);
    } else {
      var found := fx.single(execution.fixture, m.file);
      if found.None? {
        return None;
      }
      zip := found.value;
    }
    var _, _, _ := SendBytes(c, events, zip, CHUNK_SIZE, transfer, None);
    db.rows := db.rows[e := execution.(status := TRANSFERRING, transferId := transfer,
                                      transferAttempts := execution.transferAttempts + 1)];
    granted := Some(transfer);
  }

  method HandleLog(db: Database, e: string, text: string, seqNo: nat)
    modifies db`logs
    ensures db.logs == old(db.logs)[e := old(db.LogsOf(e)) + [LogRow(seqNo, text)]]
  {
    db.logs := db.logs[e := db.LogsOf(e) + [LogRow(seqNo, text)]];
  }

  /** The reports that mean status `x`. */
  ghost predicate Reported(status: string, x: ExecStatus) {
    || (x == TRANSFERRING && status == "TRANSFERRING_INPUT")
    || (x == RUNNING && status == "EXECUTING")
    || (x == TRANSFER_FAILED && status == "TRANSFER_FAILED")
    || (x == FAILED && status == "TASK_FAILED")
  }

  /** Any report, recognised or not, trusted or not: it moves the status of its own row,
      and never to SUCCEEDED. */
  method HandleStatus(db: Database, e: string, status: string)
    modifies db`rows
    ensures db.rows.Keys == old(db.rows.Keys) && forall x <- db.rows :: x != e ==> db.rows[x] == old(db.rows)[x]
    ensures e in db.rows ==>
      var before, after := old(db.rows)[e], db.rows[e];
      && after == before.(status := after.status)
      && (after.status == SUCCEEDED ==> before.status == SUCCEEDED)
      && (after.status == before.status || Reported(status, after.status))
      && forall x :: Reported(status, x) ==> after.status == x
  {
    var newStatus := StatusMapping(status);
    if newStatus.Some? && e in db.rows {
      db.rows := db.rows[e := db.rows[e].(status := newStatus.value)];
    }
  }

  class OutputState {
    const transfer: Id
    const totalSize: int
    const checksum: string
    var buf: Bytes
    var seen: set<int>

    constructor (transfer: Id, totalSize: int, checksum: string)
      ensures View() == Held(transfer, totalSize, checksum, [], {})
    {
      this.transfer, this.totalSize, this.checksum := transfer, totalSize, checksum;
      buf, seen := [], {};
    }

    ghost function View(): Held reads this {
      Held(transfer, totalSize, checksum, buf, seen)
    }
  }

  ghost function ViewOf(state: OutputState?): Option<Held>
    reads if state == null then {} else {state}
  {
    if state == null then None else Some(state.View())
  }

  method HandleOutputMessage(c: Codec, db: Database, e: string, path: string, m: Message, state: OutputState?)
      returns (next: OutputState?)
    modifies db`rows, db`files, if state == null then {} else {state}
    ensures next == null || next == state || fresh(next)
    ensures var turn := Handle(c, old(ViewOf(state)), m);
            && ViewOf(next) == turn.state
            && match turn.effect
               case Nothing => db.rows == old(db.rows) && db.files == old(db.files)
               case Store(data, sum) =>
                 && db.files == old(db.files)[path := data]
                 && db.rows == (if e in old(db.rows) then
                                  old(db.rows)[e := old(db.rows)[e].(status := SUCCEEDED, outputPath := path, outputChecksum := sum)]
                                else old(db.rows))
               case Reject =>
                 && db.files == old(db.files)
                 && db.rows == (if e in old(db.rows) then old(db.rows)[e := old(db.rows)[e].(status := FAILED)]
                                else old(db.rows))
    ensures !(state != null && m.DataEnd? && m.transfer == state.transfer) ==>
      db.rows == old(db.rows) && db.files == old(db.files)
    ensures state != null && m.DataEnd? && m.transfer == state.transfer ==>
      var data := old(state.buf);
      && next == null
      && if |data| == state.totalSize && c.sha(data) == state.checksum then
           && db.files == old(db.files)[path := data]
           && (e in old(db.rows) ==> e in db.rows && db.rows[e].status == SUCCEEDED
                                     && db.rows[e].outputPath == path && db.rows[e].outputChecksum == c.sha(data))
         else
           && db.files == old(db.files)
           && (e in old(db.rows) ==> db.rows == old(db.rows)[e := old(db.rows)[e].(status := FAILED)])
  {
    if m.DataStart? {
      next := new OutputState(m.transfer, m.totalSize, m.checksum);
      return;
    }
    if state == null {
      return null;
    }
    if m.DataChunk? && m.transfer == state.transfer {
      if m.seqNo !in state.seen {
        state.seen := state.seen + {m.seqNo};
        state.buf := state.buf + c.unb64(m.body);
      }
      return state;
    }
    if m.DataEnd? && m.transfer == state.transfer {
      var data := state.buf;
      var valid := |data| == state.totalSize && c.sha(data) == state.checksum;
      if valid {
        db.files := db.files[path := data];
        if e in db.rows {
          db.rows := db.rows[e := db.rows[e].(status := SUCCEEDED, outputPath := path, outputChecksum := state.checksum)];
        }
      } else if e in db.rows {
        db.rows := db.rows[e := db.rows[e].(status := FAILED)];
      }
      return null;
    }
    return state;
  }

  // -------------------------------------------------------------- reading at large

  /** The four streams of one execution. */
  datatype Feed = Feed(events: Stream, log: Stream, status: Stream, output: Stream)
  {
    function At(k: Kind): Stream {
      match k
      case Events => events
      case Log => log
      case Status => status
      case Output => output
    }

    ghost predicate Valid() {
      && events.Valid() && log.Valid() && status.Valid() && output.Valid()
      && events != log && events != status && events != output
      && log != status && log != output && status != output
    }
  }

  /** What XREAD gave of each stream; a stream with nothing new is not in the reply. */
  datatype Reply = Reply(events: seq<Message>, log: seq<Message>, status: seq<Message>, output: seq<Message>)

  /** Milliseconds; every poll takes at least one. */
  class Clock {
    var ms: nat
    ghost var polls: seq<Option<Reply>>   // what each XREAD of this thread gave; None is a lost connection

    constructor () ensures ms == 0 && polls == [] {
      ms, polls := 0, [];
    }
  }

  /** One stream's part of a reply: a beginning, maybe empty, of what is unread. */
  method Take(s: Stream, after: nat, count: nat) returns (batch: seq<Message>)
    requires s.Valid() && after <= |s.entries|
    modifies s`entries, s`future
    ensures s.Valid() && Grown(old(s.entries), old(s.future), s.entries, s.future)
    ensures |batch| <= count && after + |batch| <= |s.entries| && batch == s.entries[after..after + |batch|]
  {
    s.Interfere();
    var n: int := *;
    if n < 0 || n > count || after + n > |s.entries| {
      n := 0;
    }
    batch := s.entries[after..after + n];
  }

  ghost predicate Reaches(s: Stream, at: nat) reads s {
    at <= |s.entries|
  }

  ghost predicate Within(at: Counts, w: Feed)
    reads w.events, w.log, w.status, w.output
  {
    Reaches(w.events, at.events) && Reaches(w.log, at.log) && Reaches(w.status, at.status) && Reaches(w.output, at.output)
  }

  /** One more poll is on record. */
  ghost predicate Logged(polls: seq<Option<Reply>>, polls': seq<Option<Reply>>, poll: Option<Reply>) {
    polls' == polls + [poll]
  }

  /** Each stream's part, in the order of the keys. */
  method TakeAll(w: Feed, at: Counts) returns (reply: Reply)
    requires w.Valid() && Within(at, w)
    modifies w.events`entries, w.events`future, w.log`entries, w.log`future, w.status`entries, w.status`future,
             w.output`entries, w.output`future
    ensures w.Valid()
    ensures Extends(old(ContentsOf(w)), ContentsOf(w)) && Coming(w) == old(Coming(w))
    ensures Grown(old(w.events.entries), old(w.events.future), w.events.entries, w.events.future)
    ensures Continues(ContentsOf(w), at, reply)
    ensures |reply.events| <= READ_COUNT && |reply.log| <= READ_COUNT
            && |reply.status| <= READ_COUNT && |reply.output| <= READ_COUNT
  {
    ghost var was := ContentsOf(w);
    ghost var future := Contents(w.events.future, w.log.future, w.status.future, w.output.future);
    var e := Take(w.events, at.events, READ_COUNT);
    var l := Take(w.log, at.log, READ_COUNT);
    var s := Take(w.status, at.status, READ_COUNT);
    var o := Take(w.output, at.output, READ_COUNT);
    GrownWhole(was.events, future.events, w.events.entries, w.events.future);
    GrownWhole(was.log, future.log, w.log.entries, w.log.future);
    GrownWhole(was.status, future.status, w.status.entries, w.status.future);
    GrownWhole(was.output, future.output, w.output.entries, w.output.future);
    reply := Reply(e, l, s, o);
  }

  /** XREAD on all four keys; None is a lost connection, with the pause after it. */
  method XReadAll(w: Feed, clock: Clock, at: Counts) returns (reply: Option<Reply>)
    requires w.Valid() && Within(at, w)
    modifies w.events`entries, w.events`future, w.log`entries, w.log`future, w.status`entries, w.status`future,
             w.output`entries, w.output`future, clock
    ensures w.Valid() && clock.ms > old(clock.ms)
    ensures Extends(old(ContentsOf(w)), ContentsOf(w)) && Coming(w) == old(Coming(w))
    ensures Grown(old(w.events.entries), old(w.events.future), w.events.entries, w.events.future)
    ensures Logged(old(clock.polls), clock.polls, reply) && Gones(w) == old(Gones(w))
    ensures reply.Some? ==>
      && Continues(ContentsOf(w), at, reply.value)
      && |reply.value.events| <= READ_COUNT && |reply.value.log| <= READ_COUNT
      && |reply.value.status| <= READ_COUNT && |reply.value.output| <= READ_COUNT
  {
    var elapsed: int := *;
    var lost: bool := *;
    clock.ms := clock.ms + if elapsed > 0 then elapsed else 1;
    if lost {
      reply := None;
      clock.ms := clock.ms + 2000;
    } else {
      var got := TakeAll(w, at);
      reply := Some(got);
    }
    clock.polls := clock.polls + [reply];
  }

  // ------------------------------------------------------------------ one watcher

  /** What the watcher of `e` sees: its row, whose delegate is others' business, the file
      at its output path, the transfer it holds, and the log rows it has created (the
      first `base` are not its own). */
  ghost function See(db: Database, e: string, path: string, base: nat, state: OutputState?): View
    requires e in db.rows && base <= |db.LogsOf(e)|
    reads db, if state == null then {} else {state}
  {
    View(db.rows[e].(delegate := None), db.FileAt(path), ViewOf(state), db.LogsOf(e)[base..])
  }

  ghost function TablesOf(db: Database): Tables reads db {
    Tables(db.rows, db.delegates)
  }

  /** Nothing that the check for `e` depends on is different. */
  ghost predicate Same(t: Tables, t': Tables, e: string) {
    && t'.delegates == t.delegates && e in t.rows && e in t'.rows
    && t'.rows[e].tenant == t.rows[e].tenant && t'.rows[e].delegate == t.rows[e].delegate
    && t'.rows[e].fixture == t.rows[e].fixture
  }

  /** A request was granted exactly if it was to be, and nothing else was. */
  ghost predicate Answered(t: Tables, fx: Fixtures, e: string, ev: Event) {
    ev.granted.Some? <==> ev.kind == Events && ev.m.DataRequest? && Answer(t.rows, t.delegates, fx, e, ev.m).Some?
  }

  /** What the dispatcher sends in answer to one event. */
  ghost function SentIn(c: Codec, t: Tables, fx: Fixtures, e: string, ev: Event): seq<Message> {
    if ev.granted.Some? && ev.m.DataRequest? && Answer(t.rows, t.delegates, fx, e, ev.m).Some?
    then Transfer(c, ev.granted.value, Answer(t.rows, t.delegates, fx, e, ev.m).value, CHUNK_SIZE)
    else []
  }

  /** And to all of these, one after another. */
  ghost function SentFor(c: Codec, t: Tables, fx: Fixtures, e: string, evs: seq<Event>): seq<Message>
    decreases |evs|
  {
    if evs == [] then [] else SentFor(c, t, fx, e, evs[..|evs| - 1]) + SentIn(c, t, fx, e, evs[|evs| - 1])
  }

  lemma SentSnoc(c: Codec, t: Tables, fx: Fixtures, e: string, evs: seq<Event>, ev: Event)
    ensures SentFor(c, t, fx, e, evs + [ev]) == SentFor(c, t, fx, e, evs) + SentIn(c, t, fx, e, ev)
  {
    assert (evs + [ev])[..|evs|] == evs;
  }

  lemma SentOne(c: Codec, t: Tables, fx: Fixtures, e: string, ev: Event)
    ensures SentFor(c, t, fx, e, [ev]) == SentIn(c, t, fx, e, ev)
  {
    assert [] + [ev] == [ev];
    SentSnoc(c, t, fx, e, [], ev);
  }

  lemma {:induction false} SentAppend(c: Codec, t: Tables, fx: Fixtures, e: string, a: seq<Event>, b: seq<Event>)
    ensures SentFor(c, t, fx, e, a + b) == SentFor(c, t, fx, e, a) + SentFor(c, t, fx, e, b)
    decreases |b|
  {
    if b == [] {
      assert a + b == a;
    } else {
      var ev := b[|b| - 1];
      SentAppend(c, t, fx, e, a, b[..|b| - 1]);
      SentSnoc(c, t, fx, e, a + b[..|b| - 1], ev);
      AppendSnoc(a, b);
      AppendAgain(SentFor(c, t, fx, e, a), SentFor(c, t, fx, e, b[..|b| - 1]), SentIn(c, t, fx, e, ev));
    }
  }

  lemma AppendSnoc(a: seq<Event>, b: seq<Event>)
    requires b != []
    ensures a + b == (a + b[..|b| - 1]) + [b[|b| - 1]]
  {
  }

  lemma AppendAgain(x: seq<Message>, y: seq<Message>, z: seq<Message>)
    ensures (x + y) + z == x + (y + z)
  {
  }

  lemma {:induction false} SentSame(c: Codec, t: Tables, t': Tables, fx: Fixtures, e: string, evs: seq<Event>)
    requires Same(t, t', e)
    ensures SentFor(c, t', fx, e, evs) == SentFor(c, t, fx, e, evs)
    decreases |evs|
  {
    if evs != [] {
      SentSame(c, t, t', fx, e, evs[..|evs| - 1]);
    }
  }

  ghost predicate AllAnswered(t: Tables, fx: Fixtures, e: string, evs: seq<Event>) {
    forall ev <- evs :: Answered(t, fx, e, ev)
  }

  /** The events stream after some of them. */
  lemma WroteMore(c: Codec, t: Tables, t': Tables, fx: Fixtures, e: string, evs: seq<Event>, more: seq<Event>,
                  e0: seq<Message>, f0: seq<Message>, e1: seq<Message>, f1: seq<Message>, e2: seq<Message>, f2: seq<Message>)
    requires Same(t, t', e)
    requires Wrote(e0, f0, SentFor(c, t, fx, e, evs), e1, f1) && Wrote(e1, f1, SentFor(c, t', fx, e, more), e2, f2)
    requires AllAnswered(t, fx, e, evs) && AllAnswered(t', fx, e, more)
    ensures Wrote(e0, f0, SentFor(c, t, fx, e, evs + more), e2, f2)
    ensures AllAnswered(t, fx, e, evs + more)
  {
    SentSame(c, t, t', fx, e, more);
    SentAppend(c, t, fx, e, evs, more);
    WroteBoth(e0, f0, SentFor(c, t, fx, e, evs), e1, f1, SentFor(c, t, fx, e, more), e2, f2);
  }

  /** One message, by the stream it came from and its type. */
  method HandleMessage(c: Codec, db: Database, events: Stream, fx: Fixtures, e: string, path: string, k: Kind, m: Message,
                       logSeq: nat, state: OutputState?, ghost base: nat)
      returns (logSeq': nat, state': OutputState?, ghost ev: Event)
    requires events.Valid() && e in db.rows && |db.LogsOf(e)| == base + logSeq
    modifies db, events`entries, events`future, if state == null then {} else {state}
    ensures events.Valid() && e in db.rows && |db.LogsOf(e)| == base + logSeq'
    ensures state' == null || state' == state || fresh(state')
    ensures Same(old(TablesOf(db)), TablesOf(db), e) && db.views == old(db.views)
    ensures ev.kind == k && ev.m == m && Answered(old(TablesOf(db)), fx, e, ev)
    ensures Wrote(old(events.entries), old(events.future), SentIn(c, old(TablesOf(db)), fx, e, ev),
                  events.entries, events.future)
    ensures See(db, e, path, base, state') == Apply(c, path, old(See(db, e, path, base, state)), ev)
  {
    logSeq', state', ev := logSeq, state, Event(k, m, None);
    WroteNothing(events.entries, events.future);
    if k == Events && m.DataRequest? {
      var transfer: Id := *;
      var granted := HandleEvents(c, db, events, fx, e, path, m, transfer, state, base);
      ev := Event(k, m, granted);
    } else if k == Kind.Log && m.LogLine? {
      logSeq' := logSeq + 1;
      HandleLog(db, e, m.text, logSeq');
    } else if k == Kind.Status && m.StatusReport? {
      HandleStatus(db, e, m.status);
      assert StatusMapping(m.status).Some? ==> Reported(m.status, StatusMapping(m.status).value);
      assert db.rows[e] == (if StatusMapping(m.status).Some? then old(db.rows[e]).(status := StatusMapping(m.status).value)
                            else old(db.rows[e]));
    } else if k == Output {
      state' := HandleOutput(c, db, e, path, m, state, base);
    }
  }

  /** The events stream's part of it. */
  method HandleEvents(c: Codec, db: Database, events: Stream, fx: Fixtures, e: string, path: string, m: Message,
                      transfer: Id, state: OutputState?, ghost base: nat)
      returns (granted: Option<Id>)
    requires events.Valid() && m.DataRequest? && e in db.rows && base <= |db.LogsOf(e)|
    modifies db`rows, events`entries, events`future
    ensures events.Valid() && e in db.rows && Same(old(TablesOf(db)), TablesOf(db), e)
    ensures Answered(old(TablesOf(db)), fx, e, Event(Events, m, granted))
    ensures Wrote(old(events.entries), old(events.future), SentIn(c, old(TablesOf(db)), fx, e, Event(Events, m, granted)),
                  events.entries, events.future)
    ensures See(db, e, path, base, state) == Apply(c, path, old(See(db, e, path, base, state)), Event(Events, m, granted))
  {
    ghost var tables, e0, f0 := TablesOf(db), events.entries, events.future;
    granted := HandleDataRequest(c, db, events, fx, e, m, transfer);
    WroteNothing(e0, f0);
  }

  /** The output stream's part. */
  method HandleOutput(c: Codec, db: Database, e: string, path: string, m: Message, state: OutputState?, ghost base: nat)
      returns (state': OutputState?)
    requires e in db.rows && base <= |db.LogsOf(e)|
    modifies db`rows, db`files, if state == null then {} else {state}
    ensures state' == null || state' == state || fresh(state')
    ensures e in db.rows && Same(old(TablesOf(db)), TablesOf(db), e)
    ensures See(db, e, path, base, state') == Apply(c, path, old(See(db, e, path, base, state)), Event(Output, m, None))
  {
    state' := HandleOutputMessage(c, db, e, path, m, state);
  }

  ghost predicate AllOf(k: Kind, ms: seq<Message>, evs: seq<Event>) {
    |evs| == |ms| && forall i :: 0 <= i < |ms| ==> evs[i].kind == k && evs[i].m == ms[i]
  }

  /** The messages of one stream, in turn. */
  method HandleStream(c: Codec, db: Database, events: Stream, fx: Fixtures, e: string, path: string, k: Kind, ms: seq<Message>,
                      logSeq0: nat, state0: OutputState?, ghost base: nat)
      returns (logSeq: nat, state: OutputState?, ghost evs: seq<Event>)
    requires events.Valid() && e in db.rows && |db.LogsOf(e)| == base + logSeq0
    modifies db, events`entries, events`future, if state0 == null then {} else {state0}
    ensures events.Valid() && e in db.rows && |db.LogsOf(e)| == base + logSeq
    ensures Same(old(TablesOf(db)), TablesOf(db), e) && db.views == old(db.views)
    ensures state == null || state == state0 || fresh(state)
    ensures AllAnswered(old(TablesOf(db)), fx, e, evs)
    ensures Wrote(old(events.entries), old(events.future), SentFor(c, old(TablesOf(db)), fx, e, evs),
                  events.entries, events.future)
    ensures AllOf(k, ms, evs)
    ensures See(db, e, path, base, state) == ApplyAll(c, path, old(See(db, e, path, base, state0)), evs)
  {
    logSeq, state, evs := logSeq0, state0, [];
    ghost var v0, t0, e0, f0 := See(db, e, path, base, state), TablesOf(db), events.entries, events.future;
    WroteNothing(e0, f0);
    for i := 0 to |ms|
      invariant events.Valid() && e in db.rows && |db.LogsOf(e)| == base + logSeq
      invariant state == null || state == state0 || fresh(state)
      invariant Same(t0, TablesOf(db), e) && db.views == old(db.views)
      invariant AllOf(k, ms[..i], evs) && AllAnswered(t0, fx, e, evs)
      invariant Wrote(e0, f0, SentFor(c, t0, fx, e, evs), events.entries, events.future)
      invariant See(db, e, path, base, state) == ApplyAll(c, path, v0, evs)
    {
      ghost var ev, t1, e1, f1 := Event(k, ms[i], None), TablesOf(db), events.entries, events.future;
      logSeq, state, ev := HandleMessage(c, db, events, fx, e, path, k, ms[i], logSeq, state, base);
      ApplyAppend(c, path, v0, evs, [ev]);
      assert [ev][1..] == [];
      SentOne(c, t1, fx, e, ev);
      WroteMore(c, t0, t1, fx, e, evs, [ev], e0, f0, e1, f1, events.entries, events.future);
      evs := evs + [ev];
    }
    assert ms[..|ms|] == ms;
  }

  lemma {:induction false} AllOfProject(k: Kind, ms: seq<Message>, evs: seq<Event>, k': Kind)
    requires AllOf(k, ms, evs)
    ensures Project(k', evs) == if k' == k then ms else []
    decreases |evs|
  {
    if evs != [] {
      assert evs[0].kind == k && evs[0].m == ms[0];
      AllOfProject(k, ms[1..], evs[1..], k');
    }
  }

  ghost predicate Matches(reply: Reply, evs: seq<Event>) {
    && KeyOrdered(evs)
    && Project(Events, evs) == reply.events && Project(Kind.Log, evs) == reply.log
    && Project(Kind.Status, evs) == reply.status && Project(Output, evs) == reply.output
  }

  ghost predicate UpTo(r: nat, evs: seq<Event>) {
    forall ev <- evs :: Rank(ev.kind) <= r
  }

  lemma OrderedAppend(r: nat, x: seq<Event>, k: Kind, ms: seq<Message>, y: seq<Event>)
    requires KeyOrdered(x) && UpTo(r, x) && AllOf(k, ms, y) && r <= Rank(k)
    ensures KeyOrdered(x + y) && UpTo(Rank(k), x + y)
  {
    var z := x + y;
    forall i | 0 <= i < |z| ensures Rank(z[i].kind) <= Rank(k) && (i >= |x| ==> z[i].kind == k) && (i < |x| ==> Rank(z[i].kind) <= r) {
      if i < |x| {
        assert x[i] in x;
      }
    }
  }

  lemma PartsMatch(reply: Reply, a: seq<Event>, b: seq<Event>, c: seq<Event>, d: seq<Event>)
    requires AllOf(Events, reply.events, a) && AllOf(Kind.Log, reply.log, b)
    requires AllOf(Kind.Status, reply.status, c) && AllOf(Output, reply.output, d)
    ensures Matches(reply, a + b + c + d)
  {
    OrderedAppend(Rank(Events), [], Events, reply.events, a);
    assert [] + a == a;
    OrderedAppend(Rank(Events), a, Kind.Log, reply.log, b);
    OrderedAppend(Rank(Kind.Log), a + b, Kind.Status, reply.status, c);
    OrderedAppend(Rank(Kind.Status), a + b + c, Output, reply.output, d);
    PartProject(reply, a, b, c, d, Events);
    PartProject(reply, a, b, c, d, Kind.Log);
    PartProject(reply, a, b, c, d, Kind.Status);
    PartProject(reply, a, b, c, d, Output);
  }

  lemma PartProject(reply: Reply, a: seq<Event>, b: seq<Event>, c: seq<Event>, d: seq<Event>, k: Kind)
    requires AllOf(Events, reply.events, a) && AllOf(Kind.Log, reply.log, b)
    requires AllOf(Kind.Status, reply.status, c) && AllOf(Output, reply.output, d)
    ensures Project(k, a + b + c + d) == Project(k, a) + Project(k, b) + Project(k, c) + Project(k, d)
    ensures Project(k, a + b + c + d) == match k
                                         case Events => reply.events
                                         case Log => reply.log
                                         case Status => reply.status
                                         case Output => reply.output
  {
    ProjectAppend(k, a, b);
    ProjectAppend(k, a + b, c);
    ProjectAppend(k, a + b + c, d);
    AllOfProject(Events, reply.events, a, k);
    AllOfProject(Kind.Log, reply.log, b, k);
    AllOfProject(Kind.Status, reply.status, c, k);
    AllOfProject(Output, reply.output, d, k);
  }

  /** One reply: its streams in key order, each stream's messages in order. */
  method HandleReply(c: Codec, db: Database, events: Stream, fx: Fixtures, e: string, path: string, reply: Reply,
                     logSeq0: nat, state0: OutputState?, ghost base: nat)
      returns (logSeq: nat, state: OutputState?, ghost evs: seq<Event>)
    requires events.Valid() && e in db.rows && |db.LogsOf(e)| == base + logSeq0
    modifies db, events`entries, events`future, if state0 == null then {} else {state0}
    ensures events.Valid() && e in db.rows && |db.LogsOf(e)| == base + logSeq
    ensures Same(old(TablesOf(db)), TablesOf(db), e) && db.views == old(db.views)
    ensures state == null || state == state0 || fresh(state)
    ensures AllAnswered(old(TablesOf(db)), fx, e, evs)
    ensures Wrote(old(events.entries), old(events.future), SentFor(c, old(TablesOf(db)), fx, e, evs),
                  events.entries, events.future)
    ensures Matches(reply, evs)
    ensures See(db, e, path, base, state) == ApplyAll(c, path, old(See(db, e, path, base, state0)), evs)
  {
    ghost var v0, t0, e0, f0 := See(db, e, path, base, state0), TablesOf(db), events.entries, events.future;
    ghost var x1, x2, x3, x4;
    logSeq, state, x1 := HandleStream(c, db, events, fx, e, path, Events, reply.events, logSeq0, state0, base);
    ghost var t1, e1, f1 := TablesOf(db), events.entries, events.future;
    logSeq, state, x2 := HandleStream(c, db, events, fx, e, path, Kind.Log, reply.log, logSeq, state, base);
    WroteMore(c, t0, t1, fx, e, x1, x2, e0, f0, e1, f1, events.entries, events.future);
    t1, e1, f1 := TablesOf(db), events.entries, events.future;
    logSeq, state, x3 := HandleStream(c, db, events, fx, e, path, Kind.Status, reply.status, logSeq, state, base);
    WroteMore(c, t0, t1, fx, e, x1 + x2, x3, e0, f0, e1, f1, events.entries, events.future);
    t1, e1, f1 := TablesOf(db), events.entries, events.future;
    logSeq, state, x4 := HandleStream(c, db, events, fx, e, path, Output, reply.output, logSeq, state, base);
    WroteMore(c, t0, t1, fx, e, x1 + x2 + x3, x4, e0, f0, e1, f1, events.entries, events.future);
    ApplyAppend(c, path, v0, x1, x2);
    ApplyAppend(c, path, v0, x1 + x2, x3);
    ApplyAppend(c, path, v0, x1 + x2 + x3, x4);
    PartsMatch(reply, x1, x2, x3, x4);
    evs := x1 + x2 + x3 + x4;
  }

  /** Everything handled is everything read of one stream, from the start. */
  ghost predicate ReadUpTo(entries: seq<Message>, at: nat, k: Kind, evs: seq<Event>) {
    at <= |entries| && Project(k, evs) == entries[..at]
  }

  datatype Contents = Contents(events: seq<Message>, log: seq<Message>, status: seq<Message>, output: seq<Message>)

  ghost function ContentsOf(w: Feed): Contents
    reads w.events`entries, w.log`entries, w.status`entries, w.output`entries
  {
    Contents(w.events.entries, w.log.entries, w.status.entries, w.output.entries)
  }

  /** All that has been and will be written to the three streams the dispatcher only reads. */
  ghost function Coming(w: Feed): Contents
    reads w.log`entries, w.log`future, w.status`entries, w.status`future, w.output`entries, w.output`future
  {
    Contents([], w.log.entries + w.log.future, w.status.entries + w.status.future, w.output.entries + w.output.future)
  }

  ghost predicate AllRead(s: Contents, at: Counts, evs: seq<Event>) {
    && ReadUpTo(s.events, at.events, Events, evs) && ReadUpTo(s.log, at.log, Kind.Log, evs)
    && ReadUpTo(s.status, at.status, Kind.Status, evs) && ReadUpTo(s.output, at.output, Output, evs)
  }

  ghost predicate Extends(s: Contents, s': Contents) {
    s.events <= s'.events && s.log <= s'.log && s.status <= s'.status && s.output <= s'.output
  }

  ghost predicate Continues(s: Contents, at: Counts, reply: Reply) {
    && at.events + |reply.events| <= |s.events| && reply.events == s.events[at.events..at.events + |reply.events|]
    && at.log + |reply.log| <= |s.log| && reply.log == s.log[at.log..at.log + |reply.log|]
    && at.status + |reply.status| <= |s.status| && reply.status == s.status[at.status..at.status + |reply.status|]
    && at.output + |reply.output| <= |s.output| && reply.output == s.output[at.output..at.output + |reply.output|]
  }

  function Past(at: Counts, reply: Reply): Counts {
    Counts(at.events + |reply.events|, at.log + |reply.log|, at.status + |reply.status|, at.output + |reply.output|)
  }

  lemma ReadOn(entries: seq<Message>, entries': seq<Message>, at: nat, batch: seq<Message>, k: Kind,
               evs: seq<Event>, more: seq<Event>)
    requires ReadUpTo(entries, at, k, evs) && entries <= entries'
    requires at + |batch| <= |entries'| && batch == entries'[at..at + |batch|] && Project(k, more) == batch
    ensures ReadUpTo(entries', at + |batch|, k, evs + more)
  {
    ProjectAppend(k, evs, more);
    assert entries[..at] + batch == entries'[..at + |batch|];
  }

  /** The watcher's whole life so far, and where it has brought what it sees. */
  ghost predicate Lived(c: Codec, path: string, v0: View, replies: seq<seq<Event>>, v: View) {
    Life(c, path, v0, replies) && v == ApplyAll(c, path, v0, Flat(replies))
  }

  lemma LivedOn(c: Codec, path: string, v0: View, replies: seq<seq<Event>>, v: View, evs: seq<Event>)
    requires Lived(c, path, v0, replies, v) && !Terminal(v.row.status) && KeyOrdered(evs)
    ensures Lived(c, path, v0, replies + [evs], ApplyAll(c, path, v, evs))
    ensures Flat(replies + [evs]) == Flat(replies) + evs
  {
    FlatSnoc(replies, evs);
    LifeSnoc(c, path, v0, replies, evs);
    ApplyAppend(c, path, v0, Flat(replies), evs);
  }

  const NOROW := Row("", None, "", QUEUED, "", 0, "", "")

  datatype Ending =
    | Gone        // the row does not exist
    | Settled     // terminal status seen; streams deleted
    | GaveUp      // lifetime over; streams deleted

  lemma AllReadOn(s: Contents, s': Contents, s'': Contents, at: Counts, reply: Reply, evs: seq<Event>, more: seq<Event>)
    requires AllRead(s, at, evs) && Extends(s, s') && Continues(s', at, reply) && Extends(s', s'')
    requires Matches(reply, more)
    ensures AllRead(s'', Past(at, reply), evs + more)
  {
    ReadOn(s.events, s''.events, at.events, reply.events, Events, evs, more);
    ReadOn(s.log, s''.log, at.log, reply.log, Kind.Log, evs, more);
    ReadOn(s.status, s''.status, at.status, reply.status, Kind.Status, evs, more);
    ReadOn(s.output, s''.output, at.output, reply.output, Output, evs, more);
  }

  lemma AllReadStill(s: Contents, s': Contents, at: Counts, evs: seq<Event>)
    requires AllRead(s, at, evs) && Extends(s, s')
    ensures AllRead(s', at, evs + [])
  {
    assert evs + [] == evs;
  }

  lemma GrownThenWrote(e0: seq<Message>, f0: seq<Message>, e1: seq<Message>, f1: seq<Message>,
                       own: seq<Message>, e2: seq<Message>, f2: seq<Message>)
    requires Grown(e0, f0, e1, f1) && (Wrote(e1, f1, own, e2, f2) || (own == [] && e2 == e1 && f2 == f1))
    ensures Wrote(e0, f0, own, e2, f2)
  {
    WroteNothing(e0, f0);
    WroteNothing(e1, f1);
    WroteGrown(e0, f0, [], e0, f0, e1, f1);
    WroteBoth(e0, f0, [], e1, f1, own, e2, f2);
    assert [] + own == own;
  }

  /** What was done about one poll: nothing if the connection was lost, and else everything
      in the reply was handled, each request as the tables then said. */
  ghost predicate Response(t: Tables, fx: Fixtures, e: string, poll: Option<Reply>, evs: seq<Event>) {
    match poll
    case None => evs == []
    case Some(reply) => Matches(reply, evs) && AllAnswered(t, fx, e, evs)
  }

  /** One pass of the loop: wait for a reply and handle it. */
  method PollOnce(c: Codec, db: Database, w: Feed, clock: Clock, fx: Fixtures, e: string, path: string, at: Counts,
                  logSeq0: nat, state0: OutputState?, ghost base: nat, ghost evs0: seq<Event>)
      returns (at': Counts, logSeq: nat, state: OutputState?, ghost evs: seq<Event>, ghost poll: Option<Reply>)
    requires w.Valid() && AllRead(ContentsOf(w), at, evs0)
    requires e in db.rows && |db.LogsOf(e)| == base + logSeq0
    modifies db, w.events`entries, w.events`future, w.log`entries, w.log`future, w.status`entries, w.status`future,
             w.output`entries, w.output`future, clock, if state0 == null then {} else {state0}
    ensures w.Valid() && AllRead(ContentsOf(w), at', evs0 + evs) && KeyOrdered(evs) && Coming(w) == old(Coming(w))
    ensures e in db.rows && |db.LogsOf(e)| == base + logSeq
    ensures Same(old(TablesOf(db)), TablesOf(db), e) && db.views == old(db.views)
    ensures state == null || state == state0 || fresh(state)
    ensures clock.ms > old(clock.ms)
    ensures Logged(old(clock.polls), clock.polls, poll) && Gones(w) == old(Gones(w))
    ensures Response(old(TablesOf(db)), fx, e, poll, evs)
    ensures Wrote(old(w.events.entries), old(w.events.future), SentFor(c, old(TablesOf(db)), fx, e, evs),
                  w.events.entries, w.events.future)
    ensures See(db, e, path, base, state) == ApplyAll(c, path, old(See(db, e, path, base, state0)), evs)
  {
    at', logSeq, state, evs := at, logSeq0, state0, [];
    ghost var s0, e0, f0, tables := ContentsOf(w), w.events.entries, w.events.future, TablesOf(db);
    ghost var v0 := See(db, e, path, base, state0);
    var got := XReadAll(w, clock, at);
    poll := got;
    assert See(db, e, path, base, state0) == v0 && TablesOf(db) == tables;
    if got.None? {
      GrownThenWrote(e0, f0, w.events.entries, w.events.future, [], w.events.entries, w.events.future);
      AllReadStill(s0, ContentsOf(w), at, evs0);
      assert See(db, e, path, base, state) == ApplyAll(c, path, v0, evs);
      return;
    }
    logSeq, state, evs := HandleBatch(c, db, w, fx, e, path, got.value, at, logSeq, state, base, evs0, s0, e0, f0);
    at' := Past(at, got.value);
  }

  /** A reply that follows on what has been read. */
  method HandleBatch(c: Codec, db: Database, w: Feed, fx: Fixtures, e: string, path: string, reply: Reply, at: Counts,
                     logSeq0: nat, state0: OutputState?, ghost base: nat, ghost evs0: seq<Event>,
                     ghost s0: Contents, ghost e0: seq<Message>, ghost f0: seq<Message>)
      returns (logSeq: nat, state: OutputState?, ghost evs: seq<Event>)
    requires w.Valid() && e in db.rows && |db.LogsOf(e)| == base + logSeq0
    requires AllRead(s0, at, evs0) && Extends(s0, ContentsOf(w)) && Continues(ContentsOf(w), at, reply)
    requires Grown(e0, f0, w.events.entries, w.events.future)
    modifies db, w.events`entries, w.events`future, if state0 == null then {} else {state0}
    ensures e in db.rows && |db.LogsOf(e)| == base + logSeq
    ensures Same(old(TablesOf(db)), TablesOf(db), e) && db.views == old(db.views)
    ensures state == null || state == state0 || fresh(state)
    ensures AllRead(ContentsOf(w), Past(at, reply), evs0 + evs)
    ensures Response(old(TablesOf(db)), fx, e, Some(reply), evs)
    ensures Wrote(e0, f0, SentFor(c, old(TablesOf(db)), fx, e, evs), w.events.entries, w.events.future)
    ensures See(db, e, path, base, state) == ApplyAll(c, path, old(See(db, e, path, base, state0)), evs)
  {
    ghost var s1, e1, f1, tables := ContentsOf(w), w.events.entries, w.events.future, TablesOf(db);
    logSeq, state, evs := HandleReply(c, db, w.events, fx, e, path, reply, logSeq0, state0, base);
    AllReadOn(s0, s1, ContentsOf(w), at, reply, evs0, evs);
    GrownThenWrote(e0, f0, e1, f1, SentFor(c, tables, fx, e, evs), w.events.entries, w.events.future);
  }

  /** All that is sent over a life: `views[i]` is the tables when reply i was handled. */
  ghost function SentOver(c: Codec, fx: Fixtures, e: string, views: seq<Tables>, replies: seq<seq<Event>>): seq<Message>
    requires |replies| <= |views|
    decreases |replies|
  {
    if replies == [] then []
    else
      var n := |replies| - 1;
      SentOver(c, fx, e, views, replies[..n]) + SentFor(c, views[n], fx, e, replies[n])
  }

  /** What a watcher has done: for each poll what it got, everything in it and nothing
      else; and on the events stream the answers and nothing else. */
  ghost predicate Ledger(c: Codec, fx: Fixtures, e: string, views: seq<Tables>, polls: seq<Option<Reply>>,
                         replies: seq<seq<Event>>, e0: seq<Message>, f0: seq<Message>, e1: seq<Message>, f1: seq<Message>)
  {
    && |replies| == |polls| <= |views|
    && (forall i :: 0 <= i < |replies| ==> Response(views[i], fx, e, polls[i], replies[i]))
    && Wrote(e0, f0, SentOver(c, fx, e, views, replies), e1, f1)
  }

  lemma LedgerStarts(c: Codec, fx: Fixtures, e: string, views: seq<Tables>, e0: seq<Message>, f0: seq<Message>)
    ensures Ledger(c, fx, e, views, [], [], e0, f0, e0, f0)
  {
    WroteNothing(e0, f0);
  }

  lemma {:induction false} SentOverMore(c: Codec, fx: Fixtures, e: string, views: seq<Tables>, more: seq<Tables>,
                                        replies: seq<seq<Event>>)
    requires |replies| <= |views|
    ensures SentOver(c, fx, e, views + more, replies) == SentOver(c, fx, e, views, replies)
    decreases |replies|
  {
    if replies != [] {
      SentOverMore(c, fx, e, views, more, replies[..|replies| - 1]);
    }
  }

  lemma LedgerViews(c: Codec, fx: Fixtures, e: string, views: seq<Tables>, more: seq<Tables>, polls: seq<Option<Reply>>,
                    replies: seq<seq<Event>>, e0: seq<Message>, f0: seq<Message>, e1: seq<Message>, f1: seq<Message>)
    requires Ledger(c, fx, e, views, polls, replies, e0, f0, e1, f1)
    ensures Ledger(c, fx, e, views + more, polls, replies, e0, f0, e1, f1)
  {
    SentOverMore(c, fx, e, views, more, replies);
  }

  lemma SentOverSnoc(c: Codec, fx: Fixtures, e: string, views: seq<Tables>, replies: seq<seq<Event>>, evs: seq<Event>)
    requires |replies| < |views|
    ensures SentOver(c, fx, e, views, replies + [evs]) ==
            SentOver(c, fx, e, views, replies) + SentFor(c, views[|replies|], fx, e, evs)
  {
    assert (replies + [evs])[..|replies|] == replies;
  }

  lemma LedgerMore(c: Codec, fx: Fixtures, e: string, views: seq<Tables>, polls: seq<Option<Reply>>,
                   replies: seq<seq<Event>>, poll: Option<Reply>, evs: seq<Event>,
                   e0: seq<Message>, f0: seq<Message>, e1: seq<Message>, f1: seq<Message>, e2: seq<Message>, f2: seq<Message>)
    requires Ledger(c, fx, e, views, polls, replies, e0, f0, e1, f1) && |replies| < |views|
    requires Response(views[|replies|], fx, e, poll, evs)
    requires Wrote(e1, f1, SentFor(c, views[|replies|], fx, e, evs), e2, f2)
    ensures Ledger(c, fx, e, views, polls + [poll], replies + [evs], e0, f0, e2, f2)
  {
    SentOverSnoc(c, fx, e, views, replies, evs);
    WroteBoth(e0, f0, SentOver(c, fx, e, views, replies), e1, f1, SentFor(c, views[|replies|], fx, e, evs), e2, f2);
    ResponsesMore(fx, e, views, polls, replies, poll, evs);
  }

  lemma ResponsesMore(fx: Fixtures, e: string, views: seq<Tables>, polls: seq<Option<Reply>>,
                      replies: seq<seq<Event>>, poll: Option<Reply>, evs: seq<Event>)
    requires |replies| == |polls| < |views|
    requires forall i :: 0 <= i < |replies| ==> Response(views[i], fx, e, polls[i], replies[i])
    requires Response(views[|replies|], fx, e, poll, evs)
    ensures forall i :: 0 <= i < |replies| + 1 ==> Response(views[i], fx, e, (polls + [poll])[i], (replies + [evs])[i])
  {
  }

  /** Before every reply of a life the status is one of those three: a reply that leaves
      SUCCEEDED, FAILED or TRANSFER_FAILED is the last. */
  lemma {:induction false} LifeOpen(c: Codec, path: string, v: View, replies: seq<seq<Event>>, i: nat)
    requires Life(c, path, v, replies) && i < |replies|
    ensures Open(ApplyAll(c, path, v, Flat(replies[..i])).row.status)
    decreases i
  {
    if i > 0 {
      LifeOpen(c, path, ApplyAll(c, path, v, replies[0]), replies[1..], i - 1);
      assert replies[..i][0] == replies[0] && replies[..i][1..] == replies[1..][..i - 1];
      ApplyAppend(c, path, v, replies[0], Flat(replies[1..][..i - 1]));
    }
  }

  /** Which of the four streams have been deleted. */
  ghost function Gones(w: Feed): seq<bool> reads w.events`gone, w.log`gone, w.status`gone, w.output`gone {
    [w.events.gone, w.log.gone, w.status.gone, w.output.gone]
  }

  ghost predicate AllGone(w: Feed) reads w.events`gone, w.log`gone, w.status`gone, w.output`gone {
    Gones(w) == [true, true, true, true]
  }

  method CleanupExecutionStreams(w: Feed)
    modifies w.events`gone, w.log`gone, w.status`gone, w.output`gone
    ensures AllGone(w)
  {
    w.events.Delete();
    w.log.Delete();
    w.status.Delete();
    w.output.Delete();
  }

  /** One watcher thread, from the beginning of the streams to its end. The row may lose
      its delegate or vanish between any two replies. */
  method WatchExecution(c: Codec, db: Database, w: Feed, clock: Clock, fx: Fixtures, e: string, path: string, lifetime: nat)
      returns (ending: Ending, ghost replies: seq<seq<Event>>, ghost at: Counts)
    requires w.Valid()
    modifies db, w.events, w.log, w.status, w.output, clock
    ensures w.Valid()
    ensures if ending == Gone then Gones(w) == old(Gones(w))
            else AllGone(w)
    ensures ending == Gone ==> e !in db.rows
    ensures e !in old(db.rows) ==> ending != Settled && replies == []
    ensures old(db.views) <= db.views && old(clock.polls) <= clock.polls
    ensures Ledger(c, fx, e, db.views[|old(db.views)|..], clock.polls[|old(clock.polls)|..], replies,
                   old(w.events.entries), old(w.events.future), w.events.entries, w.events.future)
    ensures AllRead(ContentsOf(w), at, Flat(replies)) && Coming(w) == old(Coming(w))
    ensures e in old(db.rows) ==>
      var v0 := old(See(db, e, path, |db.LogsOf(e)|, null));
      && Life(c, path, v0, replies)
      && (forall i :: 0 <= i < |replies| ==> Open(ApplyAll(c, path, v0, Flat(replies[..i])).row.status))
      && (ending != Gone ==>
            var v := ApplyAll(c, path, v0, Flat(replies));
            && e in db.rows && |db.LogsOf(e)| >= old(|db.LogsOf(e)|)
            && db.rows[e].(delegate := None) == v.row
            && (db.rows[e].delegate == old(db.rows[e].delegate) || db.rows[e].delegate == None)
            && db.FileAt(path) == v.stored && db.LogsOf(e)[old(|db.LogsOf(e)|)..] == v.logs
            && (ending == Settled ==>
                  v.row.status == SUCCEEDED || v.row.status == FAILED || v.row.status == TRANSFER_FAILED)
            && (ending == GaveUp ==> clock.ms >= old(clock.ms) + lifetime))
  {
    var cursors := ZERO;
    var logSeq: nat := 0;
    var state: OutputState? := null;
    var deadline := clock.ms + lifetime;
    replies, at := [], cursors;
    ghost var known := e in db.rows;
    ghost var base := |db.LogsOf(e)|;
    ghost var v0 := if known then See(db, e, path, base, null) else View(NOROW, None, None, []);
    ghost var delegate := if known then db.rows[e].delegate else None;
    ghost var mark := Mark(|db.views|, |clock.polls|, w.events.entries, w.events.future);
    LedgerStarts(c, fx, e, [], w.events.entries, w.events.future);

    var done: Option<Ending> := None;
    while done.None? && clock.ms < deadline
      invariant w.Valid() && deadline == old(clock.ms) + lifetime
      invariant if known && done != Some(Gone) then Standing(c, db, e, path, base, logSeq, state, delegate, v0, replies)
                else e !in db.rows
      invariant if known then Life(c, path, v0, replies) else replies == []
      invariant AllRead(ContentsOf(w), cursors, Flat(replies)) && at == cursors && Coming(w) == old(Coming(w))
      invariant state == null || fresh(state)
      invariant old(db.views) <= db.views && old(clock.polls) <= clock.polls
      invariant Kept(c, fx, e, db, clock, w, mark, replies, done.Some?)
      invariant done != Some(GaveUp)
      invariant if done == Some(Settled) then known && Terminal(db.rows[e].status) && AllGone(w)
                else Gones(w) == old(Gones(w))
      decreases done.None?, deadline - clock.ms
    {
      done, cursors, logSeq, state, replies :=
        Turn(c, db, w, clock, fx, e, path, cursors, logSeq, state, base, delegate, v0, replies, mark);
      at := cursors;
    }
    if done.None? {
      CleanupExecutionStreams(w);
      done := Some(GaveUp);
    }
    ending := done.value;
    LivesOpen(c, path, v0, replies);
  }

  lemma LivesOpen(c: Codec, path: string, v: View, replies: seq<seq<Event>>)
    ensures Life(c, path, v, replies) ==>
      forall i :: 0 <= i < |replies| ==> Open(ApplyAll(c, path, v, Flat(replies[..i])).row.status)
  {
    if Life(c, path, v, replies) {
      forall i | 0 <= i < |replies| ensures Open(ApplyAll(c, path, v, Flat(replies[..i])).row.status) {
        LifeOpen(c, path, v, replies, i);
      }
    }
  }

  /** Where the records stood when a watcher began. */
  datatype Mark = Mark(views: nat, polls: nat, entries: seq<Message>, future: seq<Message>)

  /** The ledger since then; `looked` if the tables have been seen for one more reply. */
  ghost predicate Kept(c: Codec, fx: Fixtures, e: string, db: Database, clock: Clock, w: Feed, mark: Mark,
                       replies: seq<seq<Event>>, looked: bool)
    reads db`views, clock`polls, w.events`entries, w.events`future
  {
    && mark.views <= |db.views| && mark.polls <= |clock.polls|
    && Ledger(c, fx, e, db.views[mark.views..], clock.polls[mark.polls..], replies,
              mark.entries, mark.future, w.events.entries, w.events.future)
    && |db.views| == mark.views + |replies| + (if looked then 1 else 0)
  }

  /** Where a watcher stands between two replies. */
  ghost predicate Standing(c: Codec, db: Database, e: string, path: string, base: nat, logSeq: nat, state: OutputState?,
                           delegate: Option<string>, v0: View, replies: seq<seq<Event>>)
    reads db, if state == null then {} else {state}
  {
    && e in db.rows && |db.LogsOf(e)| == base + logSeq
    && (db.rows[e].delegate == delegate || db.rows[e].delegate == None)
    && Lived(c, path, v0, replies, See(db, e, path, base, state))
  }

  lemma SliceSnoc(a: seq<Option<Reply>>, x: Option<Reply>, k: nat)
    requires k <= |a|
    ensures (a + [x])[k..] == a[k..] + [x]
  {
  }

  /** The head of the loop: what has become of the row, and whether that ends it. */
  method CheckTop(c: Codec, fx: Fixtures, db: Database, w: Feed, clock: Clock, e: string, path: string,
                  ghost logSeq: nat, ghost state: OutputState?, ghost base: nat, ghost delegate: Option<string>, ghost v0: View,
                  ghost replies: seq<seq<Event>>, ghost mark: Mark)
      returns (done: Option<Ending>)
    requires e in db.rows ==> Standing(c, db, e, path, base, logSeq, state, delegate, v0, replies)
    requires Kept(c, fx, e, db, clock, w, mark, replies, false)
    modifies db, w.events`gone, w.log`gone, w.status`gone, w.output`gone
    ensures old(db.views) <= db.views && db.views != [] && db.views[|db.views| - 1] == TablesOf(db)
    ensures Kept(c, fx, e, db, clock, w, mark, replies, true)
    ensures e in db.rows ==> e in old(db.rows) && Standing(c, db, e, path, base, logSeq, state, delegate, v0, replies)
    ensures match done
            case None => e in db.rows && !Terminal(db.rows[e].status)
            case Some(ending) =>
              if e in db.rows then ending == Settled && Terminal(db.rows[e].status) && AllGone(w) else ending == Gone
    ensures done == Some(Settled) || Gones(w) == old(Gones(w))
  {
    ghost var views := db.views[mark.views..];
    db.OthersRun(e, path);
    assert db.views[mark.views..] == views + [TablesOf(db)];
    LedgerViews(c, fx, e, views, [TablesOf(db)], clock.polls[mark.polls..], replies,
                mark.entries, mark.future, w.events.entries, w.events.future);
    if e !in db.rows {
      return Some(Gone);
    }
    if Terminal(db.rows[e].status) {
      CleanupExecutionStreams(w);
      return Some(Settled);
    }
    done := None;
  }

  /** One turn of the loop: leave it, or take one more reply. */
  method Turn(c: Codec, db: Database, w: Feed, clock: Clock, fx: Fixtures, e: string, path: string, at: Counts,
              logSeq0: nat, state0: OutputState?, ghost base: nat, ghost delegate: Option<string>, ghost v0: View,
              ghost replies0: seq<seq<Event>>, ghost mark: Mark)
      returns (done: Option<Ending>, at': Counts, logSeq: nat, state: OutputState?, ghost replies: seq<seq<Event>>)
    requires w.Valid() && AllRead(ContentsOf(w), at, Flat(replies0))
    requires e in db.rows ==> Standing(c, db, e, path, base, logSeq0, state0, delegate, v0, replies0)
    requires Kept(c, fx, e, db, clock, w, mark, replies0, false)
    modifies db, w.events, w.log, w.status, w.output, clock, if state0 == null then {} else {state0}
    ensures w.Valid() && AllRead(ContentsOf(w), at', Flat(replies)) && Coming(w) == old(Coming(w))
    ensures state == null || state == state0 || fresh(state)
    ensures done != Some(GaveUp) && (done.Some? ==> clock.ms == old(clock.ms) && replies == replies0)
    ensures done.None? ==> clock.ms > old(clock.ms) && e in old(db.rows)
    ensures e in old(db.rows) ==> Life(c, path, v0, replies)
    ensures if done == Some(Gone) then e !in db.rows && replies == replies0
            else e in old(db.rows) && Standing(c, db, e, path, base, logSeq, state, delegate, v0, replies)
    ensures old(db.views) <= db.views && old(clock.polls) <= clock.polls
    ensures Kept(c, fx, e, db, clock, w, mark, replies, done.Some?)
    ensures if done == Some(Settled) then Terminal(db.rows[e].status) && AllGone(w)
            else Gones(w) == old(Gones(w))
  {
    at', logSeq, state, replies := at, logSeq0, state0, replies0;
    done := CheckTop(c, fx, db, w, clock, e, path, logSeq, state, base, delegate, v0, replies, mark);
    if done.None? {
      at', logSeq, state, replies := Round(c, db, w, clock, fx, e, path, at, logSeq, state, base, v0, replies, mark);
    }
  }

  /** One more reply in a watcher's life, its status having been found not terminal. */
  method Round(c: Codec, db: Database, w: Feed, clock: Clock, fx: Fixtures, e: string, path: string, at: Counts,
               logSeq0: nat, state0: OutputState?, ghost base: nat, ghost v0: View, ghost replies0: seq<seq<Event>>,
               ghost mark: Mark)
      returns (at': Counts, logSeq: nat, state: OutputState?, ghost replies: seq<seq<Event>>)
    requires w.Valid() && AllRead(ContentsOf(w), at, Flat(replies0))
    requires e in db.rows && |db.LogsOf(e)| == base + logSeq0 && !Terminal(db.rows[e].status)
    requires Lived(c, path, v0, replies0, See(db, e, path, base, state0))
    requires Kept(c, fx, e, db, clock, w, mark, replies0, true) && db.views[|db.views| - 1] == TablesOf(db)
    modifies db, w.events`entries, w.events`future, w.log`entries, w.log`future, w.status`entries, w.status`future,
             w.output`entries, w.output`future, clock, if state0 == null then {} else {state0}
    ensures w.Valid() && AllRead(ContentsOf(w), at', Flat(replies)) && Coming(w) == old(Coming(w))
    ensures e in db.rows && |db.LogsOf(e)| == base + logSeq && db.rows[e].delegate == old(db.rows[e].delegate)
    ensures db.views == old(db.views) && old(clock.polls) <= clock.polls && Gones(w) == old(Gones(w))
    ensures Kept(c, fx, e, db, clock, w, mark, replies, false)
    ensures state == null || state == state0 || fresh(state)
    ensures clock.ms > old(clock.ms)
    ensures Lived(c, path, v0, replies, See(db, e, path, base, state))
  {
    ghost var v, views, polls, tables := See(db, e, path, base, state0), db.views, clock.polls, TablesOf(db);
    ghost var evs, poll, e1, f1 := [], None, w.events.entries, w.events.future;
    at', logSeq, state, evs, poll := PollOnce(c, db, w, clock, fx, e, path, at, logSeq0, state0, base, Flat(replies0));
    LivedOn(c, path, v0, replies0, v, evs);
    KeptMore(c, fx, e, mark, views, polls, tables, replies0, clock.polls, poll, evs, e1, f1, w.events.entries, w.events.future);
    replies := replies0 + [evs];
  }

  lemma KeptMore(c: Codec, fx: Fixtures, e: string, mark: Mark, views: seq<Tables>, polls: seq<Option<Reply>>, tables: Tables,
                 replies: seq<seq<Event>>, polls': seq<Option<Reply>>, poll: Option<Reply>, evs: seq<Event>,
                 e1: seq<Message>, f1: seq<Message>, e2: seq<Message>, f2: seq<Message>)
    requires mark.polls <= |polls| && |views| == mark.views + |replies| + 1 && views[|views| - 1] == tables
    requires Ledger(c, fx, e, views[mark.views..], polls[mark.polls..], replies, mark.entries, mark.future, e1, f1)
    requires Logged(polls, polls', poll) && Response(tables, fx, e, poll, evs)
    requires Wrote(e1, f1, SentFor(c, tables, fx, e, evs), e2, f2)
    ensures Ledger(c, fx, e, views[mark.views..], polls'[mark.polls..], replies + [evs], mark.entries, mark.future, e2, f2)
  {
    SliceSnoc(polls, poll, mark.polls);
    assert views[mark.views..][|replies|] == tables;
    LedgerMore(c, fx, e, views[mark.views..], polls[mark.polls..], replies, poll, evs,
               mark.entries, mark.future, e1, f1, e2, f2);
  }
}
