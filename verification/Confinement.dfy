/** Workspace confinement over whole runs: many executions and delegates, requests to the
    control plane, announcements and stream entries that may say anything, and any number
    of watcher threads answering DATA_REQUESTs, all interleaved.

    It is one safety argument across views.create_execution, stream_dispatcher's main loop
    and _handle_data_request, streams.stream_keys and redis_acl._rules. */
module Confinement {
  import opened StreamNames
  import opened Protocol
  import opened Shuffle
  import opened Watching
  import opened StreamDispatcher
  import opened RedisAcl

  datatype Config = Config(c: Codec, fx: Fixtures)

  /** Who wrote an entry is history: the dispatcher for some execution, or anyone else. */
  datatype Author = Dispatcher(execution: string) | Other

  datatype Entry = Entry(author: Author, m: Message)

  datatype Pc = Watching | Answering(transfer: Id, next: nat) | Ended

  datatype Watcher = Watcher(execution: string, keys: Keys, pc: Pc)

  /** One request granted: what is sent, and the tables as they stood at the check. */
  datatype Granted = Granted(execution: string, request: Message, data: Bytes,
                             rows: map<string, Row>, delegates: map<string, DelegateRow>)

  /** `createdFor` and `grants` are history: the delegate each execution was created for,
      and the requests granted, by transfer id. */
  datatype World = World(
    rows: map<string, Row>, delegates: map<string, DelegateRow>, streams: map<string, seq<Entry>>,
    watchers: map<nat, Watcher>,
    createdFor: map<string, string>, grants: map<Id, Granted>)
  {
    function Entries(key: string): seq<Entry> {
      if key in streams then streams[key] else []
    }

    function Appended(key: string, entry: Entry): World {
      this.(streams := streams[key := Entries(key) + [entry]])
    }
  }

  datatype Action =
    // requests to the control plane, and its administration
    | Register(delegate: string, tenant: string)
    | Revoke(delegate: string)
    | DeleteDelegate(delegate: string)
    | CreateExecution(execution: string, tenant: string, delegate: string, fixture: string)
    | UpdateExecution(execution: string, row: Row)
    | DeleteExecution(execution: string)
    // anyone else, on any stream
    | Write(key: string, m: Message)
    | DeleteStream(key: string)
    // the dispatcher
    | Announced(tid: nat, m: Message)
    | Grant(tid: nat, at: nat, transfer: Id)
    | Emit(tid: nat)
    | Die(tid: nat)

  function Script(g: Config, w: World, t: Id): seq<Message>
    requires t in w.grants
  {
    Transfer(g.c, t, w.grants[t].data, CHUNK_SIZE)
  }

  predicate Enabled(g: Config, w: World, a: Action) {
    match a
    case Register(d, _) => IsUuid(d) && d !in w.delegates
    case Revoke(d) => d in w.delegates
    case DeleteDelegate(d) => d in w.delegates
    case CreateExecution(e, tenant, d, _) =>
      e !in w.createdFor && d in w.delegates && w.delegates[d].active && w.delegates[d].tenant == tenant
    case UpdateExecution(e, row) =>
      e in w.rows && row.tenant == w.rows[e].tenant && row.delegate == w.rows[e].delegate
      && row.fixture == w.rows[e].fixture
    case DeleteExecution(e) => e in w.rows
    case Write(_, _) => true
    case DeleteStream(_) => true
    case Announced(tid, m) =>
      tid !in w.watchers && m.ExecutionStarted? && m.execution in w.rows && w.rows[m.execution].delegate.Some?
    case Grant(tid, at, transfer) =>
      && tid in w.watchers && w.watchers[tid].pc.Watching? && transfer !in w.grants
      && var th := w.watchers[tid];
      && at < |w.Entries(th.keys.events)|
      && var m := w.Entries(th.keys.events)[at].m;
      && m.DataRequest? && Answer(w.rows, w.delegates, g.fx, th.execution, m).Some?
    case Emit(tid) =>
      && tid in w.watchers && w.watchers[tid].pc.Answering?
      && var pc := w.watchers[tid].pc;
      && pc.transfer in w.grants && pc.next < |Script(g, w, pc.transfer)|
    case Die(tid) => tid in w.watchers
  }

  function Act(g: Config, w: World, a: Action): World
    requires Enabled(g, w, a)
  {
    match a
    case Register(d, tenant) => w.(delegates := w.delegates[d := DelegateRow(tenant, true)])
    case Revoke(d) => w.(delegates := w.delegates[d := w.delegates[d].(active := false)])
    case DeleteDelegate(d) =>
      w.(delegates := w.delegates - {d},
         rows := map e | e in w.rows :: if w.rows[e].delegate == Some(d) then w.rows[e].(delegate := None) else w.rows[e])
    case CreateExecution(e, tenant, d, fixture) =>
      w.(rows := w.rows[e := Row(tenant, Some(d), fixture, QUEUED, "", 0, "", "")], createdFor := w.createdFor[e := d])
    case UpdateExecution(e, row) => w.(rows := w.rows[e := row])
    case DeleteExecution(e) => w.(rows := w.rows - {e})
    case Write(key, m) => w.Appended(key, Entry(Other, m))
    case DeleteStream(key) => w.(streams := w.streams - {key})
    case Announced(tid, m) =>
      w.(watchers := w.watchers[tid :=
        Watcher(m.execution, StreamKeys(m.execution, w.rows[m.execution].delegate.value), Pc.Watching)])
    case Grant(tid, at, t) =>
      var th := w.watchers[tid];
      var m := w.Entries(th.keys.events)[at].m;
      var data := Answer(w.rows, w.delegates, g.fx, th.execution, m).value;
      w.(watchers := w.watchers[tid := th.(pc := Answering(t, 0))],
         grants := w.grants[t := Granted(th.execution, m, data, w.rows, w.delegates)])
    case Emit(tid) =>
      var th := w.watchers[tid];
      var script := Script(g, w, th.pc.transfer);
      var pc := if th.pc.next + 1 == |script| then Pc.Watching else th.pc.(next := th.pc.next + 1);
      w.Appended(th.keys.events, Entry(Dispatcher(th.execution), script[th.pc.next]))
      .(watchers := w.watchers[tid := th.(pc := pc)])
    case Die(tid) => w.(watchers := w.watchers[tid := w.watchers[tid].(pc := Ended)])
  }

  const NOTHING := World(map[], map[], map[], map[], map[], map[])

  ghost predicate Runs(g: Config, w: World, run: seq<Action>, w': World)
    decreases |run|
  {
    if run == [] then w' == w
    else Enabled(g, w, run[0]) && Runs(g, Act(g, w, run[0]), run[1..], w')
  }

  ghost predicate Reachable(g: Config, w: World) {
    exists run :: Runs(g, NOTHING, run, w)
  }

  // ------------------------------------------------------------------ invariants

  /** An execution's delegate is the one it was created for, or gone. */
  ghost predicate RowsOk(w: World) {
    && (forall d <- w.delegates :: IsUuid(d))
    && (forall e <- w.createdFor :: IsUuid(w.createdFor[e]))
    && forall e <- w.rows :: e in w.createdFor && w.rows[e].delegate in {None, Some(w.createdFor[e])}
  }

  ghost predicate WatcherOk(w: World, th: Watcher) {
    && th.execution in w.createdFor
    && th.keys == StreamKeys(th.execution, w.createdFor[th.execution])
    && (th.pc.Answering? ==> th.pc.transfer in w.grants && w.grants[th.pc.transfer].execution == th.execution)
  }

  /** A grant was made in the name of the delegate the execution was created for, which
      was ACTIVE then and of one tenant with the request and the execution; and what it
      sends is the execution's whole fixture, or the one file of it that was asked for. */
  ghost predicate GrantOk(g: Config, w: World, a: Granted) {
    && a.execution in w.createdFor && a.execution in a.rows && a.request.DataRequest?
    && var d := w.createdFor[a.execution];
    && a.request.delegate == d && a.rows[a.execution].delegate == Some(d)
    && d in a.delegates && a.delegates[d].active
    && a.delegates[d].tenant == a.request.tenant == a.rows[a.execution].tenant
    && var fixture, file := a.rows[a.execution].fixture, a.request.file;
    && if file == "*" || file == "" then a.data == g.fx.whole(fixture) else g.fx.single(fixture, file) == Some(a.data)
  }

  ghost predicate EntryOk(g: Config, w: World, key: string, entry: Entry) {
    entry.author.Dispatcher? ==>
      var e, m := entry.author.execution, entry.m;
      && e in w.createdFor && key == StreamKeys(e, w.createdFor[e]).events
      && (m.DataStart? || m.DataChunk? || m.DataEnd?)
      && m.transfer in w.grants && w.grants[m.transfer].execution == e && m in Script(g, w, m.transfer)
  }

  ghost predicate Inv(g: Config, w: World) {
    && RowsOk(w)
    && (forall tid <- w.watchers :: WatcherOk(w, w.watchers[tid]))
    && (forall t <- w.grants :: GrantOk(g, w, w.grants[t]))
    && forall key <- w.streams :: EntriesOk(g, w, key)
  }

  ghost predicate EntriesOk(g: Config, w: World, key: string)
    requires key in w.streams
  {
    forall entry <- w.streams[key] :: EntryOk(g, w, key, entry)
  }

  /** History only grows. */
  ghost predicate Later(w: World, w': World) {
    && (forall e <- w.createdFor :: e in w'.createdFor && w'.createdFor[e] == w.createdFor[e])
    && (forall t <- w.grants :: t in w'.grants && w'.grants[t] == w.grants[t])
  }

  lemma WatcherLater(w: World, w': World, th: Watcher)
    requires Later(w, w') && WatcherOk(w, th)
    ensures WatcherOk(w', th)
  {
  }

  lemma GrantLater(g: Config, w: World, w': World, a: Granted)
    requires Later(w, w') && GrantOk(g, w, a)
    ensures GrantOk(g, w', a)
  {
  }

  lemma EntryLater(g: Config, w: World, w': World, key: string, entry: Entry)
    requires Later(w, w') && EntryOk(g, w, key, entry)
    ensures EntryOk(g, w', key, entry)
  {
  }

  /** What is not the step's own business stays in order. */
  lemma InvLater(g: Config, w: World, w': World)
    requires Inv(g, w) && Later(w, w') && RowsOk(w')
    requires forall tid <- w'.watchers :: WatcherOk(w', w'.watchers[tid]) || (tid in w.watchers && w'.watchers[tid] == w.watchers[tid])
    requires forall t <- w'.grants :: GrantOk(g, w', w'.grants[t]) || t in w.grants
    requires forall key <- w'.streams :: key in w.streams && w'.streams[key] == w.streams[key]
    ensures Inv(g, w')
  {
    forall tid <- w'.watchers ensures WatcherOk(w', w'.watchers[tid]) {
      if !WatcherOk(w', w'.watchers[tid]) {
        WatcherLater(w, w', w.watchers[tid]);
      }
    }
    forall t <- w'.grants ensures GrantOk(g, w', w'.grants[t]) {
      if !GrantOk(g, w', w'.grants[t]) {
        GrantLater(g, w, w', w.grants[t]);
      }
    }
    forall key <- w'.streams ensures EntriesOk(g, w', key) {
      assert EntriesOk(g, w, key);
      forall entry <- w'.streams[key] ensures EntryOk(g, w', key, entry) {
        EntryLater(g, w, w', key, entry);
      }
    }
  }

  /** One more entry, in order itself. */
  lemma InvAppended(g: Config, w: World, key: string, entry: Entry)
    requires Inv(g, w) && EntryOk(g, w, key, entry)
    ensures Inv(g, w.Appended(key, entry))
  {
    var w' := w.Appended(key, entry);
    forall tid <- w'.watchers ensures WatcherOk(w', w'.watchers[tid]) {
      WatcherLater(w, w', w.watchers[tid]);
    }
    forall t <- w'.grants ensures GrantOk(g, w', w'.grants[t]) {
      GrantLater(g, w, w', w.grants[t]);
    }
    forall k <- w'.streams ensures EntriesOk(g, w', k) {
      assert k in w.streams ==> EntriesOk(g, w, k);
      forall x <- w'.streams[k] ensures EntryOk(g, w', k, x) {
        if k == key && x == entry {
          EntryLater(g, w, w', key, entry);
        } else {
          assert x in w.streams[k];
          EntryLater(g, w, w', k, x);
        }
      }
    }
  }

  lemma TablesStep(g: Config, w: World, a: Action)
    requires Inv(g, w) && Enabled(g, w, a)
    requires a.Register? || a.Revoke? || a.DeleteDelegate? || a.CreateExecution? || a.UpdateExecution? || a.DeleteExecution?
    ensures Inv(g, Act(g, w, a))
  {
    var w' := Act(g, w, a);
    InvLater(g, w, w');
  }

  lemma GrantMade(g: Config, w: World, a: Action)
    requires Inv(g, w) && Enabled(g, w, a) && a.Grant?
    ensures var w' := Act(g, w, a); GrantOk(g, w', w'.grants[a.transfer]) && WatcherOk(w', w'.watchers[a.tid])
    ensures var w' := Act(g, w, a);
            && w'.rows == w.rows && w'.delegates == w.delegates && w'.streams == w.streams && w'.createdFor == w.createdFor
            && w'.watchers == w.watchers[a.tid := w'.watchers[a.tid]]
            && w'.grants == w.grants[a.transfer := w'.grants[a.transfer]]
  {
    var th := w.watchers[a.tid];
    assert WatcherOk(w, th);
    var m := w.Entries(th.keys.events)[a.at].m;
    assert Authorized(w.rows, w.delegates, th.execution, m.tenant, m.delegate);
  }

  lemma GrantStep(g: Config, w: World, w': World, tid: nat, t: Id)
    requires Inv(g, w) && t !in w.grants
    requires t in w'.grants && tid in w'.watchers
    requires w' == w.(watchers := w.watchers[tid := w'.watchers[tid]], grants := w.grants[t := w'.grants[t]])
    requires GrantOk(g, w', w'.grants[t]) && WatcherOk(w', w'.watchers[tid])
    ensures Inv(g, w')
  {
    InvLater(g, w, w');
  }

  lemma WatcherMoves(g: Config, w: World, tid: nat, th: Watcher)
    requires Inv(g, w) && WatcherOk(w, th)
    ensures Inv(g, w.(watchers := w.watchers[tid := th]))
  {
    InvLater(g, w, w.(watchers := w.watchers[tid := th]));
  }

  lemma EmitStep(g: Config, w: World, tid: nat)
    requires Inv(g, w) && Enabled(g, w, Emit(tid))
    ensures Inv(g, Act(g, w, Emit(tid)))
  {
    var th := w.watchers[tid];
    var t := th.pc.transfer;
    assert WatcherOk(w, th);
    ScriptShape(g.c, t, Payload(w.grants[t].data, CHUNK_SIZE), th.pc.next);
    var entry := Entry(Dispatcher(th.execution), Script(g, w, t)[th.pc.next]);
    InvAppended(g, w, th.keys.events, entry);
    var w' := Act(g, w, Emit(tid));
    EmitMoves(g, w, tid, entry);
    WatcherMoves(g, w.Appended(th.keys.events, entry), tid, w'.watchers[tid]);
  }

  lemma EmitMoves(g: Config, w: World, tid: nat, entry: Entry)
    requires Enabled(g, w, Emit(tid)) && WatcherOk(w, w.watchers[tid])
    requires entry == Entry(Dispatcher(w.watchers[tid].execution),
                            Script(g, w, w.watchers[tid].pc.transfer)[w.watchers[tid].pc.next])
    ensures var w1, w' := w.Appended(w.watchers[tid].keys.events, entry), Act(g, w, Emit(tid));
            && tid in w'.watchers && WatcherOk(w1, w'.watchers[tid])
            && w' == w1.(watchers := w1.watchers[tid := w'.watchers[tid]])
  {
  }

  lemma WatchersStep(g: Config, w: World, a: Action)
    requires Inv(g, w) && Enabled(g, w, a) && (a.Announced? || a.Die?)
    ensures Inv(g, Act(g, w, a))
  {
    assert a.Die? ==> WatcherOk(w, w.watchers[a.tid]);
    WatcherMoves(g, w, a.tid, Act(g, w, a).watchers[a.tid]);
  }

  lemma DeleteStreamStep(g: Config, w: World, key: string)
    requires Inv(g, w)
    ensures Inv(g, w.(streams := w.streams - {key}))
  {
    InvLater(g, w, w.(streams := w.streams - {key}));
  }

  lemma InvStep(g: Config, w: World, a: Action)
    requires Inv(g, w) && Enabled(g, w, a)
    ensures Inv(g, Act(g, w, a))
  {
    match a
    case Write(key, m) => InvAppended(g, w, key, Entry(Other, m));
    case Grant(tid, _, t) =>
      GrantMade(g, w, a);
      GrantStep(g, w, Act(g, w, a), tid, t);
    case Emit(tid) => EmitStep(g, w, tid);
    case Announced(_, _) => WatchersStep(g, w, a);
    case Die(_) => WatchersStep(g, w, a);
    case DeleteStream(key) => DeleteStreamStep(g, w, key);
    case _ => TablesStep(g, w, a);
  }

  lemma {:induction false} InvRun(g: Config, w: World, run: seq<Action>, w': World)
    requires Inv(g, w) && Runs(g, w, run, w')
    ensures Inv(g, w')
    decreases |run|
  {
    if run != [] {
      InvStep(g, w, run[0]);
      InvRun(g, Act(g, w, run[0]), run[1..], w');
    }
  }

  /** A watcher may grant the request it has come to exactly on these grounds. */
  lemma GrantedExactly(g: Config, w: World, tid: nat, at: nat, t: Id)
    requires tid in w.watchers && w.watchers[tid].pc.Watching? && t !in w.grants
    requires at < |w.Entries(w.watchers[tid].keys.events)|
    ensures var e, m := w.watchers[tid].execution, w.Entries(w.watchers[tid].keys.events)[at].m;
            Enabled(g, w, Grant(tid, at, t)) <==>
              && m.DataRequest? && e in w.rows && w.rows[e].delegate == Some(m.delegate) && w.rows[e].tenant == m.tenant
              && m.delegate in w.delegates && w.delegates[m.delegate] == DelegateRow(m.tenant, true)
              && (m.file == "*" || m.file == "" || g.fx.single(w.rows[e].fixture, m.file).Some?)
  {
    var m := w.Entries(w.watchers[tid].keys.events)[at].m;
    assert m.DataRequest? ==> (Answer(w.rows, w.delegates, g.fx, w.watchers[tid].execution, m).Some? ==>
      Authorized(w.rows, w.delegates, w.watchers[tid].execution, m.tenant, m.delegate));
  }

  /** Each grant stands for a step of the run, and holds the tables as they were then. */
  lemma {:induction false} GrantedThen(g: Config, w: World, run: seq<Action>, w': World, t: Id) returns (k: nat, wk: World)
    requires Runs(g, w, run, w') && t !in w.grants && t in w'.grants
    ensures k < |run| && run[k].Grant? && run[k].transfer == t
    ensures Runs(g, w, run[..k], wk) && Enabled(g, wk, run[k])
    ensures w'.grants[t].rows == wk.rows && w'.grants[t].delegates == wk.delegates
    ensures w'.grants[t].execution == wk.watchers[run[k].tid].execution
    decreases |run|
  {
    var w1 := Act(g, w, run[0]);
    if t in w1.grants {
      k, wk := 0, w;
      GrantStays(g, w1, run[1..], w', t);
    } else {
      k, wk := GrantedThen(g, w1, run[1..], w', t);
      assert run[..k + 1][0] == run[0] && run[..k + 1][1..] == run[1..][..k];
      k := k + 1;
    }
  }

  lemma {:induction false} GrantStays(g: Config, w: World, run: seq<Action>, w': World, t: Id)
    requires Runs(g, w, run, w') && t in w.grants
    ensures t in w'.grants && w'.grants[t] == w.grants[t]
    decreases |run|
  {
    if run != [] {
      GrantStays(g, Act(g, w, run[0]), run[1..], w', t);
    }
  }

  lemma UuidColonFree(d: string)
    requires IsUuid(d)
    ensures ColonFree(d)
  {
  }

  /** Workspace confinement. In every run, whatever is announced, requested or written by
      anyone: an entry the dispatcher wrote for execution `e` stands on the events stream
      of the delegate `d` that `e` was created for, is part of a whole transfer granted
      for `e`, and when that was granted it was asked for in the name of `d`, `d` was
      ACTIVE and still assigned, and delegate, request and execution had one tenant. And
      of all delegates' Redis users only that of `d` can read it. */
  lemma Confined(g: Config, w: World, key: string, entry: Entry)
    requires Reachable(g, w) && key in w.streams && entry in w.streams[key] && entry.author.Dispatcher?
    ensures var e, m := entry.author.execution, entry.m;
            && e in w.createdFor && key == StreamKeys(e, w.createdFor[e]).events
            && (m.DataStart? || m.DataChunk? || m.DataEnd?)
            && m.transfer in w.grants && m in Script(g, w, m.transfer)
            && var a := w.grants[m.transfer];
            && a.execution == e && GrantOk(g, w, a)
    ensures forall other, password, commands :: IsUuid(other) ==>
              (CanRead(DelegateUser(other, password, commands), key) <==> other == w.createdFor[entry.author.execution])
  {
    var run :| Runs(g, NOTHING, run, w);
    InvRun(g, NOTHING, run, w);
    assert EntriesOk(g, w, key);
    var e, m := entry.author.execution, entry.m;
    var d := w.createdFor[e];
    assert GrantOk(g, w, w.grants[m.transfer]);
    UuidColonFree(d);
    assert StreamKeys(e, d).At(Events) == key;
    forall other, password, commands | IsUuid(other)
      ensures CanRead(DelegateUser(other, password, commands), key) <==> other == d
    {
      UuidColonFree(other);
      DelegateAccess(other, password, commands, e, d, Events);
    }
  }
}
