/** The dispatcher's main loop: announcements in, watcher threads out
    (stream_dispatcher.Command.handle). */
module WatcherTable {
  import opened StreamNames
  import opened Protocol
  import opened Watching
  import opened StreamDispatcher

  class WatcherThread {
    const execution: string
    const keys: Keys
    var alive: bool

    constructor (execution: string, keys: Keys)
      ensures this.execution == execution && this.keys == keys && alive
    {
      this.execution, this.keys, alive := execution, keys, true;
    }
  }

  /** The thread that announcement `m` may start, given what the DB says: it reads the
      streams named after the delegate the row assigns, whatever was announced. */
  predicate Announced(t: WatcherThread, rows: map<string, Row>, m: Message) {
    && m.ExecutionStarted? && m.execution != "" && t.execution == m.execution
    && m.execution in rows && rows[m.execution].delegate.Some?
    && t.keys == StreamKeys(m.execution, rows[m.execution].delegate.value)
  }

  class MainLoop {
    var watched: map<string, WatcherThread>
    ghost var spawned: set<WatcherThread>   // every thread this process ever started

    /** Every running thread is the one in the table under its execution's id. */
    ghost predicate Valid() reads this, spawned {
      && (forall e <- watched :: watched[e] in spawned && watched[e].execution == e)
      && forall t <- spawned :: t.alive ==> t.execution in watched && watched[t.execution] == t
    }

    constructor ()
      ensures Valid() && watched == map[] && spawned == {}
    {
      watched, spawned := map[], {};
    }

    /** Threads finish or die at any time; none comes back. */
    method ThreadsRun()
      requires Valid()
      modifies spawned`alive
      ensures Valid()
      ensures forall t <- spawned :: t.alive ==> old(t.alive)
    {
      var todo := watched.Values;
      while todo != {}
        invariant todo <= spawned && Valid()
        invariant forall t <- spawned :: t.alive ==> old(t.alive)
        decreases |todo|
      {
        var t :| t in todo;
        todo := todo - {t};
        var ends: bool := *;
        if ends {
          t.alive := false;
        }
      }
    }

    /** One announcement. */
    method HandleAnnouncement(rows: map<string, Row>, m: Message) returns (started: WatcherThread?)
      requires Valid()
      modifies this
      ensures Valid()
      ensures started == null ==> watched == old(watched) && spawned == old(spawned)
      ensures started != null ==>
        && fresh(started) && spawned == old(spawned) + {started} && started.alive
        && Announced(started, rows, m) && watched == old(watched)[started.execution := started]
      ensures started != null ==> started.keys == StreamKeys(m.execution, rows[m.execution].delegate.value)
      ensures m.ExecutionStarted? && m.execution != "" && m.execution in rows && rows[m.execution].delegate.Some?
        ==> m.execution in watched && watched[m.execution].alive
    {
      started := null;
      if !m.ExecutionStarted? || m.execution == "" {
        return;
      }
      if m.execution in watched && watched[m.execution].alive {
        return;
      }
      if m.execution !in rows || rows[m.execution].delegate.None? {
        return;
      }
      started := new WatcherThread(m.execution, StreamKeys(m.execution, rows[m.execution].delegate.value));
      watched := watched[m.execution := started];
      spawned := spawned + {started};
    }

    method Prune()
      requires Valid()
      modifies this`watched
      ensures Valid()
      ensures watched.Keys == set e | e in old(watched) && old(watched)[e].alive
      ensures forall e <- watched :: watched[e] == old(watched)[e]
    {
      watched := map e | e in watched && watched[e].alive :: watched[e];
    }

    /** One reply of the global stream, threads running and the tables changing all the
        while: `rows[i]` is what the query for announcement i finds. */
    method HandleReply(rows: seq<map<string, Row>>, batch: seq<Message>)
      requires Valid() && |rows| == |batch|
      modifies this, spawned`alive
      ensures Valid() && old(spawned) <= spawned && fresh(spawned - old(spawned))
      ensures forall t <- spawned - old(spawned) ::
                exists i :: 0 <= i < |batch| && Announced(t, rows[i], batch[i])
      ensures forall i :: 0 <= i < |batch| && batch[i].ExecutionStarted? && batch[i].execution != ""
                          && batch[i].execution in rows[i] && rows[i][batch[i].execution].delegate.Some? ==>
                exists t :: t in spawned && t.execution == batch[i].execution
                            && ((t in old(spawned) && old(t.alive))
                                || exists k :: 0 <= k <= i && Announced(t, rows[k], batch[k]))
      ensures forall t <- old(spawned) :: t.alive ==> old(t.alive)
      ensures forall e <- watched :: watched[e].alive
      ensures forall t1, t2 :: t1 in spawned && t2 in spawned && t1.alive && t2.alive && t1.execution == t2.execution
                ==> t1 == t2
    {
      for i := 0 to |batch|
        invariant Valid() && old(spawned) <= spawned && fresh(spawned - old(spawned))
        invariant forall t <- spawned - old(spawned) ::
                    exists k :: 0 <= k < i && Announced(t, rows[k], batch[k])
        invariant forall j :: 0 <= j < i && batch[j].ExecutionStarted? && batch[j].execution != ""
                              && batch[j].execution in rows[j] && rows[j][batch[j].execution].delegate.Some? ==>
                    exists t :: t in spawned && t.execution == batch[j].execution
                                && ((t in old(spawned) && old(t.alive))
                                    || exists k :: 0 <= k <= j && Announced(t, rows[k], batch[k]))
        invariant forall t <- old(spawned) :: t.alive ==> old(t.alive)
      {
        ThreadsRun();
        ghost var before := spawned;
        var started := HandleAnnouncement(rows[i], batch[i]);
        assert forall t <- spawned - old(spawned) ::
            t in before - old(spawned) || (t == started && Announced(t, rows[i], batch[i]));
        if batch[i].ExecutionStarted? && batch[i].execution != ""
           && batch[i].execution in rows[i] && rows[i][batch[i].execution].delegate.Some? {
          ghost var t := watched[batch[i].execution];
          assert t in spawned && t.alive;
          assert t !in old(spawned) ==> exists k :: 0 <= k <= i && Announced(t, rows[k], batch[k]);
        }
      }
      Prune();
    }
  }
}
