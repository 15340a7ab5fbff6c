/** Every step of the machine keeps every invariant. */
module LifecycleSteps {
  import opened StreamNames
  import opened Protocol
  import opened Receiver
  import opened Shuffle
  import opened OutputReceiver
  import opened Watching
  import opened Lifecycle

  // ---------------------------------------------------------- what a step touches

  /** Steps of writers and workers, which the dispatcher's own state does not feel. */
  predicate OutsideMove(a: Action) {
    a.Append? || a.Invoke? || a.Ask? || a.Hear? || a.TimeOut? || a.GiveUp?
  }

  ghost predicate Outside(s: System, s': System) {
    && s'.threads == s.threads && s'.watched == s.watched && s'.row == s.row && s'.stored == s.stored
    && s'.floor == s.floor && s'.sent == s.sent && s'.saved == s.saved && s.log <= s'.log
  }

  lemma AppendOutside(g: Config, s: System, a: Action)
    requires Enabled(g, s, a) && a.Append?
    ensures Outside(s, Act(g, s, a)) && Act(g, s, a).workers == s.workers && Act(g, s, a).events == s.events
  {
  }

  lemma WorkerOutside(g: Config, s: System, a: Action)
    requires Enabled(g, s, a) && (a.Invoke? || a.TimeOut? || a.GiveUp?)
    ensures Outside(s, Act(g, s, a)) && Act(g, s, a).events == s.events
  {
  }

  lemma AskHearOutside(g: Config, s: System, a: Action)
    requires Enabled(g, s, a) && (a.Ask? || a.Hear?)
    ensures Outside(s, Act(g, s, a))
    ensures Act(g, s, a).events == if a.Ask? then s.events + [DataRequest(a.tenant, a.delegate, a.file)] else s.events
  {
  }

  lemma OutsideStep(g: Config, s: System, a: Action)
    requires Enabled(g, s, a) && OutsideMove(a)
    ensures Outside(s, Act(g, s, a))
    ensures Act(g, s, a).events == if a.Ask? then s.events + [DataRequest(a.tenant, a.delegate, a.file)] else s.events
  {
    if a.Append? {
      AppendOutside(g, s, a);
    } else if a.Ask? || a.Hear? {
      AskHearOutside(g, s, a);
    } else {
      WorkerOutside(g, s, a);
    }
  }

  /** Steps by which one thread moves on without taking a message. */
  predicate OwnMove(a: Action) {
    || a.CheckTop? || a.Poll? || a.EndReply? || a.Die? || a.Clean?
    || a.Emit? || a.Save? || a.Write? || a.Record?
  }

  /** Only that thread's place changes, and of the rest only what its step is for. */
  ghost predicate Moved(s: System, s': System, a: Action)
    requires OwnMove(a)
  {
    && a.tid in s.threads && !s.threads[a.tid].pc.Ended?
    && s'.threads.Keys == s.threads.Keys
    && (forall u <- s.threads :: u != a.tid ==> s'.threads[u] == s.threads[u])
    && var th, th' := s.threads[a.tid], s'.threads[a.tid];
    && th' == th.(pc := th'.pc, todo := th'.todo, lives := th'.lives, current := th'.current)
    && (!a.EndReply? ==> th'.lives == th.lives && th'.current == th.current)
    && (!a.Poll? ==> th'.todo == th.todo)
    && s'.watched == s.watched && s'.workers == s.workers && s'.log == s.log && s'.sent == s.sent
    && (!a.Emit? ==> s'.events == s.events && !th'.pc.Sending? && !th'.pc.Saving?)
    && (!a.Write? ==> s'.stored == s.stored && !th'.pc.Storing?)
    && (!a.Save? ==> s'.saved == s.saved)
    && (!a.Save? && !a.Record? ==> s'.row == s.row)
    && (if a.Clean? then th'.pc.Ended? && s'.floor.log == |s.log| else s'.floor == s.floor)
  }

  lemma MovedAside(g: Config, s: System, a: Action)
    requires Enabled(g, s, a) && (a.CheckTop? || a.Poll? || a.EndReply? || a.Die?)
    ensures Moved(s, Act(g, s, a), a)
  {
  }

  lemma MovedSend(g: Config, s: System, a: Action)
    requires Enabled(g, s, a) && (a.Emit? || a.Save?)
    ensures Moved(s, Act(g, s, a), a)
  {
  }

  lemma MovedStore(g: Config, s: System, a: Action)
    requires Enabled(g, s, a) && (a.Write? || a.Record? || a.Clean?)
    ensures Moved(s, Act(g, s, a), a)
  {
  }

  lemma MovedStep(g: Config, s: System, a: Action)
    requires Enabled(g, s, a) && OwnMove(a)
    ensures Moved(s, Act(g, s, a), a)
  {
    if a.Emit? || a.Save? {
      MovedSend(g, s, a);
    } else if a.Write? || a.Record? || a.Clean? {
      MovedStore(g, s, a);
    } else {
      MovedAside(g, s, a);
    }
  }

  /** Nobody enters or moves within the middle of an answer. */
  ghost predicate PcsCalm(s: System, s': System) {
    forall tid <- s'.threads ::
      var pc := s'.threads[tid].pc;
      pc.Sending? || pc.Saving? ==> tid in s.threads && s.threads[tid].pc == pc
  }

  /** Nor of a file update. */
  ghost predicate FilesCalm(s: System, s': System) {
    && s'.stored == s.stored
    && forall tid <- s'.threads ::
         s'.threads[tid].pc.Storing? ==> tid in s.threads && s.threads[tid].pc == s'.threads[tid].pc
  }

  lemma CalmMain(g: Config, s: System, a: Action)
    requires Enabled(g, s, a) && (a.Announce? || a.Prune? || a.Restart?)
    ensures var s' := Act(g, s, a);
            && PcsCalm(s, s') && FilesCalm(s, s') && s'.sent == s.sent && s'.row == s.row
            && s'.events == s.events && s'.saved == s.saved && s'.workers == s.workers && s'.floor == s.floor
  {
  }

  lemma CalmStep(g: Config, s: System, a: Action)
    requires Enabled(g, s, a) && !a.Emit? && !a.HandleNext?
    ensures PcsCalm(s, Act(g, s, a)) && Act(g, s, a).sent == s.sent
  {
    if OwnMove(a) {
      MovedStep(g, s, a);
    } else if OutsideMove(a) {
      OutsideStep(g, s, a);
    } else {
      CalmMain(g, s, a);
    }
  }

  /** All that handling one message changes, message by message kind. */
  ghost predicate Handled(g: Config, s: System, s': System, tid: nat, grant: Grant)
  {
    && Enabled(g, s, HandleNext(tid, grant))
    && s'.events == s.events && s'.log == s.log && s'.floor == s.floor
    && s'.watched == s.watched && s'.workers == s.workers && s'.saved == s.saved
    && s'.threads.Keys == s.threads.Keys
    && (forall u <- s.threads :: u != tid ==> s'.threads[u] == s.threads[u])
    && s'.row.transferAttempts == s.row.transferAttempts
    && var th, th' := s.threads[tid], s'.threads[tid];
    && th'.base == th.base && th'.start == th.start
    && th'.handled == th.handled + [NextEvent(s, th, grant)]
    && th'.lives == th.lives && th'.current == th.current + [NextEvent(s, th, grant)]
    && th'.todo == th.todo.With(NextKind(th.todo).value, th.todo.At(NextKind(th.todo).value) - 1)
    && HandledLog(s, th, th')
    && match th'.pc
       case Sending(t, n, a) =>
         && grant.Send? && t == grant.transfer && t !in s.sent && n == 0 && a == s.row.transferAttempts
         && s'.sent == s.sent[t := grant.payload]
         && s'.row == s.row && s'.stored == s.stored
       case Storing(data, n, sum) =>
         && s'.sent == s.sent && s'.row == s.row
         && n == 0 && s'.stored == Some([]) && sum == g.c.sha(data)
       case Handling =>
         && s'.sent == s.sent && s'.stored == s.stored
         && (s'.row == s.row || s'.row.status != SUCCEEDED)
       case _ => false
  }

  ghost predicate HandledLog(s: System, th: Thread, th': Thread)
    requires NextKind(th.todo).Some?
  {
    var k := NextKind(th.todo).value;
    var p := Pos(s, th, Kind.Log);
    if k == Kind.Log then
      && p < |s.log| && th'.at.log == p + 1
      && th'.logs == if s.log[p].LogLine? then th.logs + [LogRow(|th.logs| + 1, s.log[p].text)] else th.logs
    else th'.at.log == th.at.log && th'.logs == th.logs
  }

  lemma HandleEventStep(g: Config, s: System, tid: nat, grant: Grant)
    requires Enabled(g, s, HandleNext(tid, grant)) && NextKind(s.threads[tid].todo) == Some(Events)
    ensures Handled(g, s, HandleMessage(g, s, tid, grant), tid, grant)
  {
  }

  lemma HandleLogStep(g: Config, s: System, tid: nat, grant: Grant)
    requires Enabled(g, s, HandleNext(tid, grant)) && NextKind(s.threads[tid].todo) == Some(Kind.Log)
    ensures Handled(g, s, HandleMessage(g, s, tid, grant), tid, grant)
  {
  }

  lemma HandleStatusStep(g: Config, s: System, tid: nat, grant: Grant)
    requires Enabled(g, s, HandleNext(tid, grant)) && NextKind(s.threads[tid].todo) == Some(Kind.Status)
    ensures Handled(g, s, HandleMessage(g, s, tid, grant), tid, grant)
  {
  }

  lemma HandleStoreStep(g: Config, s: System, tid: nat, grant: Grant)
    requires Enabled(g, s, HandleNext(tid, grant)) && NextKind(s.threads[tid].todo) == Some(Output)
    requires Handle(g.c, s.threads[tid].held, NextEvent(s, s.threads[tid], grant).m).effect.Store?
    ensures Handled(g, s, HandleMessage(g, s, tid, grant), tid, grant)
  {
  }

  lemma HandleOutputStep(g: Config, s: System, tid: nat, grant: Grant)
    requires Enabled(g, s, HandleNext(tid, grant)) && NextKind(s.threads[tid].todo) == Some(Output)
    requires !Handle(g.c, s.threads[tid].held, NextEvent(s, s.threads[tid], grant).m).effect.Store?
    ensures Handled(g, s, HandleMessage(g, s, tid, grant), tid, grant)
  {
  }

  lemma HandleStep(g: Config, s: System, tid: nat, grant: Grant)
    requires Enabled(g, s, HandleNext(tid, grant))
    ensures Handled(g, s, HandleMessage(g, s, tid, grant), tid, grant)
  {
    match NextKind(s.threads[tid].todo).value
    case Events => HandleEventStep(g, s, tid, grant);
    case Log => HandleLogStep(g, s, tid, grant);
    case Status => HandleStatusStep(g, s, tid, grant);
    case Output =>
      if Handle(g.c, s.threads[tid].held, NextEvent(s, s.threads[tid], grant).m).effect.Store? {
        HandleStoreStep(g, s, tid, grant);
      } else {
        HandleOutputStep(g, s, tid, grant);
      }
  }

  /** Once the step it begins is done, the thread sees what handling the message leads to. */
  ghost predicate HandledView(g: Config, s: System, s': System, tid: nat, grant: Grant)
    requires Enabled(g, s, HandleNext(tid, grant)) && tid in s'.threads
  {
    Upcoming(g, s', s'.threads[tid]) == Apply(g.c, g.path, Seen(s, s.threads[tid]), NextEvent(s, s.threads[tid], grant))
  }

  lemma HandleViewStep(g: Config, s: System, tid: nat, grant: Grant)
    requires Enabled(g, s, HandleNext(tid, grant))
    ensures HandledView(g, s, HandleMessage(g, s, tid, grant), tid, grant)
  {
  }

  lemma OneWatcherHandle(g: Config, s: System, s': System, tid: nat, grant: Grant)
    requires OneWatcher(s) && Handled(g, s, s', tid, grant)
    ensures OneWatcher(s')
  {
  }

  /** No thread but `tid`, and no thread that has ended, comes back to life. */
  ghost predicate NoneRevived(s: System, s': System) {
    && s'.watched == s.watched && s.threads.Keys <= s'.threads.Keys
    && forall u <- s'.threads :: !s'.threads[u].pc.Ended? ==> u in s.threads && !s.threads[u].pc.Ended?
  }

  lemma QuietStep(g: Config, s: System, a: Action)
    requires Enabled(g, s, a) && (OwnMove(a) || OutsideMove(a))
    ensures NoneRevived(s, Act(g, s, a))
  {
    if OwnMove(a) {
      MovedStep(g, s, a);
    } else {
      OutsideStep(g, s, a);
    }
  }

  lemma OneWatcherMain(g: Config, s: System, a: Action)
    requires OneWatcher(s) && Enabled(g, s, a) && (a.Announce? || a.Prune? || a.Restart?)
    ensures OneWatcher(Act(g, s, a))
  {
  }

  lemma OneWatcherQuiet(s: System, s': System)
    requires OneWatcher(s) && NoneRevived(s, s')
    ensures OneWatcher(s')
  {
  }

  lemma OneWatcherStep(g: Config, s: System, a: Action)
    requires OneWatcher(s) && Enabled(g, s, a)
    ensures OneWatcher(Act(g, s, a))
  {
    if a.HandleNext? {
      HandleStep(g, s, a.tid, a.grant);
      OneWatcherHandle(g, s, Act(g, s, a), a.tid, a.grant);
    } else if a.Announce? || a.Prune? || a.Restart? {
      OneWatcherMain(g, s, a);
    } else {
      QuietStep(g, s, a);
      OneWatcherQuiet(s, Act(g, s, a));
    }
  }

  // --------------------------------------------------------------- events stream

  lemma HonestOther(c: Codec, sent: map<Id, Payload>, ms: seq<Message>, m: Message)
    requires Honest(c, sent, ms) && m.DataRequest?
    ensures Honest(c, sent, ms + [m])
    ensures forall t :: Of(t, ms + [m]) == Of(t, ms)
  {
    forall t ensures Of(t, ms + [m]) == Of(t, ms) {
      OfSnoc(t, ms, m);
    }
  }

  lemma HonestEmit(c: Codec, sent: map<Id, Payload>, ms: seq<Message>, t: Id, k: nat)
    requires Honest(c, sent, ms) && t in sent && k < |Script(c, t, sent[t])|
    requires Of(t, ms) == Script(c, t, sent[t])[..k]
    ensures var m := Script(c, t, sent[t])[k];
            && Honest(c, sent, ms + [m])
            && Of(t, ms + [m]) == Script(c, t, sent[t])[..k + 1]
            && forall u :: u != t ==> Of(u, ms + [m]) == Of(u, ms)
  {
    var script := Script(c, t, sent[t]);
    var m := script[k];
    ScriptShape(c, t, sent[t], k);
    assert script[..k + 1] == script[..k] + [m];
    forall u ensures Of(u, ms + [m]) == if u == t then script[..k + 1] else Of(u, ms) {
      OfSnoc(u, ms, m);
    }
    forall u | Of(u, ms + [m]) != []
      ensures u in sent && Of(u, ms + [m]) <= Script(c, u, sent[u])
    {
    }
  }

  lemma HonestBegin(c: Codec, sent: map<Id, Payload>, ms: seq<Message>, t: Id, p: Payload)
    requires Honest(c, sent, ms) && t !in sent
    ensures Honest(c, sent[t := p], ms) && Of(t, ms) == []
  {
  }

  lemma SendsCalm(g: Config, s: System, s': System)
    requires Sends(g, s) && PcsCalm(s, s')
    requires s'.sent == s.sent && s'.saved == s.saved
    requires Honest(g.c, s'.sent, s'.events) && forall t :: Of(t, s'.events) == Of(t, s.events)
    ensures Sends(g, s')
  {
    forall t <- s'.saved ensures Complete(g, s', t) {
      assert Complete(g, s, t);
    }
    forall u <- s'.threads ensures SendsOf(g, s', s'.threads[u].pc) {
      if u in s.threads {
        assert SendsOf(g, s, s.threads[u].pc);
      }
    }
  }

  lemma SendsEmit(g: Config, s: System, tid: nat)
    requires OneWatcher(s) && Sends(g, s) && Enabled(g, s, Emit(tid))
    ensures Sends(g, Act(g, s, Emit(tid)))
  {
    var s' := Act(g, s, Emit(tid));
    var pc := s.threads[tid].pc;
    assert SendsOf(g, s, pc);
    HonestEmit(g.c, s.sent, s.events, pc.transfer, pc.next);
    var script := Script(g.c, pc.transfer, s.sent[pc.transfer]);
    assert script[..|script|] == script;
    forall t <- s'.saved ensures Complete(g, s', t) {
      assert Complete(g, s, t);
    }
    forall u <- s'.threads ensures SendsOf(g, s', s'.threads[u].pc) {
      assert SendsOf(g, s, s.threads[u].pc);
    }
  }

  lemma SendsHandle(g: Config, s: System, s': System, tid: nat, grant: Grant)
    requires Sends(g, s) && CountsSaves(s) && Handled(g, s, s', tid, grant)
    ensures Sends(g, s')
  {
    if s'.sent != s.sent {
      HonestBegin(g.c, s.sent, s.events, grant.transfer, grant.payload);
      assert Script(g.c, grant.transfer, grant.payload)[..0] == [];
    }
    forall t <- s'.saved ensures Complete(g, s', t) {
      assert Complete(g, s, t);
    }
    assert grant.Send? && grant.transfer in s.saved ==> Complete(g, s, grant.transfer);
    forall u <- s'.threads ensures SendsOf(g, s', s'.threads[u].pc) {
      assert SendsOf(g, s, s.threads[u].pc);
    }
  }

  lemma SendsSave(g: Config, s: System, tid: nat)
    requires OneWatcher(s) && Sends(g, s) && Enabled(g, s, Save(tid))
    ensures Sends(g, Act(g, s, Save(tid)))
  {
    var s' := Act(g, s, Save(tid));
    assert SendsOf(g, s, s.threads[tid].pc);
    forall t <- s'.saved ensures Complete(g, s', t) {
      assert Complete(g, s, t);
    }
    forall u <- s'.threads ensures SendsOf(g, s', s'.threads[u].pc) {
    }
  }

  lemma SendsStep(g: Config, s: System, a: Action)
    requires OneWatcher(s) && Sends(g, s) && CountsSaves(s) && Enabled(g, s, a)
    ensures Sends(g, Act(g, s, a))
  {
    if a.Emit? {
      SendsEmit(g, s, a.tid);
    } else if a.HandleNext? {
      HandleStep(g, s, a.tid, a.grant);
      SendsHandle(g, s, Act(g, s, a), a.tid, a.grant);
    } else if a.Save? {
      SendsSave(g, s, a.tid);
    } else {
      CalmStep(g, s, a);
      if a.Ask? {
        HonestOther(g.c, s.sent, s.events, DataRequest(a.tenant, a.delegate, a.file));
      }
      SendsCalm(g, s, Act(g, s, a));
    }
  }

  lemma CountsStep(g: Config, s: System, a: Action)
    requires Sends(g, s) && CountsSaves(s) && Enabled(g, s, a)
    ensures CountsSaves(Act(g, s, a))
  {
    if a.Save? {
      assert SendsOf(g, s, s.threads[a.tid].pc);
    } else if a.HandleNext? {
      HandleStep(g, s, a.tid, a.grant);
    }
  }

  // --------------------------------------------------------------------- storing

  lemma FilesCalmStep(g: Config, s: System, a: Action)
    requires Enabled(g, s, a) && !a.Write? && !a.HandleNext?
    ensures FilesCalm(s, Act(g, s, a))
    ensures Act(g, s, a).row == s.row || a.Save? || a.Record?
  {
    if OwnMove(a) {
      MovedStep(g, s, a);
    } else if OutsideMove(a) {
      OutsideStep(g, s, a);
    } else {
      CalmMain(g, s, a);
    }
  }

  lemma StoresCalm(g: Config, s: System, s': System)
    requires Stores(g, s) && FilesCalm(s, s')
    requires s'.row == s.row || s'.row.status != SUCCEEDED
    ensures Stores(g, s')
  {
    forall tid <- s'.threads ensures StoringOk(g, s', s'.threads[tid].pc) {
      if tid in s.threads {
        assert StoringOk(g, s, s.threads[tid].pc);
      }
    }
  }

  lemma StoresHandle(g: Config, s: System, s': System, tid: nat, grant: Grant)
    requires OneWatcher(s) && Stores(g, s) && Handled(g, s, s', tid, grant)
    ensures Stores(g, s')
  {
    forall u <- s'.threads ensures StoringOk(g, s', s'.threads[u].pc) {
      assert StoringOk(g, s, s.threads[u].pc);
    }
  }

  /** Only the one live thread is ever storing. */
  lemma StoresWrite(g: Config, s: System, tid: nat, done: nat)
    requires OneWatcher(s) && Stores(g, s) && Enabled(g, s, Write(tid, done))
    ensures Stores(g, Act(g, s, Write(tid, done)))
  {
    var s' := Act(g, s, Write(tid, done));
    forall u <- s'.threads ensures StoringOk(g, s', s'.threads[u].pc) {
      assert StoringOk(g, s, s.threads[u].pc);
      assert u != tid ==> s.threads[u].pc.Ended?;
    }
  }

  lemma StoresRecord(g: Config, s: System, tid: nat)
    requires OneWatcher(s) && Stores(g, s) && Enabled(g, s, Record(tid))
    ensures Stores(g, Act(g, s, Record(tid)))
  {
    var s' := Act(g, s, Record(tid));
    assert StoringOk(g, s, s.threads[tid].pc);
    forall u <- s'.threads ensures StoringOk(g, s', s'.threads[u].pc) {
      assert StoringOk(g, s, s.threads[u].pc);
    }
  }

  lemma StoresStep(g: Config, s: System, a: Action)
    requires OneWatcher(s) && Stores(g, s) && Enabled(g, s, a)
    ensures Stores(g, Act(g, s, a))
  {
    if a.HandleNext? {
      HandleStep(g, s, a.tid, a.grant);
      StoresHandle(g, s, Act(g, s, a), a.tid, a.grant);
    } else if a.Write? {
      StoresWrite(g, s, a.tid, a.done);
    } else if a.Record? {
      StoresRecord(g, s, a.tid);
    } else {
      FilesCalmStep(g, s, a);
      StoresCalm(g, s, Act(g, s, a));
    }
  }

  // ----------------------------------------------------------- what a thread sees

  /** No live thread's view changes, nor what it has handled. */
  ghost predicate ViewsCalm(g: Config, s: System, s': System) {
    forall u <- s'.threads ::
      var th' := s'.threads[u];
      !th'.pc.Ended? ==>
        && u in s.threads && !s.threads[u].pc.Ended?
        && Upcoming(g, s', th') == Upcoming(g, s, s.threads[u])
        && th'.start == s.threads[u].start && th'.handled == s.threads[u].handled
  }

  lemma ViewsCalmMoved(g: Config, s: System, s': System, a: Action)
    requires OneWatcher(s) && OwnMove(a) && Moved(s, s', a)
    requires Upcoming(g, s', s'.threads[a.tid]) == Upcoming(g, s, s.threads[a.tid]) || s'.threads[a.tid].pc.Ended?
    ensures ViewsCalm(g, s, s')
  {
    assert s.watched == Some(a.tid);
  }

  lemma UpcomingAside(g: Config, s: System, a: Action)
    requires Enabled(g, s, a) && (a.CheckTop? || a.Poll? || a.EndReply? || a.Emit? || a.Save?)
    ensures var s' := Act(g, s, a); Upcoming(g, s', s'.threads[a.tid]) == Upcoming(g, s, s.threads[a.tid])
  {
  }

  lemma UpcomingStore(g: Config, s: System, a: Action)
    requires Stores(g, s) && Enabled(g, s, a) && (a.Write? || a.Record?)
    ensures var s' := Act(g, s, a); Upcoming(g, s', s'.threads[a.tid]) == Upcoming(g, s, s.threads[a.tid])
  {
    var pc := s.threads[a.tid].pc;
    assert StoringOk(g, s, pc);
    assert pc.data[..|pc.data|] == pc.data;
  }

  lemma ViewsCalmEnd(g: Config, s: System, a: Action)
    requires Enabled(g, s, a) && (a.Die? || a.Clean?)
    ensures Act(g, s, a).threads[a.tid].pc.Ended?
  {
  }

  lemma ViewsCalmOwn(g: Config, s: System, a: Action)
    requires OneWatcher(s) && Stores(g, s) && Enabled(g, s, a) && OwnMove(a)
    ensures ViewsCalm(g, s, Act(g, s, a))
  {
    MovedStep(g, s, a);
    if a.Write? || a.Record? {
      UpcomingStore(g, s, a);
    } else if a.Die? || a.Clean? {
      ViewsCalmEnd(g, s, a);
    } else {
      UpcomingAside(g, s, a);
    }
    ViewsCalmMoved(g, s, Act(g, s, a), a);
  }

  lemma ViewsCalmOutside(g: Config, s: System, s': System)
    requires Outside(s, s')
    ensures ViewsCalm(g, s, s')
  {
  }

  lemma ViewsCalmMain(g: Config, s: System, a: Action)
    requires Enabled(g, s, a) && (a.Prune? || a.Restart?)
    ensures ViewsCalm(g, s, Act(g, s, a))
  {
  }

  lemma ProjectsCalm(g: Config, s: System, s': System)
    requires Projects(g, s) && ViewsCalm(g, s, s')
    ensures Projects(g, s')
  {
    forall u <- s'.threads ensures ProjectsOf(g, s', s'.threads[u]) {
      if u in s.threads {
        assert ProjectsOf(g, s, s.threads[u]);
      }
    }
  }

  lemma ProjectsHandle(g: Config, s: System, s': System, tid: nat, grant: Grant)
    requires OneWatcher(s) && Projects(g, s) && Handled(g, s, s', tid, grant) && HandledView(g, s, s', tid, grant)
    ensures Projects(g, s')
  {
    var th, ev := s.threads[tid], NextEvent(s, s.threads[tid], grant);
    assert ProjectsOf(g, s, th);
    ApplyAppend(g.c, g.path, th.start, th.handled, [ev]);
    assert [ev][1..] == [];
    assert ApplyAll(g.c, g.path, Seen(s, th), [ev]) == Apply(g.c, g.path, Seen(s, th), ev);
    forall u <- s'.threads ensures ProjectsOf(g, s', s'.threads[u]) {
      assert u != tid ==> s.threads[u].pc.Ended?;
    }
  }

  lemma ProjectsAnnounce(g: Config, s: System, tid: nat)
    requires OneWatcher(s) && Projects(g, s) && Enabled(g, s, Announce(tid))
    ensures Projects(g, Act(g, s, Announce(tid)))
  {
    var s' := Act(g, s, Announce(tid));
    forall u <- s'.threads ensures ProjectsOf(g, s', s'.threads[u]) {
      assert u != tid ==> s.threads[u].pc.Ended?;
    }
  }

  lemma ProjectsStep(g: Config, s: System, a: Action)
    requires OneWatcher(s) && Stores(g, s) && Projects(g, s) && Enabled(g, s, a)
    ensures Projects(g, Act(g, s, a))
  {
    if a.HandleNext? {
      HandleStep(g, s, a.tid, a.grant);
      HandleViewStep(g, s, a.tid, a.grant);
      ProjectsHandle(g, s, Act(g, s, a), a.tid, a.grant);
    } else if a.Announce? {
      ProjectsAnnounce(g, s, a.tid);
    } else {
      if OwnMove(a) {
        ViewsCalmOwn(g, s, a);
      } else if OutsideMove(a) {
        OutsideStep(g, s, a);
        ViewsCalmOutside(g, s, Act(g, s, a));
      } else {
        ViewsCalmMain(g, s, a);
      }
      ProjectsCalm(g, s, Act(g, s, a));
    }
  }

  // ------------------------------------------------------------- how a thread lives

  /** Every live thread's history and reply are as they were, and it is at the head of its
      loop or past its check only if it was. */
  ghost predicate LivesCalm(s: System, s': System) {
    forall u <- s'.threads ::
      var th' := s'.threads[u];
      !th'.pc.Ended? ==>
        && u in s.threads && !s.threads[u].pc.Ended?
        && var th := s.threads[u];
        && th' == th.(pc := th'.pc)
        && ((th'.pc.Top? || th'.pc.Cleaning? || th'.pc.Reading?) ==> th.pc == th'.pc)
        && ((th.pc.Top? || th.pc.Cleaning?) ==> th'.pc == th.pc)
  }

  lemma LivesStays(g: Config, s: System, s': System)
    requires Lives(g, s) && LivesCalm(s, s')
    ensures Lives(g, s')
  {
    forall u <- s'.threads ensures LifeOf(g, s'.threads[u]) {
      if u in s.threads {
        assert LifeOf(g, s.threads[u]);
      }
    }
  }

  lemma LivesCalmOwn(g: Config, s: System, a: Action)
    requires OneWatcher(s) && Enabled(g, s, a)
    requires a.Emit? || a.Save? || a.Write? || a.Record? || a.Die? || a.Clean?
    ensures LivesCalm(s, Act(g, s, a))
  {
    MovedStep(g, s, a);
    PlaceAfter(g, s, a);
  }

  lemma PlaceAfter(g: Config, s: System, a: Action)
    requires Enabled(g, s, a) && (a.Emit? || a.Save? || a.Write? || a.Record? || a.Die? || a.Clean?)
    ensures var pc, pc' := s.threads[a.tid].pc, Act(g, s, a).threads[a.tid].pc;
            pc'.Ended? || (!pc.Top? && !pc.Cleaning? && !pc'.Top? && !pc'.Cleaning? && !pc'.Reading?)
  {
  }

  lemma LivesCalmMain(g: Config, s: System, a: Action)
    requires Enabled(g, s, a) && (a.Prune? || a.Restart?)
    ensures LivesCalm(s, Act(g, s, a))
  {
  }

  /** One thread's step that does change its place or its reply. */
  lemma LivesOne(g: Config, s: System, s': System, tid: nat)
    requires Lives(g, s) && tid in s'.threads && s'.threads == s.threads[tid := s'.threads[tid]]
    requires LifeOf(g, s'.threads[tid])
    ensures Lives(g, s')
  {
    forall u <- s'.threads ensures LifeOf(g, s'.threads[u]) {
      assert u != tid ==> LifeOf(g, s.threads[u]);
    }
  }

  lemma LivesTop(g: Config, s: System, a: Action)
    requires Projects(g, s) && Lives(g, s) && Enabled(g, s, a) && a.CheckTop?
    ensures Lives(g, Act(g, s, a))
  {
    var th := s.threads[a.tid];
    assert ProjectsOf(g, s, th) && LifeOf(g, th);
    assert Flat(th.lives) + [] == Flat(th.lives);
    LivesOne(g, s, Act(g, s, a), a.tid);
  }

  lemma LivesPoll(g: Config, s: System, a: Action)
    requires Lives(g, s) && Enabled(g, s, a) && a.Poll?
    ensures Lives(g, Act(g, s, a))
  {
    assert LifeOf(g, s.threads[a.tid]);
    LivesOne(g, s, Act(g, s, a), a.tid);
  }

  lemma LivesEnd(g: Config, s: System, a: Action)
    requires Lives(g, s) && Enabled(g, s, a) && a.EndReply?
    ensures Lives(g, Act(g, s, a))
  {
    var th := s.threads[a.tid];
    assert LifeOf(g, th);
    FlatSnoc(th.lives, th.current);
    LifeSnoc(g.c, g.path, th.start, th.lives, th.current);
    assert Flat(th.lives + [th.current]) + [] == Flat(th.lives + [th.current]);
    LivesOne(g, s, Act(g, s, a), a.tid);
  }

  lemma LivesAnnounce(g: Config, s: System, a: Action)
    requires Lives(g, s) && Enabled(g, s, a) && a.Announce?
    ensures Lives(g, Act(g, s, a))
  {
    assert Flat([]) + [] == [];
    LivesOne(g, s, Act(g, s, a), a.tid);
  }

  /** The next message comes of the first stream in key order that has one left. */
  lemma InOrderNext(current: seq<Event>, todo: Counts, ev: Event)
    requires InOrder(current, todo) && NextKind(todo) == Some(ev.kind)
    ensures InOrder(current + [ev], todo.With(ev.kind, todo.At(ev.kind) - 1))
  {
    var more := current + [ev];
    forall i, j | 0 <= i < j < |more| ensures Rank(more[i].kind) <= Rank(more[j].kind) {
      assert more[i] == current[i] && current[i] in current;
    }
  }

  lemma LivesHandle(g: Config, s: System, s': System, tid: nat, grant: Grant)
    requires Lives(g, s) && Handled(g, s, s', tid, grant)
    ensures Lives(g, s')
  {
    var th, ev := s.threads[tid], NextEvent(s, s.threads[tid], grant);
    assert LifeOf(g, th);
    InOrderNext(th.current, th.todo, ev);
    assert Flat(th.lives) + (th.current + [ev]) == (Flat(th.lives) + th.current) + [ev];
    LivesOne(g, s, s', tid);
  }

  lemma LivesElse(g: Config, s: System, a: Action)
    requires OneWatcher(s) && Lives(g, s) && Enabled(g, s, a)
    requires !a.HandleNext? && !a.Announce? && !a.CheckTop? && !a.Poll? && !a.EndReply?
    ensures Lives(g, Act(g, s, a))
  {
    if OwnMove(a) {
      LivesCalmOwn(g, s, a);
    } else if OutsideMove(a) {
      OutsideStep(g, s, a);
    } else {
      LivesCalmMain(g, s, a);
    }
    LivesStays(g, s, Act(g, s, a));
  }

  lemma LivesStep(g: Config, s: System, a: Action)
    requires OneWatcher(s) && Projects(g, s) && Lives(g, s) && Enabled(g, s, a)
    ensures Lives(g, Act(g, s, a))
  {
    if a.HandleNext? {
      HandleStep(g, s, a.tid, a.grant);
      LivesHandle(g, s, Act(g, s, a), a.tid, a.grant);
    } else if a.Announce? {
      LivesAnnounce(g, s, a);
    } else if a.CheckTop? {
      LivesTop(g, s, a);
    } else if a.Poll? {
      LivesPoll(g, s, a);
    } else if a.EndReply? {
      LivesEnd(g, s, a);
    } else {
      LivesElse(g, s, a);
    }
  }

  // ------------------------------------------------------------------------ logs

  /** No thread touches its log cursor or its rows, and a new one starts at the floor. */
  ghost predicate LogsCalm(s: System, s': System) {
    && s.log <= s'.log && s.floor.log <= s'.floor.log <= |s'.log|
    && forall u <- s'.threads ::
         var th' := s'.threads[u];
         if u in s.threads then
           var th := s.threads[u];
           && th'.at.log == th.at.log && th'.base == th.base && th'.logs == th.logs
           && (!th'.pc.Ended? ==> !th.pc.Ended? && s'.floor.log == s.floor.log)
         else th'.at.log == 0 && th'.base == s'.floor.log && th'.logs == []
  }

  lemma LogsCalmMain(g: Config, s: System, a: Action)
    requires s.floor.log <= |s.log| && Enabled(g, s, a) && (a.Announce? || a.Restart? || a.Prune?)
    ensures LogsCalm(s, Act(g, s, a))
  {
  }

  lemma LogsCalmMoved(s: System, s': System, a: Action)
    requires OneWatcher(s) && s.floor.log <= |s.log| && OwnMove(a) && Moved(s, s', a)
    ensures LogsCalm(s, s')
  {
  }

  lemma LogsCalmOutside(s: System, s': System)
    requires s.floor.log <= |s.log| && Outside(s, s')
    ensures LogsCalm(s, s')
  {
  }

  lemma LogsOfLater(s: System, s': System, u: nat)
    requires Logs(s) && LogsCalm(s, s') && u in s'.threads
    ensures LogsOf(s', s'.threads[u])
  {
    if u in s.threads {
      var th := s.threads[u];
      assert LogsOf(s, th);
      var n := Later(th.at.log, th.base);
      assert s'.log[th.base..n] == s.log[th.base..n];
    } else {
      assert s'.log[s'.floor.log..s'.floor.log] == [];
    }
  }

  lemma LogsStep(g: Config, s: System, a: Action)
    requires OneWatcher(s) && Logs(s) && Enabled(g, s, a)
    ensures Logs(Act(g, s, a))
  {
    var s' := Act(g, s, a);
    if a.HandleNext? {
      HandleStep(g, s, a.tid, a.grant);
      LogsHandle(g, s, s', a.tid, a.grant);
    } else {
      if OwnMove(a) {
        MovedStep(g, s, a);
        LogsCalmMoved(s, s', a);
      } else if OutsideMove(a) {
        OutsideStep(g, s, a);
        LogsCalmOutside(s, s');
      } else {
        LogsCalmMain(g, s, a);
      }
      forall u <- s'.threads ensures LogsOf(s', s'.threads[u]) {
        LogsOfLater(s, s', u);
      }
    }
  }

  lemma LogLineHandled(s: System, th: Thread, th': Thread)
    requires LogsOf(s, th) && th.base == s.floor.log
    requires NextKind(th.todo) == Some(Kind.Log) && HandledLog(s, th, th') && th'.base == th.base
    ensures LogsOf(s, th')
  {
    var p := Pos(s, th, Kind.Log);
    assert p == Later(th.at.log, th.base);
    assert s.log[th.base..p + 1] == s.log[th.base..p] + [s.log[p]];
    LogLinesSnoc(s.log[th.base..p], s.log[p]);
  }

  lemma LogsHandle(g: Config, s: System, s': System, tid: nat, grant: Grant)
    requires OneWatcher(s) && Logs(s) && Handled(g, s, s', tid, grant)
    ensures Logs(s')
  {
    var th, th' := s.threads[tid], s'.threads[tid];
    assert LogsOf(s, th);
    if NextKind(th.todo) == Some(Kind.Log) {
      LogLineHandled(s, th, th');
    }
    assert LogsOf(s, th');
    forall u <- s'.threads ensures LogsOf(s', s'.threads[u]) {
      if u != tid {
        assert LogsOf(s, s.threads[u]);
      }
    }
  }

  // --------------------------------------------------------------------- workers

  /** Steps that leave the events stream, its deletion point and the senders alone. */
  lemma WorkersCalm(g: Config, s: System, s': System)
    requires WorkersOk(g, s)
    requires s'.events == s.events && s'.floor == s.floor && s'.sent == s.sent && s'.workers == s.workers
    requires forall tid <- s'.threads :: s'.threads[tid].pc.Sending? ==>
      tid in s.threads && s.threads[tid].pc.Sending? && s.threads[tid].pc.transfer == s'.threads[tid].pc.transfer
    ensures WorkersOk(g, s')
  {
    forall w <- s'.workers ensures WorkerOk(g, s', s'.workers[w]) {
      assert WorkerOk(g, s, s.workers[w]);
    }
  }

  /** One more entry on the stream, by the sender or by someone who sends no data. */
  lemma WorkersGrow(g: Config, s: System, s': System, m: Message)
    requires WorkersOk(g, s)
    requires s'.events == s.events + [m] && s'.floor == s.floor && s'.sent == s.sent
    requires forall t :: Carries(t, m) ==> t in s.sent && Of(t, s.events) != Script(g.c, t, s.sent[t])
    requires forall t :: Carries(t, m) ==> exists tid :: tid in s.threads && s.threads[tid].pc.Sending? && s.threads[tid].pc.transfer == t
    requires forall tid <- s'.threads :: s'.threads[tid].pc.Sending? ==>
      tid in s.threads && s.threads[tid].pc.Sending? && s.threads[tid].pc.transfer == s'.threads[tid].pc.transfer
    ensures forall w <- s.workers :: WorkerOk(g, s', s.workers[w])
  {
    forall w <- s.workers ensures WorkerOk(g, s', s.workers[w]) {
      var v := s.workers[w];
      assert WorkerOk(g, s, v);
      match v.phase
      case Ready =>
      case Hearing(st) =>
        assert s'.events[..v.cursor] == s.events[..v.cursor];
        if st.Active? && Orphan(s, st.transfer) {
          OfSnoc(st.transfer, s.events, m);
          assert s'.events[..s.floor.events] == s.events[..s.floor.events];
          assert Orphan(s', st.transfer);
        }
      case Done(got, t) =>
        if got.Some? {
          OfSnoc(t, s.events, m);
        }
    }
  }

  lemma WorkersClean(g: Config, s: System, tid: nat)
    requires OneWatcher(s) && Sends(g, s) && WorkersOk(g, s) && Enabled(g, s, Clean(tid))
    ensures WorkersOk(g, Act(g, s, Clean(tid)))
  {
    var s' := Act(g, s, Clean(tid));
    assert s'.events[..|s'.events|] == s'.events;
    forall w <- s'.workers ensures WorkerOk(g, s', s'.workers[w]) {
      assert WorkerOk(g, s, s.workers[w]);
      match s.workers[w].phase
      case Hearing(st) =>
        if st.Active? {
          assert st.transfer in s.sent;
          assert Orphan(s', st.transfer);
        }
      case _ =>
    }
  }

  lemma WorkersHandle(g: Config, s: System, s': System, tid: nat, grant: Grant)
    requires WorkersOk(g, s) && Handled(g, s, s', tid, grant)
    ensures WorkersOk(g, s')
  {
    forall w <- s'.workers ensures WorkerOk(g, s', s'.workers[w]) {
      var v := s.workers[w];
      assert WorkerOk(g, s, v);
      match v.phase
      case Hearing(st) =>
        if st.Active? && Orphan(s, st.transfer) {
          assert Orphan(s', st.transfer);
        }
      case _ =>
    }
  }

  /** A worker on track reads the next entry. */
  lemma HearOnTrack(g: Config, s: System, v: Invocation, p: nat)
    requires g.c.Lossless() && Honest(g.c, s.sent, s.events)
    requires WorkerOk(g, s, v) && v.phase.Hearing? && s.floor.events <= p < |s.events|
    requires Tracks(g.c, s.sent, s.events[..p], v.phase.st)
    ensures WorkerOk(g, s, HearEntry(g, s, v, p))
  {
    var st, m := v.phase.st, s.events[p];
    assert s.events[..p + 1] == s.events[..p] + [m];
    HonestPrefix(g.c, s.sent, s.events, p + 1);
    TrackStep(g.c, s.sent, s.events[..p], st, m);
    if Closing(st, m) {
      OfPrefix(st.transfer, s.events, p + 1);
      assert Of(st.transfer, s.events) <= Script(g.c, st.transfer, s.sent[st.transfer]);
    }
  }

  /** A worker whose transfer was deleted under it reads the next entry. */
  lemma HearOrphaned(g: Config, s: System, v: Invocation, p: nat)
    requires Honest(g.c, s.sent, s.events)
    requires WorkerOk(g, s, v) && v.phase.Hearing? && s.floor.events <= p < |s.events|
    requires v.phase.st.Active? && Orphan(s, v.phase.st.transfer)
    ensures WorkerOk(g, s, HearEntry(g, s, v, p))
  {
    var st, m := v.phase.st, s.events[p];
    OrphanUnheard(s, st.transfer, p);
    if m.DataStart? {
      assert s.events[..p + 1] == s.events[..p] + [m];
      HonestPrefix(g.c, s.sent, s.events, p + 1);
      TrackStart(g.c, s.sent, s.events[..p], st, m);
    } else {
      assert React(g.c, st, m) == Continue(st);
    }
  }

  lemma HearStep(g: Config, s: System, w: nat)
    requires g.c.Lossless()
    requires Sends(g, s) && WorkersOk(g, s) && Enabled(g, s, Hear(w))
    ensures WorkersOk(g, Act(g, s, Hear(w)))
  {
    var v := s.workers[w];
    var p := Later(v.cursor, s.floor.events);
    assert WorkerOk(g, s, v);
    if v.phase.st.Active? && Orphan(s, v.phase.st.transfer) {
      HearOrphaned(g, s, v, p);
    } else {
      HearOnTrack(g, s, v, p);
    }
    WorkerElsewhere(g, s, Act(g, s, Hear(w)), HearEntry(g, s, v, p));
    WorkerAlone(g, s, Act(g, s, Hear(w)), w);
  }

  /** A worker's standing does not depend on the other workers. */
  lemma WorkerElsewhere(g: Config, s: System, s': System, v: Invocation)
    requires WorkerOk(g, s, v) && s' == s.(workers := s'.workers)
    ensures WorkerOk(g, s', v)
  {
    match v.phase
    case Hearing(st) =>
      if st.Active? && Orphan(s, st.transfer) {
        assert Orphan(s', st.transfer);
      }
    case _ =>
  }

  /** Past the deletion point nothing of an orphaned transfer is ever read. */
  lemma OrphanUnheard(s: System, t: Id, p: nat)
    requires Orphan(s, t) && s.floor.events <= p < |s.events|
    ensures !Carries(t, s.events[p])
  {
    var below, from := s.events[..s.floor.events], s.events[s.floor.events..p];
    assert s.events == (below + from) + [s.events[p]] + s.events[p + 1..];
    OfAppend(t, (below + from) + [s.events[p]], s.events[p + 1..]);
    OfSnoc(t, below + from, s.events[p]);
    OfAppend(t, below, from);
    assert |Of(t, s.events)| == |Of(t, below)|;
  }

  lemma EmitStep(g: Config, s: System, tid: nat)
    requires Sends(g, s) && WorkersOk(g, s) && Enabled(g, s, Emit(tid))
    ensures WorkersOk(g, Act(g, s, Emit(tid)))
  {
    var pc := s.threads[tid].pc;
    assert SendsOf(g, s, pc);
    var script := Script(g.c, pc.transfer, s.sent[pc.transfer]);
    ScriptShape(g.c, pc.transfer, s.sent[pc.transfer], pc.next);
    WorkersGrow(g, s, Act(g, s, Emit(tid)), script[pc.next]);
  }

  lemma AskStep(g: Config, s: System, a: Action)
    requires WorkersOk(g, s) && a.Ask? && Enabled(g, s, a)
    ensures WorkersOk(g, Act(g, s, a))
  {
    var s' := Act(g, s, a);
    WorkersGrow(g, s, s', DataRequest(a.tenant, a.delegate, a.file));
    assert WorkerOk(g, s, s.workers[a.w]);
    assert WorkerOk(g, s', s'.workers[a.w]);
  }

  /** Steps of a worker that leave everything else alone. */
  lemma WorkerAlone(g: Config, s: System, s': System, w: nat)
    requires WorkersOk(g, s) && s' == s.(workers := s'.workers)
    requires w in s'.workers && s'.workers == s.workers[w := s'.workers[w]]
    requires WorkerOk(g, s', s'.workers[w])
    ensures WorkersOk(g, s')
  {
    forall u <- s'.workers ensures WorkerOk(g, s', s'.workers[u]) {
      if u != w {
        WorkerElsewhere(g, s, s', s.workers[u]);
      }
    }
  }

  /** A worker's own steps. */
  lemma WorkersOwn(g: Config, s: System, a: Action)
    requires g.c.Lossless()
    requires Sends(g, s) && WorkersOk(g, s) && Enabled(g, s, a)
    requires a.Ask? || a.Hear? || a.Invoke? || a.TimeOut? || a.GiveUp?
    ensures WorkersOk(g, Act(g, s, a))
  {
    if a.Ask? {
      AskStep(g, s, a);
    } else if a.Hear? {
      HearStep(g, s, a.w);
    } else {
      assert !a.Invoke? ==> WorkerOk(g, s, s.workers[a.w]);
      WorkerAlone(g, s, Act(g, s, a), a.w);
    }
  }

  lemma WorkersElse(g: Config, s: System, a: Action)
    requires WorkersOk(g, s) && Enabled(g, s, a)
    requires (OwnMove(a) && !a.Emit? && !a.Clean?) || a.Append? || a.Announce? || a.Prune? || a.Restart?
    ensures WorkersOk(g, Act(g, s, a))
  {
    if OwnMove(a) {
      MovedStep(g, s, a);
    } else if a.Append? {
      AppendOutside(g, s, a);
    } else {
      CalmMain(g, s, a);
    }
    WorkersCalm(g, s, Act(g, s, a));
  }

  lemma WorkersStep(g: Config, s: System, a: Action)
    requires g.c.Lossless()
    requires OneWatcher(s) && Sends(g, s) && WorkersOk(g, s) && Enabled(g, s, a)
    ensures WorkersOk(g, Act(g, s, a))
  {
    if a.Emit? {
      EmitStep(g, s, a.tid);
    } else if a.Clean? {
      WorkersClean(g, s, a.tid);
    } else if a.HandleNext? {
      HandleStep(g, s, a.tid, a.grant);
      WorkersHandle(g, s, Act(g, s, a), a.tid, a.grant);
    } else if a.Ask? || a.Hear? || a.Invoke? || a.TimeOut? || a.GiveUp? {
      WorkersOwn(g, s, a);
    } else {
      WorkersElse(g, s, a);
    }
  }

  // ------------------------------------------------------------------ every step

  lemma InvStep(g: Config, s: System, a: Action)
    requires g.c.Lossless() && Inv(g, s) && Enabled(g, s, a)
    ensures Inv(g, Act(g, s, a))
  {
    OneWatcherStep(g, s, a);
    SendsStep(g, s, a);
    CountsStep(g, s, a);
    WorkersStep(g, s, a);
    StoresStep(g, s, a);
    LogsStep(g, s, a);
    ProjectsStep(g, s, a);
    LivesStep(g, s, a);
  }

  lemma {:induction false} InvRun(g: Config, s: System, run: seq<Action>, s': System)
    requires g.c.Lossless() && Inv(g, s) && Runs(g, s, run, s')
    ensures Inv(g, s')
    decreases |run|
  {
    if run != [] {
      InvStep(g, s, run[0]);
      InvRun(g, Act(g, s, run[0]), run[1..], s');
    }
  }

  lemma InitInv(g: Config, s: System)
    requires Init(s)
    ensures Inv(g, s)
  {
  }

  lemma ReachableInv(g: Config, s: System)
    requires g.c.Lossless() && Reachable(g, s)
    ensures Inv(g, s)
  {
    var s0, run :| Init(s0) && Runs(g, s0, run, s);
    InitInv(g, s0);
    InvRun(g, s0, run, s);
  }
}
