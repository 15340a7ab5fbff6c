/** What the steps of an execution's life can bring about: a transfer that is read without
    interruption is received, and a request that is granted is answered with one. */
module LifecycleProgress {
  import opened StreamNames
  import opened Protocol
  import opened Receiver
  import opened Shuffle
  import opened OutputReceiver
  import opened Watching
  import opened Lifecycle

  lemma {:induction false} RunsAppend(g: Config, s: System, a: seq<Action>, mid: System, b: seq<Action>, s': System)
    requires Runs(g, s, a, mid) && Runs(g, mid, b, s')
    ensures Runs(g, s, a + b, s')
    decreases |a|
  {
    if a == [] {
      assert a + b == b;
    } else {
      assert (a + b)[0] == a[0] && (a + b)[1..] == a[1..] + b;
      RunsAppend(g, Act(g, s, a[0]), a[1..], mid, b, s');
    }
  }

  lemma RunsOne(g: Config, s: System, a: Action)
    requires Enabled(g, s, a)
    ensures Runs(g, s, [a], Act(g, s, a))
  {
    assert [a][1..] == [];
    assert Runs(g, Act(g, s, a), [], Act(g, s, a));
  }

  lemma RunsFirst(g: Config, s: System, a: Action, rest: seq<Action>, s': System)
    requires Enabled(g, s, a) && Runs(g, Act(g, s, a), rest, s')
    ensures Runs(g, s, [a] + rest, s')
  {
    assert ([a] + rest)[1..] == rest;
  }

  // ---------------------------------------------------------------------- hearing

  function HearTimes(w: nat, n: nat): seq<Action> {
    if n == 0 then [] else [Hear(w)] + HearTimes(w, n - 1)
  }

  /** A worker that reads entries which bring it to accept a transfer at the last of them
      is done, with that payload. */
  lemma {:induction false} HearUntil(g: Config, s: System, w: nat, ms: seq<Message>, data: Bytes, t: Id) returns (s': System)
    requires w in s.workers && s.workers[w].phase.Hearing?
    requires var p := Later(s.workers[w].cursor, s.floor.events);
             p + |ms| <= |s.events| && s.events[p..p + |ms|] == ms
    requires Fold(g.c, s.workers[w].phase.st, ms) == Decided(|ms|, Accepted(data, t))
    ensures Runs(g, s, HearTimes(w, |ms|), s') && s' == s.(workers := s'.workers)
    ensures w in s'.workers && s'.workers[w].phase == Done(Some(data), t)
    decreases |ms|
  {
    var v := s.workers[w];
    var p := Later(v.cursor, s.floor.events);
    assert s.events[p] == ms[0];
    var s1 := Act(g, s, Hear(w));
    HearOne(g, s, w, p);
    if React(g.c, v.phase.st, ms[0]).Decide? {
      s' := s1;
      assert HearTimes(w, 1) == [Hear(w)];
      RunsOne(g, s, Hear(w));
    } else {
      assert s1.events[p + 1..p + 1 + |ms[1..]|] == ms[1..];
      s' := HearUntil(g, s1, w, ms[1..], data, t);
      RunsFirst(g, s, Hear(w), HearTimes(w, |ms| - 1), s');
    }
  }

  lemma HearOne(g: Config, s: System, w: nat, p: nat)
    requires Enabled(g, s, Hear(w)) && p == Later(s.workers[w].cursor, s.floor.events)
    ensures var s1 := Act(g, s, Hear(w));
            && s1 == s.(workers := s1.workers) && w in s1.workers
            && s1.workers[w] == HearEntry(g, s, s.workers[w], p) && s1.workers[w].cursor == p + 1
  {
  }

  /** Whatever it held before: a worker that hears one whole transfer, uninterrupted, is
      done with its payload. */
  lemma HearsWhole(g: Config, s: System, w: nat, t: Id, p: Payload) returns (s': System)
    requires g.c.Lossless() && w in s.workers && s.workers[w].phase.Hearing?
    requires var from, n := Later(s.workers[w].cursor, s.floor.events), |Script(g.c, t, p)|;
             from + n <= |s.events| && s.events[from..from + n] == Script(g.c, t, p)
    ensures Runs(g, s, HearTimes(w, |Script(g.c, t, p)|), s') && s' == s.(workers := s'.workers)
    ensures w in s'.workers && s'.workers[w].phase == Done(Some(p.data), t)
  {
    RoundTrip(g.c, s.workers[w].phase.st, t, p);
    s' := HearUntil(g, s, w, Script(g.c, t, p), p.data, t);
  }

  // --------------------------------------------------------------------- answering

  function EmitTimes(tid: nat, n: nat): seq<Action> {
    if n == 0 then [] else [Emit(tid)] + EmitTimes(tid, n - 1)
  }

  /** A watcher in the middle of an answer writes the rest of it. */
  lemma {:induction false} EmitRest(g: Config, s: System, tid: nat, t: Id, k: nat, a: nat, script: seq<Message>)
      returns (s': System)
    requires At(s, tid, Sending(t, k, a)) && t in s.sent && script == Script(g.c, t, s.sent[t]) && k < |script|
    ensures Runs(g, s, EmitTimes(tid, |script| - k), s')
    ensures s'.events == s.events + script[k..] && SameButEvents(s, s') && At(s', tid, Saving(t, a))
    decreases |script| - k
  {
    var s1 := Act(g, s, Emit(tid));
    EmitOne(g, s, tid, t, k, a, script);
    if k + 1 == |script| {
      s' := s1;
      RunsOne(g, s, Emit(tid));
      assert EmitTimes(tid, 1) == [Emit(tid)];
      assert script[k..] == [script[k]];
    } else {
      s' := EmitRest(g, s1, tid, t, k + 1, a, script);
      RunsFirst(g, s, Emit(tid), EmitTimes(tid, |script| - (k + 1)), s');
      EventsOn(s.events, script, k);
    }
  }

  lemma EventsOn(events: seq<Message>, script: seq<Message>, k: nat)
    requires k < |script|
    ensures (events + [script[k]]) + script[k + 1..] == events + script[k..]
  {
  }

  predicate SameButEvents(s: System, s': System) {
    s'.row == s.row && s'.workers == s.workers && s'.floor == s.floor && s'.sent == s.sent
  }

  lemma EmitOne(g: Config, s: System, tid: nat, t: Id, k: nat, a: nat, script: seq<Message>)
    requires At(s, tid, Sending(t, k, a)) && t in s.sent && script == Script(g.c, t, s.sent[t]) && k < |script|
    ensures Enabled(g, s, Emit(tid))
    ensures var s1 := Act(g, s, Emit(tid));
            && SameButEvents(s, s1) && s1.events == s.events + [script[k]]
            && At(s1, tid, if k + 1 == |script| then Saving(t, a) else Sending(t, k + 1, a))
  {
  }

  /** A watcher comes to a request and grants it. */
  lemma GrantOne(g: Config, s: System, tid: nat, t: Id, p: Payload)
    requires Enabled(g, s, HandleNext(tid, Send(t, p)))
    requires var ev := NextEvent(s, s.threads[tid], Send(t, p)); ev.kind == Events && ev.m.DataRequest?
    ensures var s1 := Act(g, s, HandleNext(tid, Send(t, p)));
            && At(s1, tid, Sending(t, 0, s.row.transferAttempts)) && s1.sent == s.sent[t := p]
            && s1.events == s.events && s1.workers == s.workers && s1.floor == s.floor && s1.row == s.row
  {
  }

  lemma SaveOne(g: Config, s: System, tid: nat, t: Id, a: nat)
    requires At(s, tid, Saving(t, a))
    ensures Enabled(g, s, Save(tid))
    ensures var s1 := Act(g, s, Save(tid));
            && s1.row == s.row.(status := TRANSFERRING, transferId := t, transferAttempts := a + 1)
            && s1.events == s.events && s1.workers == s.workers && s1.floor == s.floor
  {
  }

  /** Granted, written, saved. */
  lemma GrantIsWritten(g: Config, s: System, tid: nat, t: Id, p: Payload) returns (run: seq<Action>, s': System)
    requires Enabled(g, s, HandleNext(tid, Send(t, p)))
    requires var ev := NextEvent(s, s.threads[tid], Send(t, p)); ev.kind == Events && ev.m.DataRequest?
    ensures Runs(g, s, run, s')
    ensures s'.events == s.events + Script(g.c, t, p) && s'.workers == s.workers && s'.floor == s.floor
    ensures s'.row == s.row.(status := TRANSFERRING, transferId := t, transferAttempts := s.row.transferAttempts + 1)
  {
    var script := Script(g.c, t, p);
    var grant := HandleNext(tid, Send(t, p));
    var s1 := Act(g, s, grant);
    GrantOne(g, s, tid, t, p);
    var s2 := EmitRest(g, s1, tid, t, 0, s.row.transferAttempts, script);
    assert script[0..] == script;
    SaveOne(g, s2, tid, t, s.row.transferAttempts);
    s' := Act(g, s2, Save(tid));
    run := [grant] + (EmitTimes(tid, |script|) + [Save(tid)]);
    ThreeParts(g, s, grant, s1, EmitTimes(tid, |script|), s2, Save(tid));
  }

  lemma ThreeParts(g: Config, s: System, a: Action, s1: System, middle: seq<Action>, s2: System, b: Action)
    requires Enabled(g, s, a) && s1 == Act(g, s, a) && Runs(g, s1, middle, s2) && Enabled(g, s2, b)
    ensures Runs(g, s, [a] + (middle + [b]), Act(g, s2, b))
  {
    RunsOne(g, s2, b);
    RunsAppend(g, s1, middle, s2, [b], Act(g, s2, b));
    RunsFirst(g, s, a, middle + [b], Act(g, s2, b));
  }

  /** Request and answer. From any state in which a watcher has come to a DATA_REQUEST that
      is granted, and a worker is waiting at the end of the stream, the watcher's and the
      worker's own steps, undisturbed, leave the worker with the whole payload and the row
      TRANSFERRING, with that transfer and one more attempt. */
  lemma GrantIsReceived(g: Config, s: System, tid: nat, w: nat, t: Id, p: Payload) returns (run: seq<Action>, s': System)
    requires g.c.Lossless() && Enabled(g, s, HandleNext(tid, Send(t, p)))
    requires var ev := NextEvent(s, s.threads[tid], Send(t, p)); ev.kind == Events && ev.m.DataRequest?
    requires w in s.workers && s.workers[w].phase.Hearing?
    requires Later(s.workers[w].cursor, s.floor.events) == |s.events|
    ensures Runs(g, s, run, s') && w in s'.workers && s'.workers[w].phase == Done(Some(p.data), t)
    ensures s'.row == s.row.(status := TRANSFERRING, transferId := t, transferAttempts := s.row.transferAttempts + 1)
  {
    var answer, s1 := GrantIsWritten(g, s, tid, t, p);
    var n := |Script(g.c, t, p)|;
    assert s1.events[|s.events|..|s.events| + n] == Script(g.c, t, p);
    s' := HearsWhole(g, s1, w, t, p);
    run := answer + HearTimes(w, n);
    RunsAppend(g, s, answer, s1, HearTimes(w, n), s');
  }
}
