/** The gateway's connection table as asyncio runs it: each step below is what one
    coroutine does between two awaits, so any interleaving of connections is some order
    of these steps (control_plane/delegates/management/commands/restart_gateway.py). */
module RestartGateway {
  import opened Protocol

  type Socket = nat

  datatype Stage =
    | Listening                                            // awaiting the next message
    | LookingUp(claimed: string, found: Option<bool>)      // awaiting the lookup, which may have run already
    | Rejecting                                            // awaiting websocket.close
    | Finished

  /** `cn` is the TLS-verified certificate CN; `delegate` the local `delegate_id`. */
  datatype Handler = Handler(cn: Option<string>, delegate: Option<string>, stage: Stage)

  /** `connected` is CONNECTED. */
  datatype Table = Table(connected: map<string, Socket>, handlers: map<Socket, Handler>)

  const EMPTY := Table(map[], map[])

  datatype Event =
    | Open(s: Socket, cn: Option<string>)
    | Hello(s: Socket, claimed: string)
    | Query(s: Socket, active: bool)    // the lookup runs, in a thread of its own
    | Resume(s: Socket)                 // and its answer reaches the handler
    | Teardown(s: Socket)
    | Disconnect(delegate: string)

  predicate Possible(t: Table, ev: Event) {
    match ev
    case Open(s, _) => s !in t.handlers
    case Hello(s, _) => s in t.handlers && t.handlers[s].stage.Listening?
    case Query(s, _) => s in t.handlers && t.handlers[s].stage.LookingUp? && t.handlers[s].stage.found.None?
    case Resume(s) => s in t.handlers && t.handlers[s].stage.LookingUp? && t.handlers[s].stage.found.Some?
    case Teardown(s) => s in t.handlers && !t.handlers[s].stage.Finished?
    case Disconnect(_) => true
  }

  predicate Claims(h: Handler, claimed: string) {
    h.cn.Some? && h.cn.value != "" && claimed == h.cn.value
  }

  function Next(t: Table, ev: Event): Table
    requires Possible(t, ev)
  {
    match ev
    case Open(s, cn) => t.(handlers := t.handlers[s := Handler(cn, None, Listening)])
    case Hello(s, claimed) => At(t, s, if Claims(t.handlers[s], claimed) then LookingUp(claimed, None) else Rejecting)
    case Query(s, active) => At(t, s, LookingUp(t.handlers[s].stage.claimed, Some(active)))
    case Resume(s) =>
      var h := t.handlers[s];
      var d := h.stage.claimed;
      if h.stage.found.value then
        Table(t.connected[d := s], t.handlers[s := h.(delegate := Some(d), stage := Listening)])
      else At(t, s, Rejecting)
    case Teardown(s) =>
      var d := t.handlers[s].delegate;
      var t' := At(t, s, Finished);
      if d.Some? && d.value in t.connected && t.connected[d.value] == s then t'.(connected := t.connected - {d.value})
      else t'
    case Disconnect(d) => t.(connected := t.connected - {d})
  }

  function At(t: Table, s: Socket, stage: Stage): Table
    requires s in t.handlers
  {
    t.(handlers := t.handlers[s := t.handlers[s].(stage := stage)])
  }

  /** `s` is a live connection that proved to be `d`'s. */
  ghost predicate Registered(t: Table, d: string, s: Socket) {
    s in t.handlers && t.handlers[s].cn == Some(d) && t.handlers[s].delegate == Some(d) && !t.handlers[s].stage.Finished?
  }

  ghost predicate HandlerOk(h: Handler) {
    && (h.delegate.Some? ==> h.delegate == h.cn)
    && (h.stage.LookingUp? ==> h.cn == Some(h.stage.claimed))
  }

  /** Every table entry is a live connection whose certificate is that delegate's. */
  ghost predicate Sound(t: Table) {
    && (forall d <- t.connected :: Registered(t, d, t.connected[d]))
    && forall s <- t.handlers :: HandlerOk(t.handlers[s])
  }

  lemma SoundNext(t: Table, ev: Event)
    requires Sound(t) && Possible(t, ev)
    ensures Sound(Next(t, ev))
  {
    var t' := Next(t, ev);
    forall d <- t'.connected ensures Registered(t', d, t'.connected[d]) {
      assert d in t.connected ==> Registered(t, d, t.connected[d]);
      assert ev.Resume? ==> HandlerOk(t.handlers[ev.s]);
    }
    forall s <- t'.handlers ensures HandlerOk(t'.handlers[s]) {
      assert s in t.handlers ==> HandlerOk(t.handlers[s]);
    }
  }

  /** A handler's end removes its own entry and never a newer connection's; nothing but
      that and a disconnect removes any. */
  lemma OnlyOwnEntryGoes(t: Table, ev: Event, d: string)
    requires Sound(t) && Possible(t, ev) && d in t.connected
    ensures d !in Next(t, ev).connected <==> ev == Disconnect(d) || ev == Teardown(t.connected[d])
    ensures d in Next(t, ev).connected && Next(t, ev).connected[d] != t.connected[d] ==>
      ev.Resume? && t.handlers[ev.s].cn == Some(d)
  {
    assert Registered(t, d, t.connected[d]);
    assert ev.Teardown? ==> HandlerOk(t.handlers[ev.s]);
    assert ev.Resume? ==> HandlerOk(t.handlers[ev.s]);
  }

  class Gateway {
    var connected: map<string, Socket>
    var handlers: map<Socket, Handler>

    ghost function State(): Table reads this {
      Table(connected, handlers)
    }

    constructor ()
      ensures State() == EMPTY && Sound(State())
    {
      connected, handlers := map[], map[];
    }

    method OpenSocket(s: Socket, cn: Option<string>)
      requires Sound(State()) && s !in handlers
      modifies this
      ensures Sound(State()) && State() == Next(old(State()), Open(s, cn))
    {
      SoundNext(State(), Open(s, cn));
      handlers := handlers[s := Handler(cn, None, Listening)];
    }

    /** A HELLO arrives: refused at once unless it claims the certificate's own id. */
    method HandleHello(s: Socket, claimed: string)
      requires Sound(State()) && s in handlers && handlers[s].stage.Listening?
      modifies this`handlers
      ensures Sound(State()) && State() == Next(old(State()), Hello(s, claimed))
      ensures handlers[s].stage.LookingUp? <==> claimed != "" && handlers[s].cn == Some(claimed)
    {
      SoundNext(State(), Hello(s, claimed));
      var h := handlers[s];
      if h.cn.None? || h.cn.value == "" || claimed != h.cn.value {
        handlers := handlers[s := h.(stage := Rejecting)];
      } else {
        handlers := handlers[s := h.(stage := LookingUp(claimed, None))];
      }
    }

    /** The lookup runs: `active` is whether it finds an ACTIVE delegate row. */
    method LookUp(s: Socket, active: bool)
      requires Sound(State()) && s in handlers && handlers[s].stage.LookingUp? && handlers[s].stage.found.None?
      modifies this`handlers
      ensures Sound(State()) && State() == Next(old(State()), Query(s, active))
    {
      SoundNext(State(), Query(s, active));
      var h := handlers[s];
      handlers := handlers[s := h.(stage := LookingUp(h.stage.claimed, Some(active)))];
    }

    /** Its answer arrives. */
    method Admit(s: Socket)
      requires Sound(State()) && s in handlers && handlers[s].stage.LookingUp? && handlers[s].stage.found.Some?
      modifies this
      ensures Sound(State()) && State() == Next(old(State()), Resume(s))
      ensures old(handlers)[s].stage.found.value ==> Registered(State(), old(handlers)[s].stage.claimed, s)
    {
      SoundNext(State(), Resume(s));
      var h := handlers[s];
      if !h.stage.found.value {
        handlers := handlers[s := h.(stage := Rejecting)];
        return;
      }
      handlers := handlers[s := h.(delegate := Some(h.stage.claimed), stage := Listening)];
      connected := connected[h.stage.claimed := s];
    }

    /** The handler ends -- peer gone, socket closed, rejected, or an exception -- and its
        `finally` runs. Only its own entry goes; a newer connection's stays. */
    method EndHandler(s: Socket)
      requires Sound(State()) && s in handlers && !handlers[s].stage.Finished?
      modifies this
      ensures Sound(State()) && State() == Next(old(State()), Teardown(s))
      ensures connected.Keys == set d | d in old(connected) && old(connected)[d] != s
      ensures forall d <- connected :: connected[d] == old(connected)[d]
    {
      SoundNext(State(), Teardown(s));
      assert forall d <- connected :: Registered(State(), d, connected[d]);
      var h := handlers[s];
      if h.delegate.Some? && h.delegate.value in connected && connected[h.delegate.value] == s {
        connected := connected - {h.delegate.value};
      }
      handlers := handlers[s := h.(stage := Finished)];
    }

    /** Revocation: the entry is popped before the socket is closed. */
    method DisconnectDelegate(d: string) returns (closing: Option<Socket>)
      requires Sound(State())
      modifies this`connected
      ensures Sound(State()) && State() == Next(old(State()), Disconnect(d))
      ensures closing == if d in old(connected) then Some(old(connected)[d]) else None
      ensures closing.Some? ==> Registered(State(), d, closing.value)
    {
      SoundNext(State(), Disconnect(d));
      if d !in connected {
        return None;
      }
      closing := Some(connected[d]);
      connected := connected - {d};
    }

    /** A restart is pushed to the socket in the table, which is the delegate's own. */
    method SendRestart(d: string) returns (to: Option<Socket>)
      requires Sound(State())
      ensures to.Some? <==> d in connected
      ensures to.Some? ==> Registered(State(), d, to.value)
    {
      to := if d in connected then Some(connected[d]) else None;
    }
  }

  // ------------------------------------------------------------------ revocation

  /** The gateway beside the delegate table: the ACTIVE delegates, and every id ever
      issued; ids are fresh, and none becomes ACTIVE again. */
  datatype World = World(table: Table, active: set<string>, issued: set<string>)

  datatype Move = Register(delegate: string) | Revoke(delegate: string) | Step(ev: Event)

  predicate Allowed(w: World, mv: Move) {
    match mv
    case Register(d) => d !in w.issued
    case Revoke(d) => d in w.active
    case Step(ev) => Possible(w.table, ev) && (ev.Query? ==> ev.active == (w.table.handlers[ev.s].stage.claimed in w.active))
  }

  function Moved(w: World, mv: Move): World
    requires Allowed(w, mv)
  {
    match mv
    case Register(d) => w.(active := w.active + {d}, issued := w.issued + {d})
    case Revoke(d) => w.(active := w.active - {d})
    case Step(ev) => w.(table := Next(w.table, ev))
  }

  ghost predicate Leads(w: World, run: seq<Move>, w': World)
    decreases |run|
  {
    if run == [] then w' == w
    else Allowed(w, run[0]) && Leads(Moved(w, run[0]), run[1..], w')
  }

  /** A handler that has refused its peer, or has ended. */
  ghost predicate Refusing(t: Table, s: Socket) {
    s in t.handlers && (t.handlers[s].stage.Rejecting? || t.handlers[s].stage.Finished?)
  }

  /** A HELLO whose claim is not the certificate's CN, or is empty, and a lookup that found
      no ACTIVE delegate, are refusals. */
  lemma RefusesExactly(t: Table, ev: Event)
    requires Sound(t) && Possible(t, ev)
    ensures ev.Hello? ==>
      (Refusing(Next(t, ev), ev.s) <==> ev.claimed == "" || t.handlers[ev.s].cn != Some(ev.claimed))
    ensures ev.Resume? ==> (Refusing(Next(t, ev), ev.s) <==> t.handlers[ev.s].stage.found == Some(false))
  {
  }

  lemma RefusingStays(w: World, mv: Move, s: Socket)
    requires Refusing(w.table, s) && Allowed(w, mv)
    ensures Refusing(Moved(w, mv).table, s)
    ensures forall d :: d in Moved(w, mv).table.connected && Moved(w, mv).table.connected[d] == s ==>
              d in w.table.connected && w.table.connected[d] == s
  {
  }

  /** And a refusal is for good: whatever follows, no HELLO on that connection is looked up
      again, and it enters the table under no name. */
  lemma {:induction false} RefusedForGood(w: World, run: seq<Move>, w': World, s: Socket)
    requires Refusing(w.table, s) && Leads(w, run, w')
    ensures Refusing(w'.table, s) && !w'.table.handlers[s].stage.LookingUp?
    ensures forall d :: d in w'.table.connected && w'.table.connected[d] == s ==>
              d in w.table.connected && w.table.connected[d] == s
    decreases |run|
  {
    if run != [] {
      RefusingStays(w, run[0], s);
      RefusedForGood(Moved(w, run[0]), run[1..], w', s);
    }
  }

  /** A handler that asked while `d` was still ACTIVE and has not yet heard back. */
  ghost predicate InFlight(t: Table, d: string, s: Socket) {
    s in t.handlers && t.handlers[s].stage == LookingUp(d, Some(true))
  }

  predicate Connected(w: World, d: string) {
    d in w.table.connected
  }

  ghost predicate ShutOut(w: World, d: string) {
    d in w.issued && d !in w.active && d !in w.table.connected && forall s :: !InFlight(w.table, d, s)
  }

  lemma ShutOutStep(w: World, mv: Move, d: string)
    requires ShutOut(w, d) && Allowed(w, mv)
    ensures ShutOut(Moved(w, mv), d)
  {
    var w' := Moved(w, mv);
    assert mv.Step? && mv.ev.Resume? ==> !InFlight(w.table, d, mv.ev.s);
    forall s ensures !InFlight(w'.table, d, s) {
      assert !InFlight(w.table, d, s);
    }
  }

  lemma {:induction false} ShutOutRun(w: World, run: seq<Move>, w': World, d: string)
    requires ShutOut(w, d) && Leads(w, run, w')
    ensures ShutOut(w', d)
    decreases |run|
  {
    if run != [] {
      ShutOutStep(w, run[0], d);
      ShutOutRun(Moved(w, run[0]), run[1..], w', d);
    }
  }

  /** Does a revoked delegate keep, or get back, its channel? Once it is revoked and
      disconnected, some run lets it in again exactly if at that moment a handler of its
      was between a lookup that had found it ACTIVE and the answer. */
  lemma RevokedComesBack(w: World, d: string)
    requires d in w.issued && d !in w.active && d !in w.table.connected
    ensures (exists run, w' :: Leads(w, run, w') && Connected(w', d)) <==> exists s :: InFlight(w.table, d, s)
  {
    if s :| InFlight(w.table, d, s) {
      LetIn(w, d, s);
    } else if run, w' :| Leads(w, run, w') && Connected(w', d) {
      ShutOutRun(w, run, w', d);
    }
  }

  lemma LetIn(w: World, d: string, s: Socket)
    requires InFlight(w.table, d, s)
    ensures exists run, w' :: Leads(w, run, w') && Connected(w', d)
  {
    var back := Step(Resume(s));
    var w' := Moved(w, back);
    LeadsFirst(w, back, [], w');
    assert Leads(w, [back] + [], w') && Connected(w', d);
  }

  /** And it does happen: the disconnect finds nothing, and then the handler registers. */
  lemma RevokedSlipsIn(d: string) returns (before: seq<Move>, w: World, w': World)
    requires d != ""
    ensures Leads(World(EMPTY, {}, {}), before, w) && before != [] && before[|before| - 1] == Step(Disconnect(d))
    ensures d !in w.active && Leads(w, [Step(Resume(0))], w')
    ensures d !in w'.active && w'.table.connected == map[d := 0]
  {
    var m0, m1, m2, m3, m4, m5 := Register(d), Step(Open(0, Some(d))), Step(Hello(0, d)), Step(Query(0, true)),
                                  Revoke(d), Step(Disconnect(d));
    var w0 := World(EMPTY, {}, {});
    var w1 := Moved(w0, m0);
    var w2 := Moved(w1, m1);
    var w3 := Moved(w2, m2);
    var w4 := Moved(w3, m3);
    var w5 := Moved(w4, m4);
    w := Moved(w5, m5);
    w' := Moved(w, Step(Resume(0)));
    LeadsFirst(w5, m5, [], w);
    LeadsFirst(w4, m4, [m5], w);
    LeadsFirst(w3, m3, [m4, m5], w);
    LeadsFirst(w2, m2, [m3, m4, m5], w);
    LeadsFirst(w1, m1, [m2, m3, m4, m5], w);
    LeadsFirst(w0, m0, [m1, m2, m3, m4, m5], w);
    before := [m0] + [m1, m2, m3, m4, m5];
    LeadsFirst(w, Step(Resume(0)), [], w');
  }

  lemma LeadsFirst(w: World, mv: Move, rest: seq<Move>, w': World)
    requires Allowed(w, mv) && Leads(Moved(w, mv), rest, w')
    ensures Leads(w, [mv] + rest, w')
  {
    assert ([mv] + rest)[1..] == rest;
  }
}
