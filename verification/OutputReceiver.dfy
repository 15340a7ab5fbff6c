/** The dispatcher's own, separately written receiver for output transfers
    (stream_dispatcher._handle_output_message), and why it agrees with the worker's. */
module OutputReceiver {
  import opened Protocol
  import opened Receiver

  /** The `state` dictionary; None before the first start and after every end. */
  datatype Held = Held(transfer: Id, totalSize: int, checksum: string, buf: Bytes, seen: set<int>)

  datatype Effect =
    | Nothing
    | Store(data: Bytes, checksum: string)   // written to the output path, row SUCCEEDED
    | Reject                                 // row FAILED

  datatype Turn = Turn(state: Option<Held>, effect: Effect)

  function Handle(c: Codec, state: Option<Held>, m: Message): Turn {
    if m.DataStart? then
      Turn(Some(Held(m.transfer, m.totalSize, m.checksum, [], {})), Nothing)
    else if state.None? then
      Turn(None, Nothing)
    else
      var h := state.value;
      if m.DataChunk? && m.transfer == h.transfer then
        Turn(Some(if m.seqNo in h.seen then h
                  else h.(seen := h.seen + {m.seqNo}, buf := h.buf + c.unb64(m.body))), Nothing)
      else if m.DataEnd? && m.transfer == h.transfer then
        Turn(None, if |h.buf| == h.totalSize && c.sha(h.buf) == h.checksum then Store(h.buf, h.checksum) else Reject)
      else
        Turn(state, Nothing)
  }

  /** The same partial transfer, as each of the two receivers holds it. */
  predicate Same(st: State, state: Option<Held>) {
    match st
    case Idle => state == None
    case Active(t, n, k, b, s) => state == Some(Held(t, n, k, b, s))
  }

  function EffectOf(c: Codec, o: Outcome): Effect {
    match o
    case Accepted(data, _) => Store(data, c.sha(data))
    case _ => Reject
  }

  lemma AgreeStep(c: Codec, st: State, state: Option<Held>, m: Message)
    requires Same(st, state)
    ensures var turn := Handle(c, state, m);
            match React(c, st, m)
            case Continue(st') => turn.effect == Nothing && Same(st', turn.state)
            case Decide(o) => turn.effect == EffectOf(c, o) && turn.state == None
  {
  }

  datatype Decision = Decision(at: nat, effect: Effect)

  /** Everything the dispatcher decides while reading `ms` from entry `i` on. */
  function Decisions(c: Codec, state: Option<Held>, ms: seq<Message>, i: nat): seq<Decision>
    requires i <= |ms|
    decreases |ms| - i
  {
    if i == |ms| then []
    else
      var turn := Handle(c, state, ms[i]);
      (if turn.effect == Nothing then [] else [Decision(i + 1, turn.effect)]) + Decisions(c, turn.state, ms, i + 1)
  }

  /** What calling `receive_once` over and over gives, each call from the cursor the
      last one returned; `st` is what the first call already holds. */
  function Rounds(c: Codec, st: State, ms: seq<Message>, i: nat): seq<Decision>
    requires i <= |ms|
    decreases |ms| - i
  {
    match Fold(c, st, ms[i..])
    case Undecided(_) => []
    case Decided(n, o) => [Decision(i + n, EffectOf(c, o))] + Rounds(c, Idle, ms, i + n)
  }

  /** The two receivers agree for ever: on any message sequence the dispatcher takes
      the same decisions, at the same end markers, with the same bytes. */
  lemma {:induction false} ReceiversAgree(c: Codec, st: State, state: Option<Held>, ms: seq<Message>, i: nat)
    requires i <= |ms| && Same(st, state)
    ensures Decisions(c, state, ms, i) == Rounds(c, st, ms, i)
    decreases |ms| - i
  {
    if i < |ms| {
      AgreeStep(c, st, state, ms[i]);
      var turn := Handle(c, state, ms[i]);
      assert ms[i..][0] == ms[i] && ms[i..][1..] == ms[i + 1..];
      match React(c, st, ms[i]) {
        case Continue(st') =>
          ReceiversAgree(c, st', turn.state, ms, i + 1);
        case Decide(_) =>
          ReceiversAgree(c, Idle, None, ms, i + 1);
      }
    }
  }

  /** The first decision of either is the first decision of the other. */
  lemma FirstDecisionAgrees(c: Codec, ms: seq<Message>)
    ensures var ds := Decisions(c, None, ms, 0);
            match Fold(c, Idle, ms)
            case Undecided(_) => ds == []
            case Decided(n, o) => ds != [] && ds[0] == Decision(n, EffectOf(c, o))
  {
    ReceiversAgree(c, Idle, None, ms, 0);
    assert ms[0..] == ms;
  }
}
