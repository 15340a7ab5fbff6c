/** A stream that many senders share. A shuffle of honest senders is described
    by projections: what the stream holds for one transfer id is a beginning of
    what that one sender writes. */
module Shuffle {
  import opened Protocol
  import opened Receiver

  type pos = x: int | x > 0 witness 1

  /** What one `send_bytes` call was given. */
  datatype Payload = Payload(data: Bytes, size: pos)

  function Script(c: Codec, t: Id, p: Payload): seq<Message> {
    Transfer(c, t, p.data, p.size)
  }

  predicate Carries(t: Id, m: Message) {
    (m.DataStart? || m.DataChunk? || m.DataEnd?) && m.transfer == t
  }

  /** The entries of one transfer, in stream order. */
  function Of(t: Id, ms: seq<Message>): seq<Message> {
    if ms == [] then []
    else
      var n := |ms| - 1;
      if Carries(t, ms[n]) then Of(t, ms[..n]) + [ms[n]] else Of(t, ms[..n])
  }

  /** Every transfer on the stream is one sender's script, as far as it got. */
  ghost predicate Honest(c: Codec, sent: map<Id, Payload>, ms: seq<Message>) {
    forall t :: Of(t, ms) != [] ==> t in sent && Of(t, ms) <= Script(c, t, sent[t])
  }

  lemma OfSnoc(t: Id, ms: seq<Message>, m: Message)
    ensures Of(t, ms + [m]) == if Carries(t, m) then Of(t, ms) + [m] else Of(t, ms)
  {
    assert (ms + [m])[..|ms|] == ms;
  }

  lemma {:induction false} OfAppend(t: Id, a: seq<Message>, b: seq<Message>)
    ensures Of(t, a + b) == Of(t, a) + Of(t, b)
    decreases |b|
  {
    if b == [] {
      assert a + b == a;
    } else {
      var n := |b| - 1;
      OfAppend(t, a, b[..n]);
      assert a + b == (a + b[..n]) + [b[n]];
      OfSnoc(t, a + b[..n], b[n]);
    }
  }

  lemma OfPrefix(t: Id, ms: seq<Message>, k: nat)
    requires k <= |ms|
    ensures Of(t, ms[..k]) <= Of(t, ms)
  {
    OfAppend(t, ms[..k], ms[k..]);
    assert ms[..k] + ms[k..] == ms;
  }

  lemma HonestPrefix(c: Codec, sent: map<Id, Payload>, ms: seq<Message>, k: nat)
    requires Honest(c, sent, ms) && k <= |ms|
    ensures Honest(c, sent, ms[..k])
  {
    forall t | Of(t, ms[..k]) != []
      ensures t in sent && Of(t, ms[..k]) <= Script(c, t, sent[t])
    {
      OfPrefix(t, ms, k);
    }
  }

  // --------------------------------------------------------- the receiver's view

  function Below(k: int): (s: set<int>)
    ensures forall i :: i in s <==> 0 <= i < k
  {
    if k <= 0 then {} else Below(k - 1) + {k - 1}
  }

  /** After reading `read`, the receiver holds exactly what the current transfer's
      sender had written of it by then, and that transfer's end is still to come. */
  ghost predicate Tracks(c: Codec, sent: map<Id, Payload>, read: seq<Message>, st: State) {
    st.Active? ==>
      && st.transfer in sent
      && var p := sent[st.transfer];
      var chunks := Chunks(p.data, p.size);
      var n := |Of(st.transfer, read)| - 1;
      && 0 <= n <= |chunks|
      && st.totalSize == |p.data|
      && st.checksum == c.sha(p.data)
      && st.buf == Join(chunks[..n])
      && st.seen == Below(n)
  }

  lemma ScriptShape(c: Codec, t: Id, p: Payload, i: nat)
    requires i < |Script(c, t, p)|
    ensures var chunks := Chunks(p.data, p.size);
            && |Script(c, t, p)| == |chunks| + 2
            && Script(c, t, p)[i] ==
               if i == 0 then DataStart(t, |p.data|, p.size, c.sha(p.data))
               else if i <= |chunks| then DataChunk(t, i - 1, c.b64(chunks[i - 1]))
               else DataEnd(t, |chunks|)
  {
  }

  /** The next entry of an honest stream is the next entry of its sender's script. */
  lemma NextOfScript(c: Codec, sent: map<Id, Payload>, read: seq<Message>, m: Message, t: Id)
    requires Honest(c, sent, read + [m]) && Carries(t, m)
    ensures t in sent
    ensures var i := |Of(t, read)|; i < |Script(c, t, sent[t])| && m == Script(c, t, sent[t])[i]
    ensures Of(t, read + [m]) == Script(c, t, sent[t])[..|Of(t, read)| + 1]
  {
    OfSnoc(t, read, m);
    assert Of(t, read + [m]) != [];
    assert Of(t, read + [m])[|Of(t, read)|] == m;
  }

  lemma TrackStart(c: Codec, sent: map<Id, Payload>, read: seq<Message>, st: State, m: Message)
    requires Honest(c, sent, read + [m]) && m.DataStart?
    ensures Tracks(c, sent, read + [m], React(c, st, m).st)
  {
    var t := m.transfer;
    NextOfScript(c, sent, read, m, t);
    ScriptShape(c, t, sent[t], |Of(t, read)|);
    assert |Of(t, read + [m])| == 1;
    assert Chunks(sent[t].data, sent[t].size)[..0] == [];
  }

  lemma TrackChunk(c: Codec, sent: map<Id, Payload>, read: seq<Message>, st: State, m: Message)
    requires c.Lossless()
    requires Honest(c, sent, read + [m]) && Tracks(c, sent, read, st)
    requires m.DataChunk? && st.Active? && st.transfer == m.transfer
    ensures React(c, st, m).Continue? && Tracks(c, sent, read + [m], React(c, st, m).st)
  {
    var t := m.transfer;
    var n := |Of(t, read)| - 1;
    NextOfScript(c, sent, read, m, t);
    ScriptShape(c, t, sent[t], n + 1);
    JoinSnoc(Chunks(sent[t].data, sent[t].size), n);
    assert Below(n) + {n} == Below(n + 1);
  }

  lemma TrackEnd(c: Codec, sent: map<Id, Payload>, read: seq<Message>, st: State, m: Message)
    requires Honest(c, sent, read + [m]) && Tracks(c, sent, read, st)
    requires Closing(st, m)
    ensures var t := st.transfer;
            && t in sent
            && React(c, st, m) == Decide(Accepted(sent[t].data, t))
            && Of(t, read + [m]) == Script(c, t, sent[t])
  {
    var t := m.transfer;
    var n := |Of(t, read)| - 1;
    var chunks := Chunks(sent[t].data, sent[t].size);
    NextOfScript(c, sent, read, m, t);
    ScriptShape(c, t, sent[t], n + 1);
    assert chunks[..n] == chunks;
    ChunksJoin(sent[t].data, sent[t].size);
  }

  /** One message of an honest stream keeps the receiver on track, and an end
      marker it acts on is accepted with that one sender's whole payload. */
  lemma TrackStep(c: Codec, sent: map<Id, Payload>, read: seq<Message>, st: State, m: Message)
    requires c.Lossless()
    requires Honest(c, sent, read + [m])
    requires Tracks(c, sent, read, st)
    ensures match React(c, st, m)
            case Continue(st') => Tracks(c, sent, read + [m], st')
            case Decide(o) =>
              && Closing(st, m)
              && st.transfer in sent
              && o == Accepted(sent[st.transfer].data, st.transfer)
              && Of(st.transfer, read + [m]) == Script(c, st.transfer, sent[st.transfer])
  {
    if m.DataStart? {
      TrackStart(c, sent, read, st, m);
    } else if st.Active? && Carries(st.transfer, m) {
      if m.DataChunk? {
        TrackChunk(c, sent, read, st, m);
      } else {
        TrackEnd(c, sent, read, st, m);
      }
    } else if st.Active? {
      OfSnoc(st.transfer, read, m);
    }
  }

  /** `v` is what the receiver may make of `ms[from..upto]` on an honest stream. */
  ghost predicate Faithful(c: Codec, sent: map<Id, Payload>, ms: seq<Message>, from: nat, upto: nat, v: Verdict)
    requires from <= upto <= |ms|
    requires v.Decided? ==> 0 < v.at <= upto - from
  {
    match v
    case Undecided(st) => Tracks(c, sent, ms[..upto], st)
    case Decided(n, o) =>
      && ms[from + n - 1].DataEnd?
      && var t := ms[from + n - 1].transfer;
      && t in sent
      && o == Accepted(sent[t].data, t)
      && Of(t, ms[..from + n]) == Script(c, t, sent[t])
  }

  lemma FaithfulStep(c: Codec, sent: map<Id, Payload>, ms: seq<Message>, from: nat, upto: nat)
    requires c.Lossless()
    requires from < upto <= |ms| && Honest(c, sent, ms[..upto])
    requires Fold(c, Idle, ms[from..upto - 1]).Undecided?
    requires Tracks(c, sent, ms[..upto - 1], Fold(c, Idle, ms[from..upto - 1]).st)
    ensures Faithful(c, sent, ms, from, upto, Fold(c, Idle, ms[from..upto]))
  {
    var m := ms[upto - 1];
    assert ms[from..upto] == ms[from..upto - 1] + [m];
    assert ms[..upto] == ms[..upto - 1] + [m];
    FoldSnoc(c, Idle, ms[from..upto - 1], m);
    TrackStep(c, sent, ms[..upto - 1], Fold(c, Idle, ms[from..upto - 1]).st, m);
  }

  /** The last start wins, whole: on any shuffle of honest senders, read from any
      cursor, the receiver stays on track; when it decides, it accepts, and what it
      accepts is the whole payload of the one sender whose end marker it just read. */
  lemma {:induction false} LastStartWins(c: Codec, sent: map<Id, Payload>, ms: seq<Message>, from: nat, upto: nat)
    requires c.Lossless()
    requires Honest(c, sent, ms)
    requires from <= upto <= |ms|
    ensures Faithful(c, sent, ms, from, upto, Fold(c, Idle, ms[from..upto]))
    decreases upto
  {
    if upto == from {
      assert ms[from..upto] == [];
    } else {
      LastStartWins(c, sent, ms, from, upto - 1);
      if Fold(c, Idle, ms[from..upto - 1]).Decided? {
        assert ms[from..upto] == ms[from..upto - 1] + [ms[upto - 1]];
        FoldStable(c, Idle, ms[from..upto - 1], [ms[upto - 1]]);
      } else {
        HonestPrefix(c, sent, ms, upto);
        FaithfulStep(c, sent, ms, from, upto);
      }
    }
  }

  lemma {:induction false} OwnScript(c: Codec, t: Id, p: Payload, k: nat)
    requires k <= |Script(c, t, p)|
    ensures Of(t, Script(c, t, p)[..k]) == Script(c, t, p)[..k]
    decreases k
  {
    if k > 0 {
      OwnScript(c, t, p, k - 1);
      ScriptShape(c, t, p, k - 1);
      var ms := Script(c, t, p);
      assert ms[..k] == ms[..k - 1] + [ms[k - 1]];
      OfSnoc(t, ms[..k - 1], ms[k - 1]);
    }
  }

  lemma {:induction false} OthersAbsent(c: Codec, t: Id, p: Payload, u: Id, k: nat)
    requires k <= |Script(c, t, p)|
    ensures u != t ==> Of(u, Script(c, t, p)[..k]) == []
    decreases k
  {
    if k > 0 {
      OthersAbsent(c, t, p, u, k - 1);
      ScriptShape(c, t, p, k - 1);
      var ms := Script(c, t, p);
      assert ms[..k] == ms[..k - 1] + [ms[k - 1]];
      OfSnoc(u, ms[..k - 1], ms[k - 1]);
    }
  }

  // ------------------------------------------------------------------ shuffles

  /** `all` is some interleaving of `own` and `others`, each in its own order. */
  ghost predicate Woven(own: seq<Message>, others: seq<Message>, all: seq<Message>)
    decreases |all|
  {
    if all == [] then own == [] && others == []
    else
      var n := |all| - 1;
      || (own != [] && own[|own| - 1] == all[n] && Woven(own[..|own| - 1], others, all[..n]))
      || (others != [] && others[|others| - 1] == all[n] && Woven(own, others[..|others| - 1], all[..n]))
  }

  lemma WovenOwn(own: seq<Message>, others: seq<Message>, all: seq<Message>, m: Message)
    requires Woven(own, others, all)
    ensures Woven(own + [m], others, all + [m])
  {
    assert (own + [m])[..|own|] == own;
    assert (all + [m])[..|all|] == all;
  }

  lemma {:induction false} WovenOthers(own: seq<Message>, others: seq<Message>, all: seq<Message>, more: seq<Message>)
    requires Woven(own, others, all)
    ensures Woven(own, others + more, all + more)
    decreases |more|
  {
    if more == [] {
      assert others + more == others && all + more == all;
    } else {
      var n := |more| - 1;
      WovenOthers(own, others, all, more[..n]);
      assert (others + more)[..|others| + n] == others + more[..n];
      assert (all + more)[..|all| + n] == all + more[..n];
    }
  }

  /** With nobody else writing, a shuffle is just what this one wrote. */
  lemma {:induction false} WovenAlone(own: seq<Message>, all: seq<Message>)
    requires Woven(own, [], all)
    ensures all == own
    decreases |all|
  {
    if all != [] {
      WovenAlone(own[..|own| - 1], all[..|all| - 1]);
      assert own == own[..|own| - 1] + [own[|own| - 1]];
    }
  }

  /** Two shuffles one after the other are a shuffle. */
  lemma {:induction false} WovenBoth(own: seq<Message>, others: seq<Message>, all: seq<Message>,
                                     own': seq<Message>, others': seq<Message>, all': seq<Message>)
    requires Woven(own, others, all) && Woven(own', others', all')
    ensures Woven(own + own', others + others', all + all')
    decreases |all'|
  {
    if all' == [] {
      assert own + own' == own && others + others' == others && all + all' == all;
    } else {
      var n := |all'| - 1;
      assert all + all' == (all + all'[..n]) + [all'[n]];
      if own' != [] && own'[|own'| - 1] == all'[n] && Woven(own'[..|own'| - 1], others', all'[..n]) {
        WovenBoth(own, others, all, own'[..|own'| - 1], others', all'[..n]);
        assert own + own' == (own + own'[..|own'| - 1]) + [all'[n]];
        WovenOwn(own + own'[..|own'| - 1], others + others', all + all'[..n], all'[n]);
      } else {
        WovenBoth(own, others, all, own', others'[..|others'| - 1], all'[..n]);
        assert others + others' == (others + others'[..|others'| - 1]) + [all'[n]];
        WovenOthers(own + own', others + others'[..|others'| - 1], all + all'[..n], [all'[n]]);
      }
    }
  }

  /** Shuffling does not disturb a transfer that only one side carries. */
  lemma {:induction false} OfWoven(t: Id, own: seq<Message>, others: seq<Message>, all: seq<Message>)
    requires Woven(own, others, all)
    ensures Of(t, others) == [] ==> Of(t, all) == Of(t, own)
    ensures Of(t, own) == [] ==> Of(t, all) == Of(t, others)
    decreases |all|
  {
    if all != [] {
      var n := |all| - 1;
      if own != [] && own[|own| - 1] == all[n] && Woven(own[..|own| - 1], others, all[..n]) {
        OfWoven(t, own[..|own| - 1], others, all[..n]);
      } else {
        OfWoven(t, own, others[..|others| - 1], all[..n]);
      }
    }
  }

  /** One more honest sender with an id of its own, cut off anywhere, woven into an
      honest stream in any way gives an honest stream; so does any shuffle of any
      number of senders, one after another. */
  lemma ShuffleHonest(c: Codec, sent: map<Id, Payload>, others: seq<Message>,
                      t: Id, p: Payload, k: nat, all: seq<Message>)
    requires Honest(c, sent, others) && t !in sent
    requires k <= |Script(c, t, p)|
    requires Woven(Script(c, t, p)[..k], others, all)
    ensures Honest(c, sent[t := p], all)
  {
    OwnScript(c, t, p, k);
    assert Of(t, others) == [];
    forall u | Of(u, all) != []
      ensures u in sent[t := p] && Of(u, all) <= Script(c, u, sent[t := p][u])
    {
      OfWoven(u, Script(c, t, p)[..k], others, all);
      OthersAbsent(c, t, p, u, k);
    }
  }

  // ------------------------------------------- duplicates, noise, loss, reorder

  /** The chunks of `t` in `ms` that are first of their sequence number. */
  function FirstSeen(c: Codec, t: Id, seen: set<int>, ms: seq<Message>): seq<Bytes>
    decreases |ms|
  {
    if ms == [] then []
    else if ms[0].DataChunk? && ms[0].transfer == t && ms[0].seqNo !in seen then
      [c.unb64(ms[0].body)] + FirstSeen(c, t, seen + {ms[0].seqNo}, ms[1..])
    else FirstSeen(c, t, seen, ms[1..])
  }

  /** Nothing in `ms` starts a transfer or ends `t`. */
  ghost predicate Within(t: Id, ms: seq<Message>) {
    forall m <- ms :: !m.DataStart? && (m.DataEnd? ==> m.transfer != t)
  }

  lemma {:induction false} FoldWithin(c: Codec, st: State, ms: seq<Message>)
    requires st.Active? && Within(st.transfer, ms)
    ensures var v := Fold(c, st, ms);
            && v.Undecided?
            && v.st.Active?
            && v.st.(buf := st.buf, seen := st.seen) == st
            && v.st.buf == st.buf + Join(FirstSeen(c, st.transfer, st.seen, ms))
    decreases |ms|
  {
    if ms != [] {
      assert ms[0] in ms;
      assert Within(st.transfer, ms[1..]);
      var next := React(c, st, ms[0]).st;
      FoldWithin(c, next, ms[1..]);
      if NewChunk(st, ms[0]) {
        var tail := FirstSeen(c, st.transfer, st.seen + {ms[0].seqNo}, ms[1..]);
        assert ([c.unb64(ms[0].body)] + tail)[1..] == tail;
      }
    }
  }

  /** Whatever lies between a start and its end -- duplicates, requests, other
      transfers' chunks and ends, losses, reorderings -- the receiver judges the
      first-seen chunks joined in ARRIVAL order, against the start's size and hash. */
  lemma ArrivalOrder(c: Codec, st: State, start: Message, ms: seq<Message>, end: Message)
    requires start.DataStart? && end.DataEnd? && end.transfer == start.transfer
    requires Within(start.transfer, ms)
    ensures var data := Join(FirstSeen(c, start.transfer, {}, ms));
            Fold(c, st, [start] + ms + [end]) ==
            Decided(|ms| + 2,
              if |data| != start.totalSize then SizeMismatch(|data|, start.totalSize)
              else if c.sha(data) != start.checksum then ChecksumMismatch
              else Accepted(data, start.transfer))
  {
    var s0 := Active(start.transfer, start.totalSize, start.checksum, [], {});
    FoldSnoc(c, st, [], start);
    assert [] + [start] == [start];
    FoldAppend(c, st, [start], ms);
    FoldWithin(c, s0, ms);
    assert s0.buf + Join(FirstSeen(c, start.transfer, {}, ms)) == Join(FirstSeen(c, start.transfer, {}, ms));
    assert Fold(c, st, [start] + ms) == Fold(c, s0, ms);
    assert [start] + ms + [end] == ([start] + ms) + [end];
    FoldSnoc(c, st, [start] + ms, end);
  }

  /** A message that may turn up anywhere once the first `k` chunks of `t` are out:
      anything that is not of `t`, except a start, or a chunk of `t` already sent. */
  predicate Noise(t: Id, k: nat, m: Message) {
    match m
    case DataStart(_, _, _, _) => false
    case DataChunk(u, s, _) => u != t || 0 <= s < k
    case DataEnd(u, _) => u != t
    case _ => true
  }

  /** `ms` delivers the chunks of `t` from number `k` on, in order, amid noise. */
  ghost predicate Delivers(c: Codec, t: Id, chunks: seq<Bytes>, k: nat, ms: seq<Message>)
    decreases |ms|
  {
    if ms == [] then k == |chunks|
    else
      || (Noise(t, k, ms[0]) && Delivers(c, t, chunks, k, ms[1..]))
      || (k < |chunks| && ms[0] == DataChunk(t, k, c.b64(chunks[k])) && Delivers(c, t, chunks, k + 1, ms[1..]))
  }

  lemma {:induction false} DeliveredInOrder(c: Codec, t: Id, chunks: seq<Bytes>, k: nat, ms: seq<Message>)
    requires c.Lossless() && k <= |chunks|
    requires Delivers(c, t, chunks, k, ms)
    ensures Within(t, ms)
    ensures FirstSeen(c, t, Below(k), ms) == chunks[k..]
    decreases |ms|
  {
    if ms != [] {
      if Noise(t, k, ms[0]) && Delivers(c, t, chunks, k, ms[1..]) {
        DeliveredInOrder(c, t, chunks, k, ms[1..]);
      } else {
        DeliveredInOrder(c, t, chunks, k + 1, ms[1..]);
        assert Below(k) + {k} == Below(k + 1);
        assert chunks[k..] == [chunks[k]] + chunks[k + 1..];
      }
      forall m <- ms ensures !m.DataStart? && (m.DataEnd? ==> m.transfer != t) {
        assert m == ms[0] || m in ms[1..];
      }
    }
  }

  /** Duplicates of chunks already sent, requests, and other transfers' chunks and
      ends, inserted anywhere, leave the result exactly the payload. */
  lemma NoiseTolerance(c: Codec, st: State, t: Id, p: Payload, ms: seq<Message>)
    requires c.Lossless()
    requires Delivers(c, t, Chunks(p.data, p.size), 0, ms)
    ensures var script := Script(c, t, p);
            Fold(c, st, [script[0]] + ms + [script[|script| - 1]]) == Decided(|ms| + 2, Accepted(p.data, t))
  {
    var script := Script(c, t, p);
    var chunks := Chunks(p.data, p.size);
    ScriptShape(c, t, p, 0);
    ScriptShape(c, t, p, |script| - 1);
    DeliveredInOrder(c, t, chunks, 0, ms);
    assert Below(0) == {};
    assert chunks[0..] == chunks;
    ChunksJoin(p.data, p.size);
    ArrivalOrder(c, st, script[0], ms, script[|script| - 1]);
  }

  lemma {:induction false} DeliversPlain(c: Codec, t: Id, chunks: seq<Bytes>, k: nat)
    requires k <= |chunks|
    ensures Delivers(c, t, chunks, k, ChunkMessages(c, t, chunks)[k..])
    decreases |chunks| - k
  {
    if k < |chunks| {
      var ms := ChunkMessages(c, t, chunks)[k..];
      DeliversPlain(c, t, chunks, k + 1);
      assert ms[1..] == ChunkMessages(c, t, chunks)[k + 1..];
    }
  }

  /** A sender's own output, in whatever state it finds the receiver, is received as
      the payload, at its last message. */
  lemma RoundTrip(c: Codec, st: State, t: Id, p: Payload)
    requires c.Lossless()
    ensures Fold(c, st, Script(c, t, p)) == Decided(|Script(c, t, p)|, Accepted(p.data, t))
  {
    var chunks := Chunks(p.data, p.size);
    var ms := ChunkMessages(c, t, chunks);
    DeliversPlain(c, t, chunks, 0);
    assert ms[0..] == ms;
    NoiseTolerance(c, st, t, p, ms);
    assert Script(c, t, p)[0] == DataStart(t, |p.data|, p.size, c.sha(p.data));
    assert Script(c, t, p)[|Script(c, t, p)| - 1] == DataEnd(t, |chunks|);
  }

  /** Every start on the stream announces its sender's true size and hash. */
  ghost predicate TrueStarts(c: Codec, sent: map<Id, Payload>, ms: seq<Message>) {
    forall m <- ms :: m.DataStart? ==>
      m.transfer in sent
      && m.totalSize == |sent[m.transfer].data|
      && m.checksum == c.sha(sent[m.transfer].data)
  }

  ghost predicate NoCollision(c: Codec, data: Bytes) {
    forall b: Bytes :: |b| == |data| && c.sha(b) == c.sha(data) ==> b == data
  }

  /** With any losses, duplicates, forgeries and reorderings of everything but the
      starts, what is accepted is the payload itself, unless the hash collides. */
  lemma {:induction false} CorruptionNeverAccepted(c: Codec, sent: map<Id, Payload>, ms: seq<Message>, upto: nat)
    requires TrueStarts(c, sent, ms) && upto <= |ms|
    ensures match Fold(c, Idle, ms[..upto])
            case Undecided(st) => st.Active? ==>
              st.transfer in sent && st.totalSize == |sent[st.transfer].data|
              && st.checksum == c.sha(sent[st.transfer].data)
            case Decided(_, Accepted(data, t)) =>
              && t in sent
              && |data| == |sent[t].data|
              && c.sha(data) == c.sha(sent[t].data)
              && (NoCollision(c, sent[t].data) ==> data == sent[t].data)
            case Decided(_, _) => true
    decreases upto
  {
    if upto > 0 {
      assert ms[..upto] == ms[..upto - 1] + [ms[upto - 1]];
      assert ms[upto - 1] in ms;
      CorruptionNeverAccepted(c, sent, ms, upto - 1);
      if Fold(c, Idle, ms[..upto - 1]).Decided? {
        FoldStable(c, Idle, ms[..upto - 1], [ms[upto - 1]]);
      } else {
        FoldSnoc(c, Idle, ms[..upto - 1], ms[upto - 1]);
      }
    }
  }
}
