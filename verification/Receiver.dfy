/** What the worker-side receiver makes of a sequence of messages, one message
    at a time (ChunkReceiver.receive_once without its polling). */
module Receiver {
  import opened Protocol

  datatype State =
    | Idle
    | Active(transfer: Id, totalSize: int, checksum: string, buf: Bytes, seen: set<int>)

  datatype Outcome =
    | Accepted(data: Bytes, transfer: Id)
    | SizeMismatch(received: nat, expected: int)
    | ChecksumMismatch

  datatype Reaction = Continue(st: State) | Decide(outcome: Outcome)

  function Judge(c: Codec, st: State): Outcome
    requires st.Active?
  {
    if |st.buf| != st.totalSize then SizeMismatch(|st.buf|, st.totalSize)
    else if c.sha(st.buf) != st.checksum then ChecksumMismatch
    else Accepted(st.buf, st.transfer)
  }

  /** A chunk that `receive_once` commits: right transfer, sequence number not seen before. */
  predicate NewChunk(st: State, m: Message) {
    m.DataChunk? && st.Active? && m.transfer == st.transfer && m.seqNo !in st.seen
  }

  /** An end marker that makes `receive_once` return or raise. */
  predicate Closing(st: State, m: Message) {
    m.DataEnd? && st.Active? && m.transfer == st.transfer
  }

  function React(c: Codec, st: State, m: Message): Reaction {
    if m.DataStart? then
      Continue(Active(m.transfer, m.totalSize, m.checksum, [], {}))
    else if NewChunk(st, m) then
      Continue(st.(buf := st.buf + c.unb64(m.body), seen := st.seen + {m.seqNo}))
    else if Closing(st, m) then
      Decide(Judge(c, st))
    else
      Continue(st)
  }

  /** `at` counts the messages consumed, the deciding one included. */
  datatype Verdict = Undecided(st: State) | Decided(at: nat, outcome: Outcome)
  {
    function After(n: nat): Verdict {
      match this
      case Undecided(_) => this
      case Decided(k, o) => Decided(n + k, o)
    }
  }

  function Fold(c: Codec, st: State, ms: seq<Message>): (v: Verdict)
    ensures v.Decided? ==> 0 < v.at <= |ms|
    decreases |ms|
  {
    if ms == [] then Undecided(st)
    else
      match React(c, st, ms[0])
      case Decide(o) => Decided(1, o)
      case Continue(st') => Fold(c, st', ms[1..]).After(1)
  }

  /** Reading may be cut anywhere: the first part decides, or hands its state on. */
  lemma {:induction false} FoldAppend(c: Codec, st: State, a: seq<Message>, b: seq<Message>)
    ensures Fold(c, st, a + b) ==
            match Fold(c, st, a)
            case Decided(n, o) => Decided(n, o)
            case Undecided(st') => Fold(c, st', b).After(|a|)
    decreases |a|
  {
    if a == [] {
      assert a + b == b;
    } else {
      assert (a + b)[0] == a[0] && (a + b)[1..] == a[1..] + b;
      match React(c, st, a[0])
      case Decide(_) =>
      case Continue(st') => FoldAppend(c, st', a[1..], b);
    }
  }

  lemma FoldSnoc(c: Codec, st: State, ms: seq<Message>, m: Message)
    requires Fold(c, st, ms).Undecided?
    ensures Fold(c, st, ms + [m]) ==
            match React(c, Fold(c, st, ms).st, m)
            case Continue(st') => Undecided(st')
            case Decide(o) => Decided(|ms| + 1, o)
  {
    FoldAppend(c, st, ms, [m]);
    var st' := Fold(c, st, ms).st;
    assert [m][1..] == [];
    assert Fold(c, st', [m]) == match React(c, st', m) case Decide(o) => Decided(1, o) case Continue(s) => Undecided(s);
  }

  /** A decided prefix stays decided, at the same message, whatever follows. */
  lemma FoldStable(c: Codec, st: State, ms: seq<Message>, more: seq<Message>)
    requires Fold(c, st, ms).Decided?
    ensures Fold(c, st, ms + more) == Fold(c, st, ms)
  {
    FoldAppend(c, st, ms, more);
  }

  /** Only the messages up to the deciding one matter. */
  lemma {:induction false} FoldPrefix(c: Codec, st: State, ms: seq<Message>)
    requires Fold(c, st, ms).Decided?
    ensures var n := Fold(c, st, ms).at;
            && Fold(c, st, ms[..n]) == Fold(c, st, ms)
            && Fold(c, st, ms[..n - 1]).Undecided?
    decreases |ms|
  {
    match React(c, st, ms[0])
    case Decide(_) =>
      assert ms[..1][0] == ms[0];
      assert ms[..0] == [];
    case Continue(st') =>
      FoldPrefix(c, st', ms[1..]);
      var n := Fold(c, st, ms).at;
      assert ms[..n][1..] == ms[1..][..n - 1];
      assert ms[..n - 1][1..] == ms[1..][..n - 2];
  }

  // ------------------------------------------------- slicing into XREAD replies

  function Flatten(batches: seq<seq<Message>>): seq<Message> {
    if batches == [] then [] else batches[0] + Flatten(batches[1..])
  }

  /** The receiver's loop over replies: batch after batch until one decides. */
  function FoldBatches(c: Codec, st: State, batches: seq<seq<Message>>): Verdict
    decreases |batches|
  {
    if batches == [] then Undecided(st)
    else
      match Fold(c, st, batches[0])
      case Decided(n, o) => Decided(n, o)
      case Undecided(st') => FoldBatches(c, st', batches[1..]).After(|batches[0]|)
  }

  /** However the stream is cut into replies, the result and the deciding message are the same. */
  lemma {:induction false} BatchIndependence(c: Codec, st: State, batches: seq<seq<Message>>)
    ensures FoldBatches(c, st, batches) == Fold(c, st, Flatten(batches))
    decreases |batches|
  {
    if batches != [] {
      FoldAppend(c, st, batches[0], Flatten(batches[1..]));
      match Fold(c, st, batches[0])
      case Decided(_, _) =>
      case Undecided(st') => BatchIndependence(c, st', batches[1..]);
    }
  }

  // -------------------------------------------------- exactly when it decides

  /** Entry `e` ends a transfer whose start lies at or after `from`, with no
      other start in between. */
  ghost predicate Completes(ms: seq<Message>, from: nat, e: nat) {
    && e < |ms|
    && ms[e].DataEnd?
    && exists s: nat :: StartsRun(ms, from, s, e) && ms[s].transfer == ms[e].transfer
  }

  /** Entry `s` is the last start in `ms[from..e]`. */
  ghost predicate StartsRun(ms: seq<Message>, from: nat, s: nat, e: nat) {
    && from <= s < e <= |ms|
    && ms[s].DataStart?
    && forall k :: s < k < e ==> !ms[k].DataStart?
  }

  /** The state after `ms[from..e]` names the transfer of the last start there. */
  lemma {:induction false} LastStart(c: Codec, ms: seq<Message>, from: nat, e: nat)
    requires from <= e <= |ms|
    requires Fold(c, Idle, ms[from..e]).Undecided?
    ensures var st := Fold(c, Idle, ms[from..e]).st;
            && (st.Idle? <==> forall k :: from <= k < e ==> !ms[k].DataStart?)
            && (st.Active? ==> exists s: nat :: StartsRun(ms, from, s, e) && ms[s].transfer == st.transfer)
    decreases e
  {
    if e == from {
      assert ms[from..e] == [];
    } else {
      assert ms[from..e] == ms[from..e - 1] + [ms[e - 1]];
      if Fold(c, Idle, ms[from..e - 1]).Decided? {
        FoldStable(c, Idle, ms[from..e - 1], [ms[e - 1]]);
        assert false;
      }
      LastStart(c, ms, from, e - 1);
      FoldSnoc(c, Idle, ms[from..e - 1], ms[e - 1]);
      var before := Fold(c, Idle, ms[from..e - 1]).st;
      if ms[e - 1].DataStart? {
        assert StartsRun(ms, from, e - 1, e);
      } else if before.Active? {
        var s: nat :| StartsRun(ms, from, s, e - 1) && ms[s].transfer == before.transfer;
        assert StartsRun(ms, from, s, e);
      }
    }
  }

  /** Entry `k` is a chunk that carries `q` for transfer `t`. */
  predicate ChunkOf(ms: seq<Message>, k: nat, t: Id, q: int)
    requires k < |ms|
  {
    ms[k].DataChunk? && ms[k].transfer == t && ms[k].seqNo == q
  }

  /** What the receiver has seen after `ms[from..e]` is what chunks of the last started
      transfer carry since its start at `s`. */
  lemma {:induction false} SeenSince(c: Codec, ms: seq<Message>, from: nat, s: nat, e: nat, q: int)
    requires from <= e <= |ms|
    requires Fold(c, Idle, ms[from..e]).Undecided? && StartsRun(ms, from, s, e)
    ensures var st := Fold(c, Idle, ms[from..e]).st;
            && st.Active? && st.transfer == ms[s].transfer
            && (q in st.seen <==> exists j: nat :: s < j < e && ChunkOf(ms, j, ms[s].transfer, q))
    decreases e
  {
    var m := ms[e - 1];
    assert ms[from..e] == ms[from..e - 1] + [m];
    if Fold(c, Idle, ms[from..e - 1]).Decided? {
      FoldStable(c, Idle, ms[from..e - 1], [m]);
      assert false;
    }
    FoldSnoc(c, Idle, ms[from..e - 1], m);
    if s < e - 1 {
      assert StartsRun(ms, from, s, e - 1);
      SeenSince(c, ms, from, s, e - 1, q);
      var before := Fold(c, Idle, ms[from..e - 1]).st;
      if NewChunk(before, m) && m.seqNo == q {
        assert ChunkOf(ms, e - 1, ms[s].transfer, q);
      }
      if j: nat :| s < j < e && ChunkOf(ms, j, ms[s].transfer, q) && j == e - 1 {
        assert m.seqNo == q;
      }
    }
  }

  /** Two starts cannot both be the last one. */
  lemma LastStartUnique(ms: seq<Message>, from: nat, s: nat, s': nat, e: nat)
    requires StartsRun(ms, from, s, e) && StartsRun(ms, from, s', e)
    ensures s == s'
  {
  }

  /** `receive_once` reading from `from` decides at the first entry that completes a
      transfer begun since `from`, and not before; with none, it never decides. */
  lemma DecidesExactly(c: Codec, ms: seq<Message>, from: nat)
    requires from <= |ms|
    ensures var v := Fold(c, Idle, ms[from..]);
            && (v.Decided? ==> Completes(ms, from, from + v.at - 1)
                               && forall e: nat :: e < from + v.at - 1 ==> !Completes(ms, from, e))
            && (v.Undecided? ==> forall e: nat :: !Completes(ms, from, e))
  {
    var v := Fold(c, Idle, ms[from..]);
    if v.Decided? {
      var e := from + v.at - 1;
      FoldPrefix(c, Idle, ms[from..]);
      assert ms[from..][..v.at - 1] == ms[from..e];
      assert ms[from..][..v.at] == ms[from..e] + [ms[e]];
      FoldSnoc(c, Idle, ms[from..e], ms[e]);
      LastStart(c, ms, from, e);
      QuietBefore(c, ms, from, e);
    } else {
      assert ms[from..|ms|] == ms[from..];
      QuietBefore(c, ms, from, |ms|);
    }
  }

  lemma QuietBefore(c: Codec, ms: seq<Message>, from: nat, upto: nat)
    requires from <= upto <= |ms|
    requires Fold(c, Idle, ms[from..upto]).Undecided?
    ensures forall e: nat :: e < upto ==> !Completes(ms, from, e)
  {
    forall e: nat | e < upto ensures !Completes(ms, from, e) {
      if Completes(ms, from, e) {
        assert ms[from..upto] == ms[from..e] + ms[e..upto];
        if Fold(c, Idle, ms[from..e]).Decided? {
          FoldStable(c, Idle, ms[from..e], ms[e..upto]);
          assert false;
        }
        LastStart(c, ms, from, e);
        var st := Fold(c, Idle, ms[from..e]).st;
        var s: nat :| StartsRun(ms, from, s, e) && ms[s].transfer == ms[e].transfer;
        assert st.Active?;
        var s': nat :| StartsRun(ms, from, s', e) && ms[s'].transfer == st.transfer;
        LastStartUnique(ms, from, s, s', e);
        FoldSnoc(c, Idle, ms[from..e], ms[e]);
        assert ms[from..upto] == (ms[from..e] + [ms[e]]) + ms[e + 1..upto];
        FoldStable(c, Idle, ms[from..e] + [ms[e]], ms[e + 1..upto]);
      }
    }
  }
}
