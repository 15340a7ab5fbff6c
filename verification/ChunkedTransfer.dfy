/** ChunkSender.send_bytes and ChunkReceiver.receive_once, with their loops. */
module ChunkedTransfer {
  import opened Protocol
  import opened Receiver
  import opened Shuffle
  import opened Redis

  const POLL_COUNT: nat := 100
  const MIN_BLOCK: real := 0.1

  lemma ChunksStep(data: Bytes, size: nat, offset: nat, next: nat)
    requires size > 0 && offset < |data|
    requires next == if offset + size < |data| then offset + size else |data|
    ensures Chunks(data[offset..], size) == [data[offset..next]] + Chunks(data[next..], size)
  {
    var rest := data[offset..];
    if |rest| > size {
      assert rest[..size] == data[offset..next] && rest[size..] == data[next..];
    } else {
      assert rest == data[offset..next] && data[next..] == [];
    }
  }

  /** What the loop has published once `n` chunks are out, and the message that follows. */
  lemma TransferAt(c: Codec, transfer: Id, data: Bytes, size: nat, n: nat)
    requires size > 0 && n <= |Chunks(data, size)|
    ensures var script := Transfer(c, transfer, data, size); var chunks := Chunks(data, size);
            && |script| == |chunks| + 2
            && script[..1] == [DataStart(transfer, |data|, size, c.sha(data))]
            && script[..n + 2] == script[..n + 1] + [if n < |chunks| then DataChunk(transfer, n, c.b64(chunks[n]))
                                                    else DataEnd(transfer, n)]
            && script[..|script|] == script
  {
  }

  lemma ChunkAt(data: Bytes, size: nat, offset: nat, next: nat, n: nat)
    requires size > 0 && offset < |data| && n <= |Chunks(data, size)|
    requires next == if offset + size < |data| then offset + size else |data|
    requires Chunks(data[offset..], size) == Chunks(data, size)[n..]
    ensures n < |Chunks(data, size)| && Chunks(data, size)[n] == data[offset..next]
    ensures Chunks(data[next..], size) == Chunks(data, size)[n + 1..]
  {
    ChunksStep(data, size, offset, next);
    var rest := Chunks(data, size)[n..];
    assert rest[0] == data[offset..next] && rest[1..] == Chunks(data[next..], size);
  }

  /** The chunk at `offset`, after `seqNo` others. */
  method SendChunk(c: Codec, s: Stream, data: Bytes, chunkSize: nat, transfer: Id, seqNo: nat, offset: nat,
                   ghost e0: seq<Message>, ghost f0: seq<Message>)
      returns (next: nat)
    requires s.Valid() && chunkSize > 0 && offset < |data| && seqNo <= |Chunks(data, chunkSize)|
    requires Chunks(data[offset..], chunkSize) == Chunks(data, chunkSize)[seqNo..]
    requires Wrote(e0, f0, Transfer(c, transfer, data, chunkSize)[..seqNo + 1], s.entries, s.future)
    modifies s`entries, s`future
    ensures s.Valid() && offset < next <= |data| && seqNo < |Chunks(data, chunkSize)|
    ensures Chunks(data[next..], chunkSize) == Chunks(data, chunkSize)[seqNo + 1..]
    ensures Wrote(e0, f0, Transfer(c, transfer, data, chunkSize)[..seqNo + 2], s.entries, s.future)
  {
    next := if offset + chunkSize < |data| then offset + chunkSize else |data|;
    ChunkAt(data, chunkSize, offset, next, seqNo);
    TransferAt(c, transfer, data, chunkSize, seqNo);
    var _ := Publish(s, DataChunk(transfer, seqNo, c.b64(data[offset..next])), e0, f0,
                     Transfer(c, transfer, data, chunkSize)[..seqNo + 1]);
  }

  /** Publishes one payload. `transfer` is the fresh random id; `cut` is how many entries
      reach the stream before an XADD raises, or None if none does: one may also raise
      after its entry has got there. */
  method SendBytes(c: Codec, s: Stream, data: Bytes, chunkSize: nat, transfer: Id, cut: Option<nat>)
      returns (ok: bool, checksum: string, size: nat)
    requires s.Valid() && chunkSize > 0
    modifies s`entries, s`future
    ensures s.Valid() && checksum == c.sha(data) && size == |data|
    ensures ok <==> cut.None? || |Transfer(c, transfer, data, chunkSize)| < cut.value
    ensures Wrote(old(s.entries), old(s.future),
                  if ok then Transfer(c, transfer, data, chunkSize) else Transfer(c, transfer, data, chunkSize)[..cut.value],
                  s.entries, s.future)
  {
    ghost var e0, f0 := s.entries, s.future;
    ghost var script, n := Transfer(c, transfer, data, chunkSize), |Chunks(data, chunkSize)|;
    ok, checksum, size := false, c.sha(data), |data|;
    WroteNothing(e0, f0);
    TransferAt(c, transfer, data, chunkSize, 0);
    assert script[..0] == [];
    if cut.Some? && cut.value == 0 {
      return;
    }
    var _ := Publish(s, DataStart(transfer, size, chunkSize, checksum), e0, f0, []);
    assert [] + [DataStart(transfer, size, chunkSize, checksum)] == script[..1];

    var seqNo: nat := 0;
    var offset := 0;
    assert data[0..] == data && Chunks(data, chunkSize)[0..] == Chunks(data, chunkSize);
    while offset < size
      invariant offset <= size && seqNo <= n && !ok
      invariant cut.Some? ==> cut.value > seqNo
      invariant Chunks(data[offset..], chunkSize) == Chunks(data, chunkSize)[seqNo..]
      invariant Wrote(e0, f0, script[..seqNo + 1], s.entries, s.future)
      decreases size - offset
    {
      if cut.Some? && cut.value == seqNo + 1 {
        return;
      }
      offset := SendChunk(c, s, data, chunkSize, transfer, seqNo, offset, e0, f0);
      seqNo := seqNo + 1;
    }

    if cut.Some? && cut.value == seqNo + 1 {
      return;
    }
    TransferAt(c, transfer, data, chunkSize, seqNo);
    var _ := Publish(s, DataEnd(transfer, seqNo), e0, f0, script[..seqNo + 1]);
    ok := cut.None? || cut.value != seqNo + 2;
  }

  // ------------------------------------------------------------------ deadlines

  /** A message that moves the receiver's deadline: a start, or a chunk it commits. */
  predicate Progress(st: State, m: Message) {
    m.DataStart? || NewChunk(st, m)
  }

  function ProgressCount(c: Codec, st: State, ms: seq<Message>): nat
    decreases |ms|
  {
    if ms == [] then 0
    else
      (if Progress(st, ms[0]) then 1 else 0) +
      match React(c, st, ms[0])
      case Decide(_) => 0
      case Continue(st') => ProgressCount(c, st', ms[1..])
  }

  /** The deadline in force after reading `ms`, message i at time `at[i]`. */
  function DeadlineAfter(c: Codec, st: State, ms: seq<Message>, at: seq<real>, deadline: real, wait: real): real
    requires |at| == |ms|
    decreases |ms|
  {
    if ms == [] then deadline
    else
      var next := if Progress(st, ms[0]) then at[0] + wait else deadline;
      match React(c, st, ms[0])
      case Decide(_) => next
      case Continue(st') => DeadlineAfter(c, st', ms[1..], at[1..], next, wait)
  }

  lemma {:induction false} ProgressSnoc(c: Codec, st: State, ms: seq<Message>, at: seq<real>,
                                        m: Message, t: real, deadline: real, wait: real)
    requires |at| == |ms| && Fold(c, st, ms).Undecided?
    ensures var last := Fold(c, st, ms).st;
            && ProgressCount(c, st, ms + [m]) == ProgressCount(c, st, ms) + (if Progress(last, m) then 1 else 0)
            && DeadlineAfter(c, st, ms + [m], at + [t], deadline, wait) ==
               if Progress(last, m) then t + wait else DeadlineAfter(c, st, ms, at, deadline, wait)
    decreases |ms|
  {
    if ms == [] {
      assert ms + [m] == [m] && at + [t] == [t];
      assert [m][1..] == [];
    } else {
      assert (ms + [m])[0] == ms[0] && (ms + [m])[1..] == ms[1..] + [m];
      assert (at + [t])[0] == at[0] && (at + [t])[1..] == at[1..] + [t];
      var next := if Progress(st, ms[0]) then at[0] + wait else deadline;
      ProgressSnoc(c, React(c, st, ms[0]).st, ms[1..], at[1..], m, t, next, wait);
    }
  }

  /** Entry `k`, read from cursor `from`, is one that gives the sender more time: a start, or
      a chunk of the transfer last started that no earlier chunk since then repeats. */
  ghost predicate Renews(ms: seq<Message>, from: nat, k: nat) {
    && from <= k < |ms|
    && (ms[k].DataStart?
        || (ms[k].DataChunk? && exists s: nat ::
              && StartsRun(ms, from, s, k) && ms[s].transfer == ms[k].transfer
              && forall j: nat :: s < j < k ==> !ChunkOf(ms, j, ms[k].transfer, ms[k].seqNo)))
  }

  /** These entries and no others are progress. */
  lemma ProgressIs(c: Codec, ms: seq<Message>, from: nat, k: nat)
    requires from <= k < |ms| && Fold(c, Idle, ms[from..k]).Undecided?
    ensures Progress(Fold(c, Idle, ms[from..k]).st, ms[k]) <==> Renews(ms, from, k)
  {
    var st, m := Fold(c, Idle, ms[from..k]).st, ms[k];
    LastStart(c, ms, from, k);
    if m.DataChunk? && st.Active? {
      var s: nat :| StartsRun(ms, from, s, k) && ms[s].transfer == st.transfer;
      SeenSince(c, ms, from, s, k, m.seqNo);
      forall s': nat | StartsRun(ms, from, s', k) ensures s' == s {
        LastStartUnique(ms, from, s, s', k);
      }
    }
  }

  ghost function Renewals(ms: seq<Message>, from: nat, upto: nat): set<nat> {
    set k: nat | from <= k < upto && Renews(ms, from, k)
  }

  /** No time is given after entry `k`. */
  ghost predicate LastRenewal(ms: seq<Message>, from: nat, k: nat, upto: nat) {
    k < upto && Renews(ms, from, k) && forall j: nat :: k < j < upto ==> !Renews(ms, from, j)
  }

  lemma RenewalsSnoc(ms: seq<Message>, from: nat, n: nat)
    requires from <= n < |ms|
    ensures Renewals(ms, from, n + 1) == Renewals(ms, from, n) + (if Renews(ms, from, n) then {n} else {})
    ensures |Renewals(ms, from, n + 1)| == |Renewals(ms, from, n)| + (if Renews(ms, from, n) then 1 else 0)
  {
    assert Renewals(ms, from, n + 1) == Renewals(ms, from, n) + (if Renews(ms, from, n) then {n} else {});
  }

  lemma LastRenewalSnoc(ms: seq<Message>, from: nat, n: nat, k: nat)
    requires from <= n < |ms|
    ensures LastRenewal(ms, from, k, n + 1) <==> if Renews(ms, from, n) then k == n else LastRenewal(ms, from, k, n)
  {
    if LastRenewal(ms, from, k, n) && !Renews(ms, from, n) {
      assert forall j: nat :: k < j < n + 1 ==> !Renews(ms, from, j);
    }
  }

  lemma {:induction false} SomeRenewalIsLast(ms: seq<Message>, from: nat, upto: nat)
    requires from <= upto <= |ms|
    ensures Renewals(ms, from, upto) == {} || exists k: nat :: LastRenewal(ms, from, k, upto)
    decreases upto
  {
    if from < upto {
      var n := upto - 1;
      SomeRenewalIsLast(ms, from, n);
      RenewalsSnoc(ms, from, n);
      if Renews(ms, from, n) {
        LastRenewalSnoc(ms, from, n, n);
      } else if k: nat :| LastRenewal(ms, from, k, n) {
        LastRenewalSnoc(ms, from, n, k);
      }
    }
  }

  /** `d` is `wait` after the last renewal, or is the deadline set at the beginning. */
  ghost predicate DeadlineFrom(ms: seq<Message>, from: nat, upto: nat, at: seq<real>, deadline: real, wait: real, d: real)
    requires from <= upto && |at| == upto - from
  {
    && (Renewals(ms, from, upto) == {} ==> d == deadline)
    && forall k: nat :: LastRenewal(ms, from, k, upto) ==> d == at[k - from] + wait
  }

  lemma DeadlineSnoc(ms: seq<Message>, from: nat, n: nat, at: seq<real>, deadline: real, wait: real, d: real)
    requires from <= n < |ms| && |at| == n + 1 - from
    requires DeadlineFrom(ms, from, n, at[..n - from], deadline, wait, d)
    ensures DeadlineFrom(ms, from, n + 1, at, deadline, wait, if Renews(ms, from, n) then at[n - from] + wait else d)
  {
    var upto := n + 1;
    RenewalsSnoc(ms, from, n);
    forall k: nat | LastRenewal(ms, from, k, upto)
      ensures (if Renews(ms, from, n) then at[n - from] + wait else d) == at[k - from] + wait
    {
      LastRenewalSnoc(ms, from, n, k);
    }
  }

  /** The deadline in force is that one; and progress counts renewals. */
  lemma {:induction false} DeadlineIs(c: Codec, ms: seq<Message>, from: nat, upto: nat, at: seq<real>,
                                      deadline: real, wait: real)
    requires from <= upto <= |ms| && |at| == upto - from
    requires Fold(c, Idle, ms[from..upto]).Undecided?
    ensures DeadlineFrom(ms, from, upto, at, deadline, wait, DeadlineAfter(c, Idle, ms[from..upto], at, deadline, wait))
    ensures ProgressCount(c, Idle, ms[from..upto]) == |Renewals(ms, from, upto)|
    decreases upto
  {
    if upto == from {
      assert ms[from..upto] == [];
    } else {
      var n := upto - 1;
      var m, t := ms[n], at[n - from];
      assert ms[from..upto] == ms[from..n] + [m] && at == at[..n - from] + [t];
      if Fold(c, Idle, ms[from..n]).Decided? {
        FoldStable(c, Idle, ms[from..n], [m]);
        assert false;
      }
      DeadlineIs(c, ms, from, n, at[..n - from], deadline, wait);
      ProgressSnoc(c, Idle, ms[from..n], at[..n - from], m, t, deadline, wait);
      ProgressIs(c, ms, from, n);
      RenewalsSnoc(ms, from, n);
      DeadlineSnoc(ms, from, n, at, deadline, wait, DeadlineAfter(c, Idle, ms[from..n], at[..n - from], deadline, wait));
    }
  }

  /** Duplicates, requests and other transfers' chunks, wherever inserted, leave the
      deadline and everything the receiver holds as they were. */
  lemma {:induction false} OnlyProgressExtends(c: Codec, st: State, ms: seq<Message>, at: seq<real>,
                                               i: nat, m: Message, t: real, deadline: real, wait: real)
    requires |at| == |ms| && i <= |ms|
    requires Fold(c, st, ms[..i]).Undecided?
    requires var last := Fold(c, st, ms[..i]).st; !Progress(last, m) && !Closing(last, m)
    ensures DeadlineAfter(c, st, ms[..i] + [m] + ms[i..], at[..i] + [t] + at[i..], deadline, wait)
            == DeadlineAfter(c, st, ms, at, deadline, wait)
    ensures ProgressCount(c, st, ms[..i] + [m] + ms[i..]) == ProgressCount(c, st, ms)
    decreases i
  {
    var ms', at' := ms[..i] + [m] + ms[i..], at[..i] + [t] + at[i..];
    if i == 0 {
      assert ms'[0] == m && ms'[1..] == ms;
      assert at'[0] == t && at'[1..] == at;
    } else {
      assert ms'[0] == ms[0] && ms'[1..] == ms[1..][..i - 1] + [m] + ms[1..][i - 1..];
      assert at'[0] == at[0] && at'[1..] == at[1..][..i - 1] + [t] + at[1..][i - 1..];
      assert ms[..i][0] == ms[0] && ms[..i][1..] == ms[1..][..i - 1];
      var next := if Progress(st, ms[0]) then at[0] + wait else deadline;
      OnlyProgressExtends(c, React(c, st, ms[0]).st, ms[1..], at[1..], i - 1, m, t, next, wait);
    }
  }

  // ---------------------------------------------------------------- receive_once

  datatype Reception =
    | Received(data: Bytes, lastId: nat, transfer: Id)
    | Timeout(lastId: nat)                       // TransferFailed, with its last_id
    | Invalid(reason: Outcome, lastId: nat)      // TransferFailed, with its last_id

  /** What one call to `receive_once` from cursor `from` may return on a stream. */
  ghost predicate Explains(c: Codec, entries: seq<Message>, from: nat, r: Reception) {
    && from <= r.lastId <= |entries|
    && match r
       case Received(data, id, t) => Fold(c, Idle, entries[from..]) == Decided(id - from, Accepted(data, t))
       case Invalid(o, id) => !o.Accepted? && Fold(c, Idle, entries[from..]) == Decided(id - from, o)
       case Timeout(id) => Fold(c, Idle, entries[from..id]).Undecided?
  }

  /** `at` runs upwards from `lo` to `hi`. */
  ghost predicate Times(at: seq<real>, lo: real, hi: real)
    decreases |at|
  {
    && lo <= hi
    && (at != [] ==> at[|at| - 1] <= hi && Times(at[..|at| - 1], lo, at[|at| - 1]))
  }

  /** `n` times `each`. */
  function Budget(n: nat, each: real): real {
    if n == 0 then 0.0 else Budget(n - 1, each) + each
  }

  lemma Distribute(x: real, each: real)
    ensures (x + 1.0) * each == x * each + each
  {
  }

  lemma {:induction false} BudgetIsProduct(n: nat, each: real)
    ensures Budget(n, each) == n as real * each
  {
    if n > 0 {
      BudgetIsProduct(n - 1, each);
      Distribute((n - 1) as real, each);
      assert n as real == (n - 1) as real + 1.0;
    }
  }

  /** A timeout comes at or after the last deadline, less than 100 ms (and one late
      reply) past it, and within a bound set by the number of progress messages. */
  ghost predicate TimelyTimeout(c: Codec, read: seq<Message>, at: seq<real>,
                                start: real, end: real, wait: real, lag: real)
  {
    && |at| == |read|
    && Times(at, start, end)
    && var deadline := DeadlineAfter(c, Idle, read, at, start + wait, wait);
    && deadline <= end
    && (0.0 <= wait ==>
          && end < deadline + MIN_BLOCK + lag
          && end - start < Budget(ProgressCount(c, Idle, read) + 1, wait + MIN_BLOCK + lag))
  }

  /** The times are in order. */
  lemma {:induction false} TimesOrdered(at: seq<real>, lo: real, hi: real, i: nat, j: nat)
    requires Times(at, lo, hi) && i <= j < |at|
    ensures at[i] <= at[j] <= hi
    decreases |at|
  {
    var n := |at| - 1;
    if j < n {
      TimesOrdered(at[..n], lo, at[n], i, j);
    } else if i < n {
      TimesOrdered(at[..n], lo, at[n], i, n - 1);
    }
  }

  /** A timeout gave every sender its time: it comes no earlier than `wait` after every
      entry that renews, and after the call itself; and less than 100 ms and one late
      reply later than the last of these. */
  ghost predicate OnTime(ms: seq<Message>, from: nat, upto: nat, at: seq<real>,
                         start: real, end: real, wait: real, lag: real)
    requires from <= upto && |at| == upto - from
  {
    && (forall k: nat :: k < upto && Renews(ms, from, k) ==> at[k - from] + wait <= end)
    && (Renewals(ms, from, upto) == {} ==> start + wait <= end)
    && (0.0 <= wait ==> start + wait <= end)
    && (0.0 <= wait && Renewals(ms, from, upto) == {} ==> end < start + wait + 0.1 + lag)
    && (0.0 <= wait ==> forall k: nat :: LastRenewal(ms, from, k, upto) ==> end < at[k - from] + wait + 0.1 + lag)
  }

  lemma {:induction false} TimesAfter(at: seq<real>, lo: real, hi: real, i: nat)
    requires Times(at, lo, hi) && i < |at|
    ensures lo <= at[i]
    decreases |at|
  {
    var n := |at| - 1;
    if i < n {
      TimesAfter(at[..n], lo, at[n], i);
    }
  }

  /** `span` is under `n` times `each`. */
  predicate Within(span: real, n: nat, each: real) {
    span < n as real * each
  }

  lemma WithinProduct(n: nat, each: real, span: real)
    requires span < Budget(n, each)
    ensures Within(span, n, each)
  {
    BudgetIsProduct(n, each);
  }

  lemma TimelyIsOnTime(c: Codec, ms: seq<Message>, from: nat, upto: nat, at: seq<real>,
                       start: real, end: real, wait: real, lag: real)
    requires from <= upto <= |ms| && Fold(c, Idle, ms[from..upto]).Undecided?
    requires TimelyTimeout(c, ms[from..upto], at, start, end, wait, lag)
    ensures |at| == upto - from && OnTime(ms, from, upto, at, start, end, wait, lag)
  {
    DeadlineIs(c, ms, from, upto, at, start + wait, wait);
    SomeRenewalIsLast(ms, from, upto);
    if last: nat :| LastRenewal(ms, from, last, upto) {
      TimesAfter(at, start, end, last - from);
      forall k: nat | k < upto && Renews(ms, from, k) ensures at[k - from] + wait <= end {
        TimesOrdered(at, start, end, k - from, last - from);
      }
    } else {
      assert forall k: nat :: k < upto && Renews(ms, from, k) ==> k in Renewals(ms, from, upto);
    }
  }

  lemma TimelyIsBounded(c: Codec, ms: seq<Message>, from: nat, upto: nat, at: seq<real>,
                        start: real, end: real, wait: real, lag: real)
    requires from <= upto <= |ms| && Fold(c, Idle, ms[from..upto]).Undecided?
    requires TimelyTimeout(c, ms[from..upto], at, start, end, wait, lag) && 0.0 <= wait
    ensures Within(end - start, |Renewals(ms, from, upto)| + 1, wait + 0.1 + lag)
  {
    DeadlineIs(c, ms, from, upto, at, start + wait, wait);
    WithinProduct(|Renewals(ms, from, upto)| + 1, wait + MIN_BLOCK + lag, end - start);
  }

  /** `receive_once` in mid-flight: what it holds is the fold of what it has read,
      its deadline is the one in force, and with the progress made so far neither
      the deadline nor the clock can be further on than stated. */
  ghost predicate Reading(c: Codec, read: seq<Message>, st: State, at: seq<real>,
                          start: real, now: real, deadline: real, wait: real, lag: real)
  {
    && Fold(c, Idle, read) == Undecided(st)
    && |at| == |read| && Times(at, start, now)
    && deadline == DeadlineAfter(c, Idle, read, at, start + wait, wait)
    && 0.0 <= lag
    && (0.0 <= wait ==>
          && deadline <= start + wait + Budget(ProgressCount(c, Idle, read), wait + MIN_BLOCK + lag)
          && now < deadline + MIN_BLOCK + lag)
  }

  lemma ReadOne(c: Codec, read: seq<Message>, st: State, at: seq<real>,
                start: real, now: real, deadline: real, wait: real, lag: real, m: Message)
    requires Reading(c, read, st, at, start, now, deadline, wait, lag)
    requires React(c, st, m).Continue?
    ensures Reading(c, read + [m], React(c, st, m).st, at + [now], start, now,
                    if Progress(st, m) then now + wait else deadline, wait, lag)
  {
    FoldSnoc(c, Idle, read, m);
    ProgressSnoc(c, Idle, read, at, m, now, start + wait, wait);
    TimesSnoc(at, start, now);
  }

  lemma TimesSnoc(at: seq<real>, lo: real, now: real)
    requires Times(at, lo, now)
    ensures Times(at + [now], lo, now)
  {
    assert (at + [now])[..|at|] == at;
  }

  lemma ReadingStarts(c: Codec, start: real, wait: real, lag: real, read: seq<Message>)
    requires read == [] && 0.0 <= lag
    ensures Reading(c, read, Idle, [], start, start, start + wait, wait, lag)
  {
  }

  lemma ReadingTimesOut(c: Codec, entries: seq<Message>, last: nat, id: nat, st: State, at: seq<real>,
                        start: real, now: real, deadline: real, wait: real, lag: real)
    requires last <= id <= |entries|
    requires Reading(c, entries[last..id], st, at, start, now, deadline, wait, lag) && deadline <= now
    ensures Explains(c, entries, last, Timeout(id))
    ensures TimelyTimeout(c, entries[last..id], at, start, now, wait, lag)
  {
  }

  lemma ReadingWaits(c: Codec, read: seq<Message>, st: State, at: seq<real>,
                     start: real, now: real, now': real, deadline: real, wait: real, lag: real)
    requires Reading(c, read, st, at, start, now, deadline, wait, lag)
    requires now <= now' < deadline + MIN_BLOCK + lag
    ensures Reading(c, read, st, at, start, now', deadline, wait, lag)
  {
  }

  /** The measure of the loop: tenths of a second until the deadline. */
  function Tenths(remaining: real): int {
    (remaining * 10.0).Floor
  }

  lemma TenthsDrop(x: real, y: real)
    ensures y + MIN_BLOCK <= x ==> Tenths(y) < Tenths(x)
  {
    assert y + MIN_BLOCK <= x ==> y * 10.0 <= x * 10.0 - 1.0;
  }

  /** `block_ms`: the time remaining, but never under 100 ms. */
  function BlockMs(remaining: real): (ms: nat)
    requires remaining > 0.0
    ensures ms >= 100
    ensures ms as real / 1000.0 < remaining + MIN_BLOCK
  {
    ((if remaining > MIN_BLOCK then remaining else MIN_BLOCK) * 1000.0).Floor
  }

  /** An end of the transfer held decides, whatever follows it. */
  lemma EndConcludes(c: Codec, before: seq<Message>, m: Message, rest: seq<Message>, all: seq<Message>, st: State)
    requires all == (before + [m]) + rest
    requires Fold(c, Idle, before) == Undecided(st) && Closing(st, m)
    ensures Fold(c, Idle, all) == Decided(|before| + 1, Judge(c, st))
  {
    FoldSnoc(c, Idle, before, m);
    FoldStable(c, Idle, before + [m], rest);
  }

  lemma SplitAt(read: seq<Message>, batch: seq<Message>, i: nat)
    requires i < |batch|
    ensures read + batch == ((read + batch[..i]) + [batch[i]]) + batch[i + 1..]
  {
    assert batch == (batch[..i] + [batch[i]]) + batch[i + 1..];
  }

  lemma ThroughoutSnoc(at: seq<real>, n: nat, now: real)
    ensures at + Throughout(n + 1, now) == at + Throughout(n, now) + [now]
  {
  }

  /** The messages of one reply, in turn: `done` if one of them decides. */
  method ReadReply(c: Codec, batch: seq<Message>, now: real, wait: real, id0: nat, st0: State, deadline0: real,
                   ghost read: seq<Message>, ghost at0: seq<real>, ghost start: real, ghost lag: real)
      returns (done: Option<Reception>, id: nat, st: State, deadline: real, ghost at: seq<real>)
    requires Reading(c, read, st0, at0, start, now, deadline0, wait, lag)
    ensures done.None? ==> id == id0 + |batch|
                           && at == at0 + Throughout(|batch|, now)
                           && Reading(c, read + batch, st, at, start, now, deadline, wait, lag)
    ensures done.Some? ==> Concludes(c, read, batch, id0, done.value)
  {
    id, st, deadline, at := id0, st0, deadline0, at0;
    assert read + batch[..0] == read;
    for i := 0 to |batch|
      invariant id == id0 + i && at == at0 + Throughout(i, now)
      invariant Reading(c, read + batch[..i], st, at, start, now, deadline, wait, lag)
    {
      var m := batch[i];
      id := id + 1;
      if m.DataEnd? && st.Active? && m.transfer == st.transfer {
        SplitAt(read, batch, i);
        EndConcludes(c, read + batch[..i], m, batch[i + 1..], read + batch, st);
        if |st.buf| != st.totalSize {
          done := Some(Invalid(SizeMismatch(|st.buf|, st.totalSize), id));
        } else if c.sha(st.buf) != st.checksum {
          done := Some(Invalid(ChecksumMismatch, id));
        } else {
          done := Some(Received(st.buf, id, st.transfer));
        }
        return;
      }
      ReadOne(c, read + batch[..i], st, at, start, now, deadline, wait, lag, m);
      assert read + batch[..i + 1] == (read + batch[..i]) + [m];
      ThroughoutSnoc(at0, i, now);
      at := at + [now];
      if m.DataStart? {
        st := Active(m.transfer, m.totalSize, m.checksum, [], {});
        deadline := now + wait;
      } else if m.DataChunk? && st.Active? && m.transfer == st.transfer {
        if m.seqNo !in st.seen {
          st := st.(seen := st.seen + {m.seqNo}, buf := st.buf + c.unb64(m.body));
          deadline := now + wait;
        }
      }
    }
    assert batch[..|batch|] == batch;
    done := None;
  }

  /** The reply that follows `read` holds the deciding message, and `r` reports it. */
  ghost predicate Concludes(c: Codec, read: seq<Message>, batch: seq<Message>, id0: nat, r: Reception) {
    && id0 < r.lastId <= id0 + |batch|
    && match r
       case Received(data, id, t) => Fold(c, Idle, read + batch) == Decided(|read| + id - id0, Accepted(data, t))
       case Invalid(o, id) => !o.Accepted? && Fold(c, Idle, read + batch) == Decided(|read| + id - id0, o)
       case Timeout(_) => false
  }

  lemma ConclusionExplains(c: Codec, entries: seq<Message>, last: nat, id0: nat, n: nat, r: Reception)
    requires last <= id0 && id0 + n <= |entries|
    requires Concludes(c, entries[last..id0], entries[id0..id0 + n], id0, r)
    ensures Explains(c, entries, last, r)
  {
    assert entries[last..] == (entries[last..id0] + entries[id0..id0 + n]) + entries[id0 + n..];
    FoldStable(c, Idle, entries[last..id0] + entries[id0..id0 + n], entries[id0 + n..]);
  }

  lemma AfterPoll(c: Codec, e0: seq<Message>, f0: seq<Message>, e: seq<Message>, f: seq<Message>,
                  e': seq<Message>, f': seq<Message>, last: nat, id: nat, st: State, at: seq<real>,
                  start: real, now: real, now': real, deadline: real, wait: real, lag: real)
    requires Grown(e0, f0, e, f) && Grown(e, f, e', f')
    requires last <= id <= |e|
    requires Reading(c, e[last..id], st, at, start, now, deadline, wait, lag)
    requires now <= now' < deadline + MIN_BLOCK + lag
    ensures Grown(e0, f0, e', f') && |e'| + |f'| == |e| + |f| && id <= |e'|
    ensures Reading(c, e'[last..id], st, at, start, now', deadline, wait, lag)
  {
    GrownFurther(e0, f0, e, f, e', f');
    assert e'[last..id] == e[last..id];
    ReadingWaits(c, e[last..id], st, at, start, now, now', deadline, wait, lag);
  }

  lemma ReadMore(entries: seq<Message>, last: nat, id: nat, n: nat)
    requires last <= id && id + n <= |entries|
    ensures entries[last..id + n] == entries[last..id] + entries[id..id + n]
  {
  }

  /** One turn of the loop: wait for a reply and read it. Either the call is decided, or
      there is more behind it, or time has passed. */
  method ReceiveSome(c: Codec, s: Stream, wait: real, ghost last: nat, id0: nat, st0: State, deadline0: real,
                     ghost at0: seq<real>, ghost start: real)
      returns (done: Option<Reception>, id: nat, st: State, deadline: real, ghost at: seq<real>)
    requires s.Valid() && last <= id0 <= |s.entries| && s.now < deadline0
    requires Reading(c, s.entries[last..id0], st0, at0, start, s.now, deadline0, wait, s.lag)
    modifies s
    ensures s.Valid() && old(s.now) <= s.now
    ensures Grown(old(s.entries), old(s.future), s.entries, s.future)
    ensures done.Some? ==> !done.value.Timeout? && Explains(c, s.entries, last, done.value)
    ensures done.None? ==>
      && id0 <= id <= |s.entries| && at0 <= at && |at| - |at0| == id - id0
      && s.given == old(s.given) + Stamped(id0, at[|at0|..])
      && Reading(c, s.entries[last..id], st, at, start, s.now, deadline, wait, s.lag)
      && (id == id0 ==> deadline == deadline0 && s.now >= old(s.now) + MIN_BLOCK)
  {
    done, id, st, deadline, at := None, id0, st0, deadline0, at0;
    ghost var e, f, now := s.entries, s.future, s.now;
    var batch := s.XRead(id, POLL_COUNT, BlockMs(deadline - s.now));
    AfterPoll(c, e, f, e, f, s.entries, s.future, last, id, st, at, start, now, s.now, deadline, wait, s.lag);
    StampedSince(id0, at0, |batch|, s.now);
    if batch == [] {
      return;
    }
    done, id, st, deadline, at := ReadReply(c, batch, s.now, wait, id, st, deadline, s.entries[last..id], at, start, s.lag);
    if done.Some? {
      ConclusionExplains(c, s.entries, last, id0, |batch|, done.value);
      return;
    }
    ReadMore(s.entries, last, id0, |batch|);
  }

  lemma StampedSince(id: nat, at: seq<real>, n: nat, now: real)
    ensures var more := Throughout(n, now); (at + more)[|at|..] == more && at <= at + more
    ensures n == 0 ==> Stamped(id, Throughout(n, now)) == Stamped(id, at[|at|..]) == []
  {
  }

  /** Receives one transfer from the stream, or fails; whatever the replies XREAD
      cuts the stream into, and however the clock moves. On a timeout `at` is when
      each entry was read, as the stream itself recorded it. */
  method ReceiveOnce(c: Codec, s: Stream, wait: real, last: nat) returns (r: Reception, ghost at: seq<real>)
    requires s.Valid() && last <= |s.entries|
    modifies s
    ensures s.Valid() && old(s.now) <= s.now
    ensures Grown(old(s.entries), old(s.future), s.entries, s.future)
    ensures Explains(c, s.entries, last, r)
    ensures r.Timeout? ==>
      && s.given == old(s.given) + Stamped(last, at)
      && |at| == r.lastId - last
      && OnTime(s.entries, last, r.lastId, at, old(s.now), s.now, wait, s.lag)
      && (0.0 <= wait ==> Within(s.now - old(s.now), |Renewals(s.entries, last, r.lastId)| + 1, wait + 0.1 + s.lag))
  {
    var id := last;
    var st := Idle;                      // transfer_id, total_size, checksum, started, buf, seen_seq
    var deadline := s.now + wait;
    ghost var start, e0, f0, given0 := s.now, s.entries, s.future, s.given;
    at := [];
    ReadingStarts(c, start, wait, s.lag, s.entries[last..id]);
    assert given0 + Stamped(last, []) == given0;

    while deadline - s.now > 0.0
      invariant s.Valid() && last <= id <= |s.entries|
      invariant start <= s.now && Grown(e0, f0, s.entries, s.future)
      invariant s.given == given0 + Stamped(last, at)
      invariant Reading(c, s.entries[last..id], st, at, start, s.now, deadline, wait, s.lag)
      decreases |s.entries| + |s.future| - id, Tenths(deadline - s.now)
    {
      ghost var e, f, id0, at0, left := s.entries, s.future, id, at, deadline - s.now;
      var done;
      done, id, st, deadline, at := ReceiveSome(c, s, wait, last, id, st, deadline, at, start);
      GrownFurther(e0, f0, e, f, s.entries, s.future);
      if done.Some? {
        r := done.value;
        return;
      }
      StampedMore(last, at0, at);
      TenthsDrop(left, deadline - s.now);
    }
    ReadingTimesOut(c, s.entries, last, id, st, at, start, s.now, deadline, wait, s.lag);
    TimelyIsOnTime(c, s.entries, last, id, at, start, s.now, wait, s.lag);
    if 0.0 <= wait {
      TimelyIsBounded(c, s.entries, last, id, at, start, s.now, wait, s.lag);
    }
    r := Timeout(id);
  }

  lemma StampedMore(last: nat, at0: seq<real>, at: seq<real>)
    requires at0 <= at
    ensures Stamped(last, at) == Stamped(last, at0) + Stamped(last + |at0|, at[|at0|..])
  {
  }
}
