/** One Redis stream as its clients see it. Entry number i (from 0) has id i + 1;
    id 0 stands for "0". `future` is what other clients will still append, and
    every client call lets any part of it in first. The clock is that of the
    reading process; it moves only while XREAD blocks. */
module Redis {
  import opened Protocol
  import opened Shuffle

  /** Only others' writes, in order, lie between the two states of the stream. */
  ghost predicate Grown(before: seq<Message>, pending: seq<Message>, after: seq<Message>, left: seq<Message>) {
    && |left| <= |pending|
    && left == pending[|pending| - |left|..]
    && after == before + pending[..|pending| - |left|]
  }

  lemma GrownWhole(e0: seq<Message>, f0: seq<Message>, e1: seq<Message>, f1: seq<Message>)
    requires Grown(e0, f0, e1, f1)
    ensures e0 <= e1 && e1 + f1 == e0 + f0
  {
  }

  lemma GrownFurther(e0: seq<Message>, f0: seq<Message>, e1: seq<Message>, f1: seq<Message>,
                     e2: seq<Message>, f2: seq<Message>)
    requires Grown(e0, f0, e1, f1) && Grown(e1, f1, e2, f2)
    ensures Grown(e0, f0, e2, f2)
  {
    assert f0[..|f0| - |f1|] + f1[..|f1| - |f2|] == f0[..|f0| - |f2|];
  }

  /** Entry `id` was given out at `time`. */
  datatype Stamp = Stamp(id: nat, time: real)

  /** The entries from `after` on, given out at these times. */
  function Stamped(after: nat, at: seq<real>): seq<Stamp> {
    seq(|at|, i requires 0 <= i < |at| => Stamp(after + i + 1, at[i]))
  }

  function Throughout(n: nat, now: real): seq<real> {
    seq(n, _ => now)
  }

  class Stream {
    var entries: seq<Message>
    var future: seq<Message>
    var now: real
    const lag: real   // the most an XREAD reply can be late by
    var gone: bool    // the key was deleted; a later write would start a new stream
    ghost var given: seq<Stamp>   // every entry XREAD has given out, and when

    ghost predicate Valid() {
      0.0 <= lag
    }

    constructor (future: seq<Message>, now: real, lag: real)
      requires 0.0 <= lag
      ensures Valid() && entries == [] && this.future == future && this.now == now && this.lag == lag && !gone
    {
      this.entries := [];
      this.future := future;
      this.now := now;
      this.lag := lag;
      this.gone := false;
      this.given := [];
    }

    method Delete()
      modifies this`gone
      ensures gone
    {
      gone := true;
    }

    /** Some of the other clients' writes arrive. */
    method Interfere()
      modifies this`entries, this`future
      ensures Grown(old(entries), old(future), entries, future)
    {
      var k: int := *;
      if k < 0 || k > |future| {
        k := 0;
      }
      entries, future := entries + future[..k], future[k..];
    }

    method XAdd(m: Message) returns (id: nat)
      modifies this`entries, this`future
      ensures id == |entries| && id > |old(entries)|
      ensures |future| <= |old(future)|
      ensures entries == old(entries) + old(future)[..|old(future)| - |future|] + [m]
      ensures future == old(future)[|old(future)| - |future|..]
    {
      Interfere();
      entries := entries + [m];
      id := |entries|;
    }

    /** XREAD COUNT count BLOCK blockMs: some non-empty beginning of what follows
        `after`, or an empty reply once the block has run out with nothing there. */
    method XRead(after: nat, count: nat, blockMs: nat) returns (batch: seq<Message>)
      requires Valid() && after <= |entries| && count > 0
      modifies this
      ensures gone == old(gone)
      ensures Valid() && old(now) <= now <= old(now) + blockMs as real / 1000.0 + lag
      ensures Grown(old(entries), old(future), entries, future)
      ensures |batch| <= count && after + |batch| <= |entries|
      ensures batch == entries[after..after + |batch|]
      ensures batch == [] ==> after == |entries| && now >= old(now) + blockMs as real / 1000.0
      ensures given == old(given) + Stamped(after, Throughout(|batch|, now))
    {
      Interfere();
      var wait: real := *;
      var block := blockMs as real / 1000.0;
      if after == |entries| {
        batch := [];
        now := now + block + if 0.0 <= wait <= lag then wait else lag;
      } else {
        var n: int := *;
        if n <= 0 || n > count || after + n > |entries| {
          n := 1;
        }
        batch := entries[after..after + n];
        now := now + if 0.0 <= wait <= block + lag then wait else 0.0;
      }
      given := given + Stamped(after, Throughout(|batch|, now));
    }
  }

  /** Between `before` with `pending` still to come from others and `after` with
      `left` still to come, this client wrote `own`, shuffled into the others' writes. */
  ghost predicate Wrote(before: seq<Message>, pending: seq<Message>, own: seq<Message>,
                        after: seq<Message>, left: seq<Message>)
  {
    && |left| <= |pending|
    && left == pending[|pending| - |left|..]
    && before <= after
    && Woven(own, pending[..|pending| - |left|], after[|before|..])
  }

  lemma WroteNothing(before: seq<Message>, pending: seq<Message>)
    ensures Wrote(before, pending, [], before, pending)
  {
    assert before[|before|..] == [];
  }

  /** Others' writes extend the shuffle. */
  lemma WroteWait(before: seq<Message>, pending: seq<Message>, own: seq<Message>,
                  mid: seq<Message>, rest: seq<Message>, k: nat)
    requires Wrote(before, pending, own, mid, rest) && k <= |rest|
    ensures Wrote(before, pending, own, mid + rest[..k], rest[k..])
  {
    var taken := pending[..|pending| - |rest|];
    WovenOthers(own, taken, mid[|before|..], rest[..k]);
    assert taken + rest[..k] == pending[..|pending| - |rest[k..]|];
    assert (mid + rest[..k])[|before|..] == mid[|before|..] + rest[..k];
  }

  /** One XADD extends the shuffle by one entry of this client's own. */
  lemma WroteAdd(before: seq<Message>, pending: seq<Message>, own: seq<Message>,
                 mid: seq<Message>, rest: seq<Message>, k: nat, m: Message)
    requires Wrote(before, pending, own, mid, rest) && k <= |rest|
    ensures Wrote(before, pending, own + [m], mid + rest[..k] + [m], rest[k..])
  {
    WroteWait(before, pending, own, mid, rest, k);
    var mid' := mid + rest[..k];
    var rest' := rest[k..];
    WovenOwn(own, pending[..|pending| - |rest'|], mid'[|before|..], m);
    assert (mid' + [m])[|before|..] == mid'[|before|..] + [m];
  }

  /** XADD by a client that has written `own` since `before`. */
  method Publish(s: Stream, m: Message, ghost before: seq<Message>, ghost pending: seq<Message>, ghost own: seq<Message>)
      returns (id: nat)
    requires Wrote(before, pending, own, s.entries, s.future)
    modifies s`entries, s`future
    ensures id == |s.entries| && id > |old(s.entries)| && s.entries[id - 1] == m
    ensures old(s.entries) <= s.entries
    ensures Wrote(before, pending, own + [m], s.entries, s.future)
  {
    ghost var e, f := s.entries, s.future;
    id := s.XAdd(m);
    WroteAdd(before, pending, own, e, f, |f| - |s.future|, m);
  }

  lemma WroteGrown(before: seq<Message>, pending: seq<Message>, own: seq<Message>,
                   mid: seq<Message>, rest: seq<Message>, after: seq<Message>, left: seq<Message>)
    requires Wrote(before, pending, own, mid, rest) && Grown(mid, rest, after, left)
    ensures Wrote(before, pending, own, after, left) && mid <= after
  {
    WroteWait(before, pending, own, mid, rest, |rest| - |left|);
  }

  lemma WroteBoth(before: seq<Message>, pending: seq<Message>, own: seq<Message>,
                  mid: seq<Message>, rest: seq<Message>, own': seq<Message>, after: seq<Message>, left: seq<Message>)
    requires Wrote(before, pending, own, mid, rest) && Wrote(mid, rest, own', after, left)
    ensures Wrote(before, pending, own + own', after, left)
  {
    var taken, taken' := pending[..|pending| - |rest|], rest[..|rest| - |left|];
    WovenBoth(own, taken, mid[|before|..], own', taken', after[|mid|..]);
    assert taken + taken' == pending[..|pending| - |left|];
    assert mid[|before|..] + after[|mid|..] == after[|before|..];
  }
}
