/** The key grammar of shared/delegate_protocol/streams.py. */
module StreamNames {

  const GLOBAL_EXECUTION_EVENTS_STREAM := "global:execution_events"

  datatype Kind = Events | Log | Status | Output

  datatype Keys = Keys(events: string, log: string, status: string, output: string)
  {
    function At(kind: Kind): string {
      match kind
      case Events => events
      case Log => log
      case Status => status
      case Output => output
    }
  }

  function DelegatePrefix(delegate: string): string {
    "delegate:" + delegate + ":"
  }

  function StreamKeys(execution: string, delegate: string): Keys {
    var base := DelegatePrefix(delegate) + "execution:" + execution;
    Keys(base + ":events", base + ":log", base + ":status", base + ":output")
  }

  predicate ColonFree(s: string) {
    ':' !in s
  }

  // --------------------------------------------------------------- parsing back

  /** The fields between colons. */
  function Split(s: string): (fields: seq<string>)
    ensures |fields| > 0
  {
    if s == "" then [""]
    else
      var rest := Split(s[1..]);
      if s[0] == ':' then [""] + rest else [[s[0]] + rest[0]] + rest[1..]
  }

  function Rejoin(fields: seq<string>): string {
    if fields == [] then ""
    else if |fields| == 1 then fields[0]
    else fields[0] + ":" + Rejoin(fields[1..])
  }

  lemma {:induction false} SplitRejoins(s: string)
    ensures Rejoin(Split(s)) == s
  {
    if s != "" {
      SplitRejoins(s[1..]);
      var rest := Split(s[1..]);
      if s[0] == ':' {
        assert ([""] + rest)[1..] == rest;
        assert s == ":" + s[1..];
      } else {
        assert ([[s[0]] + rest[0]] + rest[1..])[1..] == rest[1..];
        if |rest| > 1 {
          assert [s[0]] + (rest[0] + ":" + Rejoin(rest[1..])) == ([s[0]] + rest[0]) + ":" + Rejoin(rest[1..]);
        }
        assert s == [s[0]] + s[1..];
      }
    }
  }

  lemma {:induction false} SplitField(field: string, rest: string)
    requires ColonFree(field)
    ensures Split(field + ":" + rest) == [field] + Split(rest)
    decreases |field|
  {
    var s := field + ":" + rest;
    if field == "" {
      assert s[1..] == rest;
    } else {
      assert s[1..] == field[1..] + ":" + rest;
      SplitField(field[1..], rest);
      assert [field[0]] + field[1..] == field;
    }
  }

  lemma {:induction false} SplitLast(field: string)
    requires ColonFree(field)
    ensures Split(field) == [field]
    decreases |field|
  {
    if field != "" {
      SplitLast(field[1..]);
      assert [field[0]] + field[1..] == field;
    }
  }

  function KindName(kind: Kind): string {
    match kind
    case Events => "events"
    case Log => "log"
    case Status => "status"
    case Output => "output"
  }

  datatype Address = Nowhere | Address(delegate: string, execution: string, kind: Kind)

  /** Which delegate's execution stream a key names. */
  function Parse(key: string): Address {
    var f := Split(key);
    if |f| != 5 || f[0] != "delegate" || f[2] != "execution" then Nowhere
    else if f[4] == "events" then Address(f[1], f[3], Events)
    else if f[4] == "log" then Address(f[1], f[3], Log)
    else if f[4] == "status" then Address(f[1], f[3], Status)
    else if f[4] == "output" then Address(f[1], f[3], Output)
    else Nowhere
  }

  lemma Regroup(delegate: string, execution: string, name: string)
    ensures DelegatePrefix(delegate) + "execution:" + execution + (":" + name)
            == "delegate" + ":" + (delegate + ":" + ("execution" + ":" + (execution + ":" + name)))
  {
    var a, b := "delegate" + ":", "execution" + ":";
    assert a == "delegate:" && b == "execution:";
    assert (a + delegate + ":") + b + execution + (":" + name) == a + (delegate + ":" + (b + (execution + ":" + name)));
  }

  lemma KeyFields(execution: string, delegate: string, kind: Kind)
    ensures StreamKeys(execution, delegate).At(kind)
            == "delegate" + ":" + (delegate + ":" + ("execution" + ":" + (execution + ":" + KindName(kind))))
  {
    Regroup(delegate, execution, KindName(kind));
    match kind
    case Events => assert ":events" == ":" + "events";
    case Log => assert ":log" == ":" + "log";
    case Status => assert ":status" == ":" + "status";
    case Output => assert ":output" == ":" + "output";
  }

  /** A stream key parses back to the delegate, execution and kind it was made of. */
  lemma ParseKey(execution: string, delegate: string, kind: Kind)
    requires ColonFree(execution) && ColonFree(delegate)
    ensures Parse(StreamKeys(execution, delegate).At(kind)) == Address(delegate, execution, kind)
  {
    KeyFields(execution, delegate, kind);
    SplitFive("delegate", delegate, "execution", execution, KindName(kind));
    KindNamesDiffer();
  }

  lemma KindNamesDiffer()
    ensures KindName(Events) == "events" && KindName(Log) == "log" && KindName(Status) == "status" && KindName(Output) == "output"
    ensures forall k: Kind, k': Kind :: KindName(k) == KindName(k') ==> k == k'
  {
    assert KindName(Events)[0] == 'e' && KindName(Log)[0] == 'l' && KindName(Status)[0] == 's' && KindName(Output)[0] == 'o';
  }

  lemma SplitFive(a: string, b: string, c: string, d: string, e: string)
    requires ColonFree(a) && ColonFree(b) && ColonFree(c) && ColonFree(d) && ColonFree(e)
    ensures Split(a + ":" + (b + ":" + (c + ":" + (d + ":" + e)))) == [a, b, c, d, e]
  {
    SplitLast(e);
    SplitField(d, e);
    SplitField(c, d + ":" + e);
    SplitField(b, c + ":" + (d + ":" + e));
    SplitField(a, b + ":" + (c + ":" + (d + ":" + e)));
  }

  /** And nothing else parses: a key that names a stream is that stream's key. */
  lemma ParsedIsKey(key: string)
    requires Parse(key).Address?
    ensures var a := Parse(key); key == StreamKeys(a.execution, a.delegate).At(a.kind)
  {
    var a := Parse(key);
    var f := Split(key);
    SplitRejoins(key);
    KeyFields(a.execution, a.delegate, a.kind);
    assert f[4] == KindName(a.kind);
    assert Rejoin(f[4..]) == f[4];
    assert Rejoin(f[3..]) == f[3] + ":" + Rejoin(f[4..]) by { assert f[3..][1..] == f[4..]; }
    assert Rejoin(f[2..]) == f[2] + ":" + Rejoin(f[3..]) by { assert f[2..][1..] == f[3..]; }
    assert Rejoin(f[1..]) == f[1] + ":" + Rejoin(f[2..]) by { assert f[1..][1..] == f[2..]; }
  }

  /** Distinct (delegate, execution, kind) never share a key, and none is the global stream. */
  lemma KeysInjective(e: string, d: string, k: Kind, e': string, d': string, k': Kind)
    requires ColonFree(e) && ColonFree(d) && ColonFree(e') && ColonFree(d')
    ensures StreamKeys(e, d).At(k) == StreamKeys(e', d').At(k') <==> e == e' && d == d' && k == k'
    ensures StreamKeys(e, d).At(k) != GLOBAL_EXECUTION_EVENTS_STREAM
  {
    ParseKey(e, d, k);
    ParseKey(e', d', k');
    KeyFields(e, d, k);
    assert StreamKeys(e, d).At(k)[0] == 'd';
  }

  /** A delegate's key pattern covers the streams of exactly that delegate. */
  lemma PrefixCovers(d: string, e: string, d': string, k: Kind)
    requires ColonFree(d) && ColonFree(d')
    ensures DelegatePrefix(d) <= StreamKeys(e, d').At(k) <==> d == d'
    ensures !(DelegatePrefix(d) <= GLOBAL_EXECUTION_EVENTS_STREAM)
  {
    var key := StreamKeys(e, d').At(k);
    KeyFields(e, d', k);
    var p, p' := DelegatePrefix(d), DelegatePrefix(d');
    assert p' <= key;
    assert p[0] == 'd' && GLOBAL_EXECUTION_EVENTS_STREAM[0] == 'g';
    assert forall i :: 0 <= i < |d| ==> p[9 + i] == d[i];
    assert forall i :: 0 <= i < |d'| ==> p'[9 + i] == d'[i];
    assert p[9 + |d|] == ':' && p'[9 + |d'|] == ':';
    assert p <= key ==> forall i :: 0 <= i < |p| && i < |p'| ==> p[i] == p'[i];
    if p <= key && |d| == |d'| {
      assert forall i :: 0 <= i < |d| ==> d[i] == p[9 + i] == p'[9 + i] == d'[i];
    }
  }
}
