/** Redis ACL users and their reconciliation with the delegate table
    (control_plane/delegates/redis_acl.py). */
module RedisAcl {
  import opened StreamNames
  import opened Protocol

  datatype User = User(on: bool, passwords: set<string>, prefixes: set<string>, channels: set<string>,
                       writeOnly: set<string>, commands: set<string>)

  /** The ACL SETUSER rules that `_rules` uses. */
  datatype Rule =
    | Reset
    | On
    | Password(password: string)     // >password
    | KeyPrefix(prefix: string)      // ~prefix*
    | ChannelPrefix(prefix: string)  // &prefix*
    | WriteKey(key: string)          // %W~key
    | NoCommands                     // -@all
    | Allow(command: string)         // +command

  const BLANK := User(false, {}, {}, {}, {}, {})

  function ApplyRule(u: User, r: Rule): User {
    match r
    case Reset => BLANK
    case On => u.(on := true)
    case Password(p) => u.(passwords := u.passwords + {p})
    case KeyPrefix(p) => u.(prefixes := u.prefixes + {p})
    case ChannelPrefix(p) => u.(channels := u.channels + {p})
    case WriteKey(k) => u.(writeOnly := u.writeOnly + {k})
    case NoCommands => u.(commands := {})
    case Allow(c) => u.(commands := u.commands + {c})
  }

  function ApplyRules(u: User, rules: seq<Rule>): User
    decreases |rules|
  {
    if rules == [] then u else ApplyRules(ApplyRule(u, rules[0]), rules[1..])
  }

  function Allows(commands: seq<string>): seq<Rule> {
    if commands == [] then [] else [Allow(commands[0])] + Allows(commands[1..])
  }

  /** `commands` is the fixed list the source calls DELEGATE_COMMANDS. */
  function Rules(delegate: string, password: string, commands: seq<string>): seq<Rule> {
    var prefix := DelegatePrefix(delegate);
    [Reset, On, Password(password), KeyPrefix(prefix), ChannelPrefix(prefix),
     WriteKey(GLOBAL_EXECUTION_EVENTS_STREAM), NoCommands] + Allows(commands)
  }

  /** The user a delegate is meant to have. */
  function DelegateUser(delegate: string, password: string, commands: seq<string>): User {
    var prefix := DelegatePrefix(delegate);
    User(true, {password}, {prefix}, {prefix}, {GLOBAL_EXECUTION_EVENTS_STREAM}, AsSet(commands))
  }

  function AsSet(commands: seq<string>): (s: set<string>)
    ensures forall c :: c in s <==> c in commands
  {
    if commands == [] then {} else {commands[0]} + AsSet(commands[1..])
  }

  lemma {:induction false} AllowAll(u: User, commands: seq<string>)
    ensures ApplyRules(u, Allows(commands)) == u.(commands := u.commands + AsSet(commands))
    decreases |commands|
  {
    if commands == [] {
      assert u.commands + {} == u.commands;
    } else {
      var rest := commands[1..];
      assert Allows(commands)[1..] == Allows(rest);
      AllowAll(u.(commands := u.commands + {commands[0]}), rest);
      assert (u.commands + {commands[0]}) + AsSet(rest) == u.commands + AsSet(commands);
    }
  }

  lemma RuleFirst(u: User, r: Rule, rest: seq<Rule>)
    ensures ApplyRules(u, [r] + rest) == ApplyRules(ApplyRule(u, r), rest)
  {
    assert ([r] + rest)[1..] == rest;
  }

  /** SETUSER with a delegate's rules leaves that user and nothing of what was there
      before, whatever it was. */
  lemma RulesOverwrite(u: User, delegate: string, password: string, commands: seq<string>)
    ensures ApplyRules(u, Rules(delegate, password, commands)) == DelegateUser(delegate, password, commands)
  {
    var p := DelegatePrefix(delegate);
    var tail := [ChannelPrefix(p), WriteKey(GLOBAL_EXECUTION_EVENTS_STREAM), NoCommands] + Allows(commands);
    assert Rules(delegate, password, commands) == [Reset, On, Password(password), KeyPrefix(p)] + tail;
    FirstRules(u, p, password, tail);
    LastRules(User(true, {password}, {p}, {}, {}, {}), p, commands);
  }

  lemma FirstRules(u: User, p: string, password: string, tail: seq<Rule>)
    ensures ApplyRules(u, [Reset, On, Password(password), KeyPrefix(p)] + tail)
            == ApplyRules(User(true, {password}, {p}, {}, {}, {}), tail)
  {
    FourRules(u, Reset, On, Password(password), KeyPrefix(p), tail);
    assert {} + {password} == {password} && {} + {p} == {p};
  }

  lemma FourRules(u: User, r1: Rule, r2: Rule, r3: Rule, r4: Rule, tail: seq<Rule>)
    ensures ApplyRules(u, [r1, r2, r3, r4] + tail)
            == ApplyRules(ApplyRule(ApplyRule(ApplyRule(ApplyRule(u, r1), r2), r3), r4), tail)
  {
    var s3 := [r4] + tail;
    var s2 := [r3] + s3;
    var s1 := [r2] + s2;
    assert [r1, r2, r3, r4] + tail == [r1] + s1;
    var u1 := ApplyRule(u, r1);
    var u2 := ApplyRule(u1, r2);
    var u3 := ApplyRule(u2, r3);
    RuleFirst(u, r1, s1);
    RuleFirst(u1, r2, s2);
    RuleFirst(u2, r3, s3);
    RuleFirst(u3, r4, tail);
  }

  lemma LastRules(u: User, p: string, commands: seq<string>)
    requires u.channels == {} && u.writeOnly == {}
    ensures var g := GLOBAL_EXECUTION_EVENTS_STREAM;
            ApplyRules(u, [ChannelPrefix(p), WriteKey(g), NoCommands] + Allows(commands))
            == u.(channels := {p}, writeOnly := {g}, commands := AsSet(commands))
  {
    var g := GLOBAL_EXECUTION_EVENTS_STREAM;
    var r6 := Allows(commands);
    var r5 := [NoCommands] + r6;
    var r4 := [WriteKey(g)] + r5;
    assert [ChannelPrefix(p), WriteKey(g), NoCommands] + r6 == [ChannelPrefix(p)] + r4;
    assert {} + {p} == {p} && {} + {g} == {g};
    RuleFirst(u, ChannelPrefix(p), r4);
    RuleFirst(u.(channels := {p}), WriteKey(g), r5);
    RuleFirst(u.(channels := {p}, writeOnly := {g}), NoCommands, r6);
    AllowAll(u.(channels := {p}, writeOnly := {g}, commands := {}), commands);
    assert {} + AsSet(commands) == AsSet(commands);
  }

  // --------------------------------------------------------------------- access

  ghost predicate CanWrite(u: User, key: string) {
    u.on && (key in u.writeOnly || exists p :: p in u.prefixes && p <= key)
  }

  ghost predicate CanRead(u: User, key: string) {
    u.on && exists p :: p in u.prefixes && p <= key
  }

  /** A delegate's user reads and writes its own execution streams and no others', and
      may write but never read the announcements. */
  lemma DelegateAccess(d: string, password: string, commands: seq<string>, e: string, d': string, k: Kind)
    requires ColonFree(d) && ColonFree(d')
    ensures var u := DelegateUser(d, password, commands); var key := StreamKeys(e, d').At(k);
            && (CanRead(u, key) <==> d == d')
            && (CanWrite(u, key) <==> d == d')
            && CanWrite(u, GLOBAL_EXECUTION_EVENTS_STREAM) && !CanRead(u, GLOBAL_EXECUTION_EVENTS_STREAM)
            && u.on && u.passwords == {password} && u.channels == {"delegate:" + d + ":"}
            && forall cmd :: cmd in u.commands <==> cmd in commands
  {
    var u := DelegateUser(d, password, commands);
    var key := StreamKeys(e, d').At(k);
    PrefixCovers(d, e, d', k);
    KeyFields(e, d', k);
    assert key[0] == 'd' && GLOBAL_EXECUTION_EVENTS_STREAM[0] == 'g';
    assert DelegatePrefix(d) in u.prefixes;
  }

  // ------------------------------------------------------------------ reconcile

  predicate LowerHex(ch: char) {
    '0' <= ch <= '9' || 'a' <= ch <= 'f'
  }

  predicate IsUuid(s: string) {
    |s| == 36 && forall i :: 0 <= i < 36 ==>
      if i == 8 || i == 13 || i == 18 || i == 23 then s[i] == '-' else LowerHex(s[i])
  }

  /** `_UUID_RE.match`: the pattern's `$` also matches before a final newline. */
  predicate IsDelegateUser(name: string) {
    IsUuid(name) || (|name| == 37 && name[36] == '\n' && IsUuid(name[..36]))
  }

  predicate Hex(s: string, n: nat) {
    |s| == n && forall i :: 0 <= i < n ==> LowerHex(s[i])
  }

  function Uuid(a: string, b: string, c: string, d: string, e: string): string {
    a + "-" + b + "-" + c + "-" + d + "-" + e
  }

  ghost predicate InGroups(s: string, a: string, b: string, c: string, d: string, e: string) {
    s == Uuid(a, b, c, d, e) && Hex(a, 8) && Hex(b, 4) && Hex(c, 4) && Hex(d, 4) && Hex(e, 12)
  }

  /** A UUID is five groups of 8, 4, 4, 4 and 12 lower-case hex digits joined by "-". */
  lemma UuidGroups(s: string)
    ensures IsUuid(s) <==> exists a, b, c, d, e :: InGroups(s, a, b, c, d, e)
  {
    if IsUuid(s) {
      GroupsOf(s);
    }
    forall a, b, c, d, e | InGroups(s, a, b, c, d, e) ensures IsUuid(s) {
      GroupsMake(s, a, b, c, d, e);
    }
  }

  lemma GroupsOf(s: string)
    requires IsUuid(s)
    ensures InGroups(s, s[..8], s[9..13], s[14..18], s[19..23], s[24..])
  {
    assert s[8] == '-' && s[13] == '-' && s[18] == '-' && s[23] == '-';
    assert s == s[..8] + [s[8]] + s[9..13] + [s[13]] + s[14..18] + [s[18]] + s[19..23] + [s[23]] + s[24..];
    assert "-" == ['-'];
  }

  lemma GroupsMake(s: string, a: string, b: string, c: string, d: string, e: string)
    requires InGroups(s, a, b, c, d, e)
    ensures IsUuid(s)
  {
    forall i | 0 <= i < 36
      ensures if i == 8 || i == 13 || i == 18 || i == 23 then s[i] == '-' else LowerHex(s[i])
    {
      if i < 8 {
        assert s[i] == a[i];
      } else if 8 < i < 13 {
        assert s[i] == b[i - 9];
      } else if 13 < i < 18 {
        assert s[i] == c[i - 14];
      } else if 18 < i < 23 {
        assert s[i] == d[i - 19];
      } else if 23 < i {
        assert s[i] == e[i - 24];
      }
    }
  }

  /** And a delegate-shaped user name is that, with or without a final newline. */
  lemma DelegateUserGroups(name: string)
    ensures IsDelegateUser(name) <==>
            || (exists a, b, c, d, e :: InGroups(name, a, b, c, d, e))
            || (name != "" && name[|name| - 1] == '\n'
                && var line := name[..|name| - 1]; exists a, b, c, d, e :: InGroups(line, a, b, c, d, e))
  {
    UuidGroups(name);
    if name != "" {
      UuidGroups(name[..|name| - 1]);
      assert IsUuid(name[..|name| - 1]) ==> |name| == 37;
    }
  }

  type Users = map<string, User>

  /** The user each delegate gets from a pass that draws these passwords. */
  function Fresh(password: string -> string, commands: seq<string>): string -> User {
    u => DelegateUser(u, password(u), commands)
  }

  /** What one completed pass makes of any table; `give` is the user each active
      delegate gets. */
  function Reconciled(users: Users, active: set<string>, give: string -> User): Users {
    map u | u in users.Keys + active && (u in active || !IsDelegateUser(u)) ::
      if u in active then give(u) else users[u]
  }

  /** Where the delegate-shaped users and the active delegates differ. */
  function Drift(users: Users, active: set<string>): set<string> {
    set u | u in users.Keys + active && IsDelegateUser(u) && (u in users) != (u in active)
  }

  /** One delegate's user or status changes: the drift changes by that id at most. */
  lemma DriftChange(users: Users, active: set<string>, users': Users, active': set<string>, d: string)
    requires IsDelegateUser(d)
    requires forall u :: u != d ==> (u in users <==> u in users') && (u in active <==> u in active')
    ensures Drift(users', active') == if (d in users') != (d in active') then Drift(users, active) + {d}
                                      else Drift(users, active) - {d}
  {
    forall u | u != d ensures u in Drift(users', active') <==> u in Drift(users, active) {
    }
  }

  /** A completed pass leaves no drift, gives every active delegate exactly its rules,
      and does not touch any other user. */
  lemma ReconciledInSync(users: Users, active: set<string>, give: string -> User)
    ensures var after := Reconciled(users, active, give);
            && Drift(after, active) == {}
            && (forall u <- active :: u in after && after[u] == give(u))
            && (forall u :: u !in active && !IsDelegateUser(u) ==>
                  (u in after <==> u in users) && (u in users ==> after[u] == users[u]))
            && (forall u :: u in after && IsDelegateUser(u) ==> u in active)
  {
    assert forall u <- active :: u in users.Keys + active;
  }

  /** The two differ in nothing but their passwords. */
  predicate OnlyPasswordsDiffer(a: User, b: User) {
    a.(passwords := b.passwords) == b
  }

  lemma FreshDiffer(u: string, a: string, b: string, commands: seq<string>)
    ensures OnlyPasswordsDiffer(DelegateUser(u, a, commands), DelegateUser(u, b, commands))
  {
  }

  lemma FreshGives(u: string, password: string -> string, commands: seq<string>)
    ensures Fresh(password, commands)(u) == DelegateUser(u, password(u), commands)
  {
  }

  /** What two passes, each with passwords of its own, give a delegate. */
  lemma FreshTwice(u: string, p1: string -> string, p2: string -> string, commands: seq<string>)
    ensures OnlyPasswordsDiffer(Fresh(p1, commands)(u), Fresh(p2, commands)(u))
  {
    FreshGives(u, p1, commands);
    FreshGives(u, p2, commands);
    FreshDiffer(u, p1(u), p2(u), commands);
  }

  /** Passing again changes only passwords, and only those of active delegates. */
  lemma SecondPass(users: Users, active: set<string>, g1: string -> User, g2: string -> User)
    requires forall u :: OnlyPasswordsDiffer(g1(u), g2(u))
    ensures var once := Reconciled(users, active, g1);
            var twice := Reconciled(once, active, g2);
            && twice.Keys == once.Keys
            && forall u <- once :: OnlyPasswordsDiffer(once[u], twice[u]) && (u !in active ==> twice[u] == once[u])
  {
    var once := Reconciled(users, active, g1);
    assert forall u <- active :: u in users.Keys + active;
    assert forall u <- once :: u in active || !IsDelegateUser(u);
  }

  datatype Command = DelUser(user: string) | SetUser(user: string, rules: seq<Rule>)

  function Execute(users: Users, c: Command): Users {
    match c
    case DelUser(u) => users - {u}
    case SetUser(u, rules) => users[u := ApplyRules(if u in users then users[u] else BLANK, rules)]
  }

  /** A command that a pass for `active` may issue. */
  predicate PassCommand(c: Command, active: set<string>) {
    if c.DelUser? then IsDelegateUser(c.user) && c.user !in active else c.user in active
  }

  /** On the way from `users0` to where a completed pass leads, and no further off. */
  ghost predicate Towards(users0: Users, users: Users, active: set<string>, give: string -> User) {
    && Reconciled(users, active, give) == Reconciled(users0, active, give)
    && Drift(users, active) <= Drift(users0, active)
  }

  lemma DeletionStep(users: Users, u: string, active: set<string>, give: string -> User)
    requires IsDelegateUser(u) && u !in active
    ensures Towards(users, users - {u}, active, give)
  {
    var a, b := Reconciled(users - {u}, active, give), Reconciled(users, active, give);
    assert forall v :: v in a <==> v in b;
  }

  lemma ProvisionStep(users: Users, u: string, to: User, active: set<string>, give: string -> User)
    requires u in active
    ensures Towards(users, users[u := to], active, give)
  {
    var a, b := Reconciled(users[u := to], active, give), Reconciled(users, active, give);
    assert forall v :: v in a <==> v in b;
  }

  /** No command of a pass ever adds drift, and none changes where a pass ends up. */
  lemma CommandStep(users: Users, c: Command, active: set<string>, give: string -> User)
    requires PassCommand(c, active)
    ensures Towards(users, Execute(users, c), active, give)
  {
    match c
    case DelUser(u) => DeletionStep(users, u, active, give);
    case SetUser(u, rules) => ProvisionStep(users, u, Execute(users, c)[u], active, give);
  }

  lemma TowardsFurther(a: Users, b: Users, c: Users, active: set<string>, give: string -> User)
    requires Towards(a, b, active, give) && Towards(b, c, active, give)
    ensures Towards(a, c, active, give)
  {
  }

  function ExecuteAll(users: Users, cs: seq<Command>): Users
    decreases |cs|
  {
    if cs == [] then users else ExecuteAll(Execute(users, cs[0]), cs[1..])
  }

  /** However far passes get before they are cut off, a later completed pass ends where an
      uninterrupted one would have, and the drift has not grown. */
  lemma {:induction false} CutOffPass(users: Users, cs: seq<Command>, active: set<string>, give: string -> User)
    requires forall c <- cs :: PassCommand(c, active)
    ensures Towards(users, ExecuteAll(users, cs), active, give)
    decreases |cs|
  {
    if cs != [] {
      assert cs[0] in cs && forall c <- cs[1..] :: c in cs;
      CommandStep(users, cs[0], active, give);
      CutOffPass(Execute(users, cs[0]), cs[1..], active, give);
      TowardsFurther(users, Execute(users, cs[0]), ExecuteAll(users, cs), active, give);
    }
  }

  class AclServer {
    var users: Users

    constructor (users: Users)
      ensures this.users == users
    {
      this.users := users;
    }

    method Run(c: Command)
      modifies this
      ensures users == Execute(old(users), c)
    {
      users := Execute(users, c);
    }
  }

  method ProvisionDelegate(r: AclServer, delegate: string, password: string, commands: seq<string>)
    modifies r
    ensures r.users == old(r.users)[delegate := DelegateUser(delegate, password, commands)]
  {
    RulesOverwrite(if delegate in r.users then r.users[delegate] else BLANK, delegate, password, commands);
    r.Run(SetUser(delegate, Rules(delegate, password, commands)));
  }

  method RevokeDelegate(r: AclServer, delegate: string) returns (deleted: nat)
    modifies r
    ensures r.users == old(r.users) - {delegate}
    ensures deleted == if delegate in old(r.users) then 1 else 0
  {
    deleted := if delegate in r.users then 1 else 0;
    r.Run(DelUser(delegate));
  }

  /** The first loop: `todo` of the stale users are still to be deleted. */
  ghost predicate Deleting(users0: Users, users: Users, stale: set<string>, todo: set<string>)
  {
    todo <= stale && users == users0 - (stale - todo)
  }

  /** The second loop: `todo` of the active delegates are still to be provisioned. */
  ghost predicate Provisioning(users0: Users, users: Users, todo: set<string>, active: set<string>, give: string -> User)
  {
    && todo <= active
    && users.Keys == users0.Keys + (active - todo)
    && forall u <- users :: users[u] == if u in active - todo then give(u) else users0[u]
  }

  lemma DeleteOne(users0: Users, users: Users, stale: set<string>, todo: set<string>, u: string)
    requires Deleting(users0, users, stale, todo) && u in todo
    ensures Deleting(users0, users - {u}, stale, todo - {u})
  {
    assert stale - (todo - {u}) == (stale - todo) + {u};
  }

  lemma ProvisionOne(users0: Users, users: Users, todo: set<string>, u: string, active: set<string>, give: string -> User)
    requires Provisioning(users0, users, todo, active, give) && u in todo
    ensures Provisioning(users0, users[u := give(u)], todo - {u}, active, give)
  {
    assert active - (todo - {u}) == (active - todo) + {u};
  }

  lemma {:induction false} ExecuteSnoc(users: Users, cs: seq<Command>, c: Command)
    ensures ExecuteAll(users, cs + [c]) == Execute(ExecuteAll(users, cs), c)
    decreases |cs|
  {
    if cs == [] {
      assert cs + [c] == [c] && [c][1..] == [];
    } else {
      assert (cs + [c])[0] == cs[0] && (cs + [c])[1..] == cs[1..] + [c];
      ExecuteSnoc(Execute(users, cs[0]), cs[1..], c);
    }
  }

  /** These commands of a pass, and no others, have led here. */
  ghost predicate Issued(users0: Users, users: Users, cs: seq<Command>, active: set<string>) {
    users == ExecuteAll(users0, cs) && forall c <- cs :: PassCommand(c, active)
  }

  lemma IssueOne(users0: Users, users: Users, cs: seq<Command>, active: set<string>, c: Command)
    requires Issued(users0, users, cs, active) && PassCommand(c, active)
    ensures Issued(users0, Execute(users, c), cs + [c], active)
  {
    ExecuteSnoc(users0, cs, c);
  }

  /** One pass. `cut` is how many of its commands reach Redis before one raises, or None if
      none does; one may also raise after it has got there. The pass completes exactly if
      none raises. Cut off, it has issued just that many, and the table is part of the way
      to the same end: what a later completed pass makes of it is what this one would have. */
  method Reconcile(r: AclServer, active: set<string>, password: string -> string, commands: seq<string>, cut: Option<nat>)
      returns (completed: bool, removed: set<string>, ghost issued: seq<Command>)
    modifies r
    ensures removed == set u | u in old(r.users) && IsDelegateUser(u) && u !in active
    ensures completed <==> cut.None? || |removed| + |active| < cut.value
    ensures |issued| == if completed then |removed| + |active| else cut.value
    ensures Issued(old(r.users), r.users, issued, active)
    ensures completed ==> r.users == Reconciled(old(r.users), active, Fresh(password, commands))
    ensures Towards(old(r.users), r.users, active, Fresh(password, commands))
  {
    ghost var users0, give := r.users, Fresh(password, commands);
    removed := set u | u in r.users && IsDelegateUser(u) && u !in active;
    completed, issued := DeleteStale(r, removed, active, cut);
    if completed {
      ghost var users1 := r.users;
      completed, issued := ProvisionActive(r, active, password, commands, cut, |removed|, users0, issued);
      if completed {
        ProvisionedAll(users0, users1, r.users, removed, active, give);
        completed := cut.None? || cut.value != |removed| + |active|;
      }
    }
    CutOffPass(users0, issued, active, give);
  }

  lemma ProvisionedAll(users0: Users, users1: Users, users: Users, stale: set<string>, active: set<string>, give: string -> User)
    requires users1 == users0 - stale
    requires Provisioning(users1, users, {}, active, give)
    requires stale == set u | u in users0 && IsDelegateUser(u) && u !in active
    ensures users == Reconciled(users0, active, give)
  {
    assert active - {} == active;
    assert users.Keys == Reconciled(users0, active, give).Keys;
  }

  /** The first loop. */
  method DeleteStale(r: AclServer, stale: set<string>, active: set<string>, cut: Option<nat>)
      returns (completed: bool, ghost issued: seq<Command>)
    requires forall u <- stale :: IsDelegateUser(u) && u !in active
    modifies r
    ensures completed <==> cut.None? || |stale| <= cut.value
    ensures |issued| == if completed then |stale| else cut.value
    ensures Issued(old(r.users), r.users, issued, active)
    ensures completed ==> r.users == old(r.users) - stale
  {
    ghost var users0 := r.users;
    var todo := stale;
    issued := [];
    while todo != {}
      invariant Deleting(users0, r.users, stale, todo)
      invariant Issued(users0, r.users, issued, active)
      invariant |issued| == |stale| - |todo| && (cut.Some? ==> |issued| <= cut.value)
      decreases |todo|
    {
      if cut.Some? && cut.value == |stale| - |todo| {
        return false, issued;
      }
      var u :| u in todo;
      DeleteOne(users0, r.users, stale, todo, u);
      IssueOne(users0, r.users, issued, active, DelUser(u));
      r.Run(DelUser(u));
      todo, issued := todo - {u}, issued + [DelUser(u)];
    }
    assert stale - {} == stale;
    completed := true;
  }

  lemma ProvisionCommand(users: Users, u: string, password: string -> string, commands: seq<string>)
    ensures Execute(users, SetUser(u, Rules(u, password(u), commands))) == users[u := Fresh(password, commands)(u)]
  {
    RulesOverwrite(if u in users then users[u] else BLANK, u, password(u), commands);
  }

  /** The second loop, `n` commands after the beginning of the pass. */
  method ProvisionActive(r: AclServer, active: set<string>, password: string -> string, commands: seq<string>,
                         cut: Option<nat>, n: nat, ghost users0: Users, ghost issued0: seq<Command>)
      returns (completed: bool, ghost issued: seq<Command>)
    requires |issued0| == n && (cut.Some? ==> n <= cut.value) && Issued(users0, r.users, issued0, active)
    modifies r
    ensures completed <==> cut.None? || n + |active| <= cut.value
    ensures |issued| == if completed then n + |active| else cut.value
    ensures Issued(users0, r.users, issued, active)
    ensures completed ==> Provisioning(old(r.users), r.users, {}, active, Fresh(password, commands))
  {
    ghost var users1, give := r.users, Fresh(password, commands);
    var todo := active;
    issued := issued0;
    while todo != {}
      invariant Provisioning(users1, r.users, todo, active, give)
      invariant Issued(users0, r.users, issued, active)
      invariant |issued| == n + |active| - |todo| && (cut.Some? ==> |issued| <= cut.value)
      decreases |todo|
    {
      if cut.Some? && cut.value == n + |active| - |todo| {
        return false, issued;
      }
      var u :| u in todo;
      var rest := todo - {u};
      assert |rest| == |todo| - 1;
      ghost var c := SetUser(u, Rules(u, password(u), commands));
      ProvisionOne(users1, r.users, todo, u, active, give);
      IssueOne(users0, r.users, issued, active, c);
      ProvisionCommand(r.users, u, password, commands);
      Refresh(r, u, password, commands);
      todo, issued := rest, issued + [c];
    }
    completed := true;
  }

  method Refresh(r: AclServer, u: string, password: string -> string, commands: seq<string>)
    modifies r
    ensures r.users == old(r.users)[u := Fresh(password, commands)(u)]
  {
    ProvisionDelegate(r, u, password(u), commands);
  }
}
