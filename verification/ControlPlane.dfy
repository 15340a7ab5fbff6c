/** The API requests that create tokens, delegates and executions, each as one atomic
    step (control_plane/delegates/views.py), and how far they let the Redis users and
    the delegate table drift apart. */
module ControlPlane {
  import opened StreamNames
  import opened Protocol
  import opened Watching
  import opened RedisAcl

  datatype Token = Token(tenant: string, expiresAt: int, used: bool)

  datatype Delegate = Delegate(tenant: string, active: bool, token: string)

  datatype Response<+T> = Created(value: T) | Rejected(code: int)

  class Api {
    var tokens: map<string, Token>
    var delegates: map<string, Delegate>
    var executions: map<string, Row>
    const acl: AclServer
    const commands: seq<string>
    /** Each used token registered exactly one delegate, of the token's own tenant; each
        execution belongs to the tenant of its delegate. */
    ghost predicate Valid() reads this {
      && (forall d <- delegates :: IsUuid(d) && RegisteredWith(d))
      && (forall d, d' :: d in delegates && d' in delegates && delegates[d].token == delegates[d'].token ==> d == d')
      && (forall e <- executions :: executions[e].delegate.Some? ==>
            executions[e].delegate.value in delegates
            && delegates[executions[e].delegate.value].tenant == executions[e].tenant)
    }

    ghost predicate RegisteredWith(d: string)
      requires d in delegates
      reads this
    {
      var t := delegates[d].token;
      t in tokens && tokens[t].used && tokens[t].tenant == delegates[d].tenant
    }

    ghost function Active(): set<string> reads this {
      set d | d in delegates && delegates[d].active
    }

    /** Where Redis users and delegates disagree: delegate-shaped users that are not
        ACTIVE delegates, and ACTIVE delegates without a user. */
    ghost function Disagreement(): set<string> reads this, acl {
      Drift(acl.users, Active())
    }

    constructor (acl: AclServer, commands: seq<string>)
      requires forall u <- acl.users :: !IsDelegateUser(u)
      ensures Valid() && this.acl == acl && Disagreement() == {}
      ensures tokens == map[] && delegates == map[] && executions == map[]
    {
      this.acl, this.commands := acl, commands;
      tokens, delegates, executions := map[], map[], map[];
    }

    method IssueToken(token: string, tenant: string, expiresAt: int) returns (r: Response<string>)
      requires Valid() && token !in tokens
      modifies this`tokens
      ensures Valid()
      ensures tenant == "" ==> r == Rejected(400) && tokens == old(tokens)
      ensures tenant != "" ==> r == Created(token) && tokens == old(tokens)[token := Token(tenant, expiresAt, false)]
    {
      if tenant == "" {
        return Rejected(400);
      }
      tokens := tokens[token := Token(tenant, expiresAt, false)];
      r := Created(token);
    }

    /** `id` is the fresh UUID. `signed` is whether the CSR could be signed; `provisioned`
        whether SETUSER went through; `saved` whether the rows could then be written.
        Whatever state the users are in, only one registration outcome adds to the
        disagreement with them: the abort after provisioning, and by its own id. */
    method RegisterDelegate(token: string, tenant: string, name: string, now: int, id: string, password: string,
                            signed: bool, provisioned: bool, saved: bool) returns (r: Response<string>)
      requires Valid() && IsUuid(id) && id !in delegates && id !in acl.users
      modifies this`tokens, this`delegates, acl
      ensures Valid()
      ensures r.Created? <==>
        && token != "" && tenant != "" && name != ""
        && token in old(tokens) && !old(tokens)[token].used && now <= old(tokens)[token].expiresAt
        && old(tokens)[token].tenant == tenant && signed && provisioned && saved
      ensures r.Created? ==>
        && r.value == id && id !in old(delegates)
        && delegates == old(delegates)[id := Delegate(tenant, true, token)]
        && tokens == old(tokens)[token := old(tokens)[token].(used := true)]
        && acl.users == old(acl.users)[id := DelegateUser(id, password, commands)]
      ensures r.Rejected? ==> delegates == old(delegates) && tokens == old(tokens)
      ensures r.Rejected? ==> acl.users - {id} == old(acl.users)
      ensures id in acl.users <==> r.Created? || r == Rejected(500)
      ensures Disagreement() == old(Disagreement()) + if r == Rejected(500) then {id} else {}
    {
      if token == "" || tenant == "" || name == "" {
        return Rejected(400);
      }
      if token !in tokens || tokens[token].used || tokens[token].expiresAt < now || tokens[token].tenant != tenant {
        return Rejected(403);
      }
      if !signed {
        return Rejected(400);
      }
      if !provisioned {
        return Rejected(503);
      }
      ghost var users0, active0 := acl.users, Active();
      ProvisionDelegate(acl, id, password, commands);
      if !saved {
        DriftChange(users0, Active(), acl.users, Active(), id);
        return Rejected(500);
      }
      delegates := delegates[id := Delegate(tenant, true, token)];
      tokens := tokens[token := tokens[token].(used := true)];
      assert Active() == active0 + {id};
      DriftChange(users0, active0, acl.users, Active(), id);
      r := Created(id);
    }

    /** The row is REVOKED whatever happens to the Redis user; `reached` is whether
        DELUSER went through. Redis and the delegate table then agree about this delegate
        -- unless it has a user that was not reached -- and as before about all others. */
    method RevokeDelegate(id: string, reached: bool) returns (r: Response<bool>)
      requires Valid()
      modifies this`delegates, acl
      ensures Valid()
      ensures r.Created? <==> id in old(delegates)
      ensures r.Rejected? ==> delegates == old(delegates) && acl.users == old(acl.users)
      ensures r.Created? ==>
        && delegates == old(delegates)[id := old(delegates)[id].(active := false)]
        && id !in Active()
        && (reached ==> acl.users == old(acl.users) - {id} && r.value == (id in old(acl.users)))
        && (!reached ==> acl.users == old(acl.users) && !r.value)
        && Disagreement() == if id in acl.users then old(Disagreement()) + {id} else old(Disagreement()) - {id}
    {
      if id !in delegates {
        return Rejected(404);
      }
      ghost var users0, active0 := acl.users, Active();
      delegates := delegates[id := delegates[id].(active := false)];
      assert Active() == active0 - {id};
      assert Valid();
      var deleted := 0;
      if reached {
        deleted := RedisAcl.RevokeDelegate(acl, id);
      }
      r := Created(deleted > 0);
      DriftChange(users0, active0, acl.users, Active(), id);
    }

    /** An execution is only ever created for an ACTIVE delegate of its own tenant. */
    method CreateExecution(e: string, tenant: string, delegate: string, fixture: string, fixtureExists: bool)
        returns (r: Response<string>)
      requires Valid() && e !in executions
      modifies this`executions
      ensures Valid()
      ensures r.Created? <==>
        && tenant != "" && delegate != "" && fixture != ""
        && delegate in delegates && delegates[delegate].tenant == tenant && delegates[delegate].active && fixtureExists
      ensures r.Created? ==>
        executions == old(executions)[e := Row(tenant, Some(delegate), fixture, QUEUED, "", 0, "", "")]
      ensures r.Rejected? ==> executions == old(executions)
    {
      if tenant == "" || delegate == "" || fixture == "" {
        return Rejected(400);
      }
      if delegate !in delegates {
        return Rejected(404);
      }
      if delegates[delegate].tenant != tenant || !delegates[delegate].active {
        return Rejected(403);
      }
      if !fixtureExists {
        return Rejected(400);
      }
      executions := executions[e := Row(tenant, Some(delegate), fixture, QUEUED, "", 0, "", "")];
      r := Created(e);
    }

    /** One completed pass of reconcile settles every disagreement, whatever had become of
        the users; one cut off anywhere adds none. */
    method ReconcileAll(password: string -> string, cut: Option<nat>) returns (completed: bool)
      requires Valid()
      modifies acl
      ensures cut.None? ==> completed
      ensures completed ==> Disagreement() == {} && forall d <- Active() :: d in acl.users
      ensures Disagreement() <= old(Disagreement())
    {
      var active := set d | d in delegates && delegates[d].active;
      ghost var users0 := acl.users;
      var removed;
      ghost var issued;
      assert active == Active();
      completed, removed, issued := Reconcile(acl, active, password, commands, cut);
      if completed {
        ReconciledInSync(users0, active, Fresh(password, commands));
      }
    }
  }
}
