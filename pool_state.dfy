/** The Express backend's shared state: the Server collection and the User collection,
    the outcomes its handlers report, and the consistency the handlers maintain. */
module PoolState {
  import opened Common
  import opened ServerModel

  /** The fields of a User document that the assignment logic reads and writes. */
  datatype User = User(coins: int, hasActiveServer: bool)

  datatype Pool = Pool(servers: map<ServerId, Server>, users: map<UserId, User>)

  /** What a handler reports; each error leaves the state unchanged. */
  datatype Outcome =
    | Ok
    | AlreadyAssigned     // user already has an active server
    | InsufficientCoins   // user has no coins left
    | NoFreeServer        // no server is available
    | NotFound            // the addressed server or user does not exist
    | NoActiveServer      // user owns no active server
    | Invalid             // document validation failed

  /** A handler's reported outcome together with the state it leaves behind. */
  datatype Reply = Reply(outcome: Outcome, next: Pool)

  /** Server `s` is active and owned by `u`. */
  predicate Owns(servers: map<ServerId, Server>, u: UserId, s: ServerId) {
    s in servers && servers[s].status == Active && servers[s].userId == Some(u)
  }

  /** Server `s` can be handed out. */
  predicate Free(servers: map<ServerId, Server>, s: ServerId) {
    s in servers && servers[s].status == Available
  }

  /** Status and owner agree, an active server carries its assignment time, and the
      required fields are present. */
  predicate ServerOk(s: Server) {
    && HasRequiredFields(s)
    && (s.status == Active <==> s.userId.Some?)
    && (s.status == Active ==> s.assignedAt.Some?)
  }

  /** The consistency every handler and the billing tick preserve:
      every server is well formed, the owner of an active server exists and has its
      flag set, and nobody owns two active servers. The converse of the second clause
      (flag set implies owning a server) is NOT maintained: see Billing.EvictedOwnerIsStranded. */
  ghost predicate Inv(p: Pool) {
    && (forall s :: s in p.servers ==> ServerOk(p.servers[s]))
    && (forall u, s :: Owns(p.servers, u, s) ==> u in p.users && p.users[u].hasActiveServer)
    && (forall u, s1, s2 :: Owns(p.servers, u, s1) && Owns(p.servers, u, s2) ==> s1 == s2)
  }

  /** `servers` with `s` freed. */
  function Vacated(p: Pool, s: ServerId): Pool
    requires s in p.servers
  {
    p.(servers := p.servers[s := Vacate(p.servers[s])])
  }

  /** Giving server `s` to user `u` at `now`: the two document updates of a grant. */
  function Grant(p: Pool, u: UserId, s: ServerId, now: Time): Pool
    requires u in p.users && s in p.servers
  {
    Pool(p.servers[s := Assign(p.servers[s], u, now)],
         p.users[u := p.users[u].(hasActiveServer := true)])
  }

  /** A grant to a user whose flag is clear, of a server nobody owns, keeps the invariant
      and leaves that user owning exactly that server. */
  lemma GrantKeepsInv(p: Pool, u: UserId, s: ServerId, now: Time)
    requires Inv(p) && u in p.users && !p.users[u].hasActiveServer
    requires s in p.servers && p.servers[s].userId == None && HasRequiredFields(p.servers[s])
    ensures Inv(Grant(p, u, s, now))
    ensures forall t :: Owns(Grant(p, u, s, now).servers, u, t) <==> t == s
  {
    var q := Grant(p, u, s, now);
    forall t | Owns(p.servers, u, t) ensures false {
    }
    forall v, t | Owns(q.servers, v, t) ensures v in q.users && q.users[v].hasActiveServer {
      if t != s { assert Owns(p.servers, v, t); }
    }
    forall v, t1, t2 | Owns(q.servers, v, t1) && Owns(q.servers, v, t2) ensures t1 == t2 {
      if t1 != s { assert Owns(p.servers, v, t1); }
      if t2 != s { assert Owns(p.servers, v, t2); }
    }
    forall t ensures Owns(q.servers, u, t) <==> t == s {
      if t != s && Owns(q.servers, u, t) { assert Owns(p.servers, u, t); }
    }
  }

  /** Freeing a server keeps the invariant when nobody else's ownership depends on it. */
  lemma VacateKeepsInv(p: Pool, s: ServerId)
    requires Inv(p) && s in p.servers
    ensures Inv(Vacated(p, s))
    ensures forall u, t :: Owns(Vacated(p, s).servers, u, t) <==> Owns(p.servers, u, t) && t != s
  {
    var q := Vacated(p, s);
    forall u, t ensures Owns(q.servers, u, t) <==> Owns(p.servers, u, t) && t != s {
    }
  }
}
