/** The user-facing routes of the Express backend (backend/routes/servers.js):
    requesting a server, releasing it, and the pool statistics. */
module ServerRoutes {
  import opened Common
  import opened ServerModel
  import opened PoolState

  /** Outcome of POST /request for the authenticated user `uid`, with the handler's checks
      in the handler's order: the flag, then the coins, then the pool. */
  function RequestOutcome(p: Pool, uid: UserId): Outcome
    requires uid in p.users
  {
    if p.users[uid].hasActiveServer then AlreadyAssigned
    else if p.users[uid].coins <= 0 then InsufficientCoins
    else if forall s :: s in p.servers ==> p.servers[s].status != Available then NoFreeServer
    else Ok
  }

  /** A successful request turns exactly one available server into an active one owned by
      the user, stamped with `now`, sets the user's flag, changes no coins and no other
      server, keeps the invariant, and the user then owns exactly that one active server. */
  lemma RequestGrantsOneServer(p: Pool, uid: UserId, sid: ServerId, now: Time)
    requires Inv(p) && uid in p.users && RequestOutcome(p, uid) == Ok && Free(p.servers, sid)
    ensures var q := Grant(p, uid, sid, now);
      && Inv(q)
      && q.servers.Keys == p.servers.Keys && q.users.Keys == p.users.Keys
      && q.servers[sid].status == Active && q.servers[sid].userId == Some(uid)
      && q.servers[sid].assignedAt == Some(now)
      && (forall s :: s in p.servers && s != sid ==> q.servers[s] == p.servers[s])
      && q.users[uid].hasActiveServer
      && (forall u :: u in p.users ==> q.users[u].coins == p.users[u].coins)
      && (forall u :: u in p.users && u != uid ==> q.users[u] == p.users[u])
      && (forall s :: Owns(q.servers, uid, s) <==> s == sid)
  {
    assert ServerOk(p.servers[sid]);
    GrantKeepsInv(p, uid, sid, now);
  }

  /** A request that does not succeed was refused for the first failing check; when the
      user's flag is clear and the invariant holds, the user owns no active server, so the
      flag check is what keeps a user from holding two. */
  lemma RequestRefusals(p: Pool, uid: UserId)
    requires Inv(p) && uid in p.users
    ensures RequestOutcome(p, uid) == AlreadyAssigned <==> p.users[uid].hasActiveServer
    ensures RequestOutcome(p, uid) == InsufficientCoins <==>
              !p.users[uid].hasActiveServer && p.users[uid].coins <= 0
    ensures RequestOutcome(p, uid) == NoFreeServer <==>
              !p.users[uid].hasActiveServer && p.users[uid].coins > 0 &&
              forall s :: !Free(p.servers, s)
    ensures RequestOutcome(p, uid) == Ok ==> forall s :: !Owns(p.servers, uid, s)
  {
    if RequestOutcome(p, uid) == NoFreeServer {
      forall s ensures !Free(p.servers, s) {
      }
    }
    if forall s :: !Free(p.servers, s) {
      forall s | s in p.servers ensures p.servers[s].status != Available {
        assert !Free(p.servers, s);
      }
    }
  }

  /** Outcome of POST /release: the user must own an active server. */
  ghost function ReleaseOutcome(p: Pool, uid: UserId): Outcome {
    if exists s :: Owns(p.servers, uid, s) then Ok else NoActiveServer
  }

  /** Self-release of server `sid` by its owner `uid`: the server is freed (its
      `assignedAt` is left as it was) and the user's flag is cleared. */
  function Release(p: Pool, uid: UserId, sid: ServerId): Pool
    requires uid in p.users && sid in p.servers
  {
    Pool(p.servers[sid := Vacate(p.servers[sid])],
         p.users[uid := p.users[uid].(hasActiveServer := false)])
  }

  /** Releasing the owned server frees it with no owner, keeps its assignment time, clears
      the flag, keeps the coins, touches nothing else, keeps the invariant, and the user
      then owns nothing. */
  lemma ReleaseFreesServer(p: Pool, uid: UserId, sid: ServerId)
    requires Inv(p) && uid in p.users && Owns(p.servers, uid, sid)
    ensures ReleaseOutcome(p, uid) == Ok
    ensures var q := Release(p, uid, sid);
      && Inv(q)
      && q.servers.Keys == p.servers.Keys && q.users.Keys == p.users.Keys
      && q.servers[sid].status == Available && q.servers[sid].userId == None
      && q.servers[sid].assignedAt == p.servers[sid].assignedAt
      && (forall s :: s in p.servers && s != sid ==> q.servers[s] == p.servers[s])
      && !q.users[uid].hasActiveServer && q.users[uid].coins == p.users[uid].coins
      && (forall u :: u in p.users && u != uid ==> q.users[u] == p.users[u])
      && (forall s :: !Owns(q.servers, uid, s))
  {
    var q := Release(p, uid, sid);
    VacateKeepsInv(p, sid);
    assert q.servers == Vacated(p, sid).servers;
    forall u, s | Owns(q.servers, u, s) ensures u in q.users && q.users[u].hasActiveServer {
      assert Owns(p.servers, u, s);
      assert u != uid;
    }
  }

  /** Request followed by release gives back the original pool, except that the server
      remembers when it was assigned: release does not reset `assignedAt`. */
  lemma RequestThenRelease(p: Pool, uid: UserId, sid: ServerId, now: Time)
    requires Inv(p) && uid in p.users && RequestOutcome(p, uid) == Ok && Free(p.servers, sid)
    ensures var q := Grant(p, uid, sid, now);
      && ReleaseOutcome(q, uid) == Ok
      && Release(q, uid, sid) == p.(servers := p.servers[sid := p.servers[sid].(assignedAt := Some(now))])
  {
    var q := Grant(p, uid, sid, now);
    assert Owns(q.servers, uid, sid);
    assert ServerOk(p.servers[sid]);
    assert Release(q, uid, sid).users == p.users;
  }

  datatype Stats = Stats(totalServers: nat, availableServers: nat, activeServers: nat)

  /** GET /stats: the three counts over the Server collection; every server is counted
      under exactly one status. */
  function PoolStats(servers: map<ServerId, Server>): (r: Stats)
    ensures r.totalServers == |servers|
    ensures r.totalServers == r.availableServers + r.activeServers
    ensures r.availableServers == |set s | s in servers && servers[s].status == Available|
    ensures r.activeServers == |set s | s in servers && servers[s].status == Active|
  {
    var available := set s | s in servers && servers[s].status == Available;
    var active := set s | s in servers && servers[s].status == Active;
    assert servers.Keys == available + active;
    assert available * active == {};
    Stats(|servers|, |available|, |active|)
  }
}
