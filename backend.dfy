/** The Express backend as one object holding the Server and User collections, with one
    method per route handler and one for the hourly job. Each handler runs to completion
    on its own; the database queries become lookups in the two maps. */
module ExpressBackend {
  import opened Common
  import opened ServerModel
  import opened PoolState
  import opened ServerRoutes
  import opened AdminRoutes
  import opened Billing

  /** `Server.findOne({status: 'available'})`: some available server, or none. */
  method FindAvailable(servers: map<ServerId, Server>) returns (r: Option<ServerId>)
    ensures r.None? <==> forall s :: s in servers ==> servers[s].status != Available
    ensures r.Some? ==> Free(servers, r.value)
  {
    if s :| s in servers && servers[s].status == Available {
      r := Some(s);
    } else {
      r := None;
    }
  }

  /** `Server.findOne({userId: uid, status: 'active'})`: an active server owned by `uid`, or none. */
  method FindActiveOf(servers: map<ServerId, Server>, uid: UserId) returns (r: Option<ServerId>)
    ensures r.None? <==> forall s :: !Owns(servers, uid, s)
    ensures r.Some? ==> Owns(servers, uid, r.value)
  {
    if s :| s in servers && servers[s].status == Active && servers[s].userId == Some(uid) {
      assert Owns(servers, uid, s);
      r := Some(s);
    } else {
      r := None;
      forall s ensures !Owns(servers, uid, s) {
      }
    }
  }

  /** `User.findOne({hasActiveServer: false}).sort({coins: -1})`. */
  method FindWaitingUser(users: map<UserId, User>) returns (r: Option<UserId>)
    ensures IsTopWaiting(users, r)
  {
    var waiting := set u | u in users && !users[u].hasActiveServer;
    if waiting == {} {
      r := None;
      forall u | u in users ensures users[u].hasActiveServer {
        assert u !in waiting;
      }
    } else {
      MostCoinsExists(users, waiting);
      var w :| w in waiting && forall u :: u in waiting ==> users[u].coins <= users[w].coins;
      r := Some(w);
    }
  }

  /** What GET /my-server shows of the caller's server: its name and assignment time. */
  datatype ServerView = ServerView(serverName: string, assignedAt: Option<Time>)

  class Backend {
    var servers: map<ServerId, Server>
    var users: map<UserId, User>

    function State(): Pool
      reads this
    {
      Pool(servers, users)
    }

    ghost predicate Valid()
      reads this
    {
      Inv(State())
    }

    /** An empty server pool over the registered users (registration is not modelled). */
    constructor (registered: map<UserId, User>)
      ensures Valid() && servers == map[] && users == registered
    {
      servers := map[];
      users := registered;
    }

    /** POST /api/servers/request for the authenticated user `uid`. */
    method Request(uid: UserId, now: Time) returns (res: Outcome, granted: Option<ServerId>)
      requires Valid() && uid in users
      modifies this
      ensures Valid()
      ensures res == RequestOutcome(old(State()), uid)
      ensures res == Ok ==>
                && granted.Some? && Free(old(servers), granted.value)
                && State() == Grant(old(State()), uid, granted.value, now)
      ensures res != Ok ==> granted == None && State() == old(State())
    {
      if users[uid].hasActiveServer {
        return AlreadyAssigned, None;
      }
      if users[uid].coins <= 0 {
        return InsufficientCoins, None;
      }
      var found := FindAvailable(servers);
      if found.None? {
        return NoFreeServer, None;
      }
      var sid := found.value;
      RequestGrantsOneServer(State(), uid, sid, now);
      servers := servers[sid := Assign(servers[sid], uid, now)];
      users := users[uid := users[uid].(hasActiveServer := true)];
      res, granted := Ok, found;
    }

    /** POST /api/servers/release for the authenticated user `uid`. */
    method Release(uid: UserId) returns (res: Outcome, released: Option<ServerId>)
      requires Valid() && uid in users
      modifies this
      ensures Valid()
      ensures res == ReleaseOutcome(old(State()), uid)
      ensures res == Ok ==>
                && released.Some? && Owns(old(servers), uid, released.value)
                && State() == ServerRoutes.Release(old(State()), uid, released.value)
      ensures res != Ok ==> released == None && State() == old(State())
    {
      var found := FindActiveOf(servers, uid);
      if found.None? {
        return NoActiveServer, None;
      }
      var sid := found.value;
      ReleaseFreesServer(State(), uid, sid);
      servers := servers[sid := Vacate(servers[sid])];
      users := users[uid := users[uid].(hasActiveServer := false)];
      res, released := Ok, found;
    }

    /** GET /api/servers/my-server for the authenticated user `uid`. */
    method MyServer(uid: UserId) returns (r: Option<ServerView>)
      requires Valid()
      ensures r.None? <==> forall s :: !Owns(servers, uid, s)
      ensures r.Some? ==> exists s :: Owns(servers, uid, s) &&
                            r.value == ServerView(servers[s].serverName, servers[s].assignedAt)
    {
      var found := FindActiveOf(servers, uid);
      if found.None? {
        r := None;
      } else {
        var s := servers[found.value];
        r := Some(ServerView(s.serverName, s.assignedAt));
      }
    }

    /** GET /api/servers/stats. */
    method GetStats() returns (r: Stats)
      ensures r == PoolStats(servers)
      ensures r.totalServers == r.availableServers + r.activeServers
    {
      r := PoolStats(servers);
    }

    /** POST /api/admin/servers, storing the new document under the fresh id `sid`. */
    method AddServer(sid: ServerId, serverName: Option<string>, sillyHostingUrl: Option<string>,
                     sillyUsername: Option<string>, sillyPassword: Option<string>) returns (res: Outcome)
      requires Valid() && sid !in servers
      modifies this
      ensures Valid()
      ensures Reply(res, State()) ==
                AdminRoutes.AddServer(old(State()), sid, serverName, sillyHostingUrl, sillyUsername, sillyPassword)
    {
      AddServerStartsAvailable(State(), sid, serverName, sillyHostingUrl, sillyUsername, sillyPassword);
      var created := NewServer(serverName, sillyHostingUrl, sillyUsername, sillyPassword);
      if created.ValidationError? {
        return Invalid;
      }
      servers := servers[sid := created.server];
      res := Ok;
    }

    /** DELETE /api/admin/servers/:id. */
    method DeleteServer(sid: ServerId) returns (res: Outcome)
      requires Valid()
      modifies this
      ensures Valid()
      ensures Reply(res, State()) == AdminRoutes.DeleteServer(old(State()), sid)
    {
      DeleteServerClearsOwner(State(), sid);
      if sid !in servers {
        return NotFound;
      }
      var owner := servers[sid].userId;
      if owner.Some? && owner.value in users {
        users := users[owner.value := users[owner.value].(hasActiveServer := false)];
      }
      servers := servers - {sid};
      res := Ok;
    }

    /** POST /api/admin/users/:id/coins. */
    method AddCoins(uid: UserId, amount: int) returns (res: Outcome)
      requires Valid()
      modifies this
      ensures Valid()
      ensures Reply(res, State()) == AdminRoutes.AddCoins(old(State()), uid, amount)
    {
      AddCoinsRoundTrip(State(), uid, amount);
      if uid !in users {
        return NotFound;
      }
      users := users[uid := users[uid].(coins := users[uid].coins + amount)];
      res := Ok;
    }

    /** POST /api/admin/servers/:id/release. */
    method ForceRelease(sid: ServerId) returns (res: Outcome)
      requires Valid()
      modifies this
      ensures Valid()
      ensures Reply(res, State()) == AdminRoutes.ForceRelease(old(State()), sid)
    {
      if sid !in servers {
        return NotFound;
      }
      ForceReleaseKeepsInv(State(), sid);
      var owner := servers[sid].userId;
      if owner.Some? && owner.value in users {
        users := users[owner.value := users[owner.value].(hasActiveServer := false)];
      }
      servers := servers[sid := Vacate(servers[sid])];
      res := Ok;
    }

    /** One iteration of the hourly job, for server `sid` of the snapshot. */
    method ProcessServer(sid: ServerId, now: Time) returns (pick: Option<UserId>)
      requires Valid()
      modifies this
      ensures Valid()
      ensures Evicts(old(State()), sid) ==> IsTopWaiting(old(users), pick)
      ensures State() == TickStep(old(State()), sid, pick, now)
    {
      pick := None;
      if sid in servers && servers[sid].userId.Some? {
        var u := servers[sid].userId.value;
        assert ServerOk(servers[sid]) && Owns(servers, u, sid);
        if users[u].coins <= 0 {
          pick := FindWaitingUser(users);
          TickStepKeepsInv(State(), sid, pick, now);
          servers := servers[sid := Vacate(servers[sid])];
          if pick.Some? && pick.value in users && users[pick.value].coins > 0 {
            var w := pick.value;
            servers := servers[sid := Assign(servers[sid], w, now)];
            users := users[w := users[w].(hasActiveServer := true)];
          }
        } else {
          TickStepKeepsInv(State(), sid, pick, now);
          users := users[u := users[u].(coins := users[u].coins - 1)];
        }
      }
    }

    /** The hourly job: every server active when it starts is processed once, in the order
        `order`, with `picks` the waiting-user answers used along the way. */
    method Tick(now: Time) returns (ghost order: seq<ServerId>, ghost picks: seq<Option<UserId>>)
      requires Valid()
      modifies this
      ensures Valid()
      ensures Distinct(order)
      ensures forall s :: s in order <==> s in old(servers) && old(servers)[s].status == Active
      ensures |picks| == |order| && PicksValid(old(State()), order, picks, now)
      ensures State() == TickRun(old(State()), order, picks, now)
    {
      var pending := set s | s in servers && servers[s].status == Active;
      ghost var start := State();
      order, picks := [], [];
      while pending != {}
        invariant Valid()
        invariant |picks| == |order| && PicksValid(start, order, picks, now)
        invariant State() == TickRun(start, order, picks, now)
        invariant Distinct(order)
        invariant forall s :: s in order ==> s !in pending
        invariant forall s :: s in order || s in pending <==> s in start.servers && start.servers[s].status == Active
        decreases pending
      {
        var sid :| sid in pending;
        var pick := ProcessServer(sid, now);
        assert (order + [sid])[..|order|] == order;
        assert (picks + [pick])[..|order|] == picks;
        order, picks := order + [sid], picks + [pick];
        pending := pending - {sid};
      }
    }
  }
}
