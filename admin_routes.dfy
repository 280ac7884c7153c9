/** The administrator's routes of the Express backend (backend/routes/admin.js): creating
    and deleting servers, adjusting a user's coins and forcing a server free. The two list
    routes only read and are not modelled. */
module AdminRoutes {
  import opened Common
  import opened ServerModel
  import opened PoolState
  import opened ServerRoutes

  /** Clearing the `hasActiveServer` flag of the user a server points at, as
      `User.findByIdAndUpdate` does; a missing user or no owner changes nothing. */
  function ClearOwnerFlag(users: map<UserId, User>, owner: Option<UserId>): map<UserId, User> {
    match owner
    case Some(u) => if u in users then users[u := users[u].(hasActiveServer := false)] else users
    case None => users
  }

  /** POST /admin/servers: a server built from the request body is stored under the fresh
      id `sid`, or refused by validation. */
  function AddServer(p: Pool, sid: ServerId, serverName: Option<string>, sillyHostingUrl: Option<string>,
                     sillyUsername: Option<string>, sillyPassword: Option<string>): Reply
    requires sid !in p.servers
  {
    match NewServer(serverName, sillyHostingUrl, sillyUsername, sillyPassword)
    case Created(s) => Reply(Ok, p.(servers := p.servers[sid := s]))
    case ValidationError => Reply(Invalid, p)
  }

  /** A created server starts available with no owner and no assignment time; creation
      fails, changing nothing, unless all four credential fields are given and non-empty. */
  lemma AddServerStartsAvailable(p: Pool, sid: ServerId, serverName: Option<string>, sillyHostingUrl: Option<string>,
                                 sillyUsername: Option<string>, sillyPassword: Option<string>)
    requires Inv(p) && sid !in p.servers
    ensures var r := AddServer(p, sid, serverName, sillyHostingUrl, sillyUsername, sillyPassword);
      && Inv(r.next)
      && (r.outcome == Ok <==>
            Present(serverName) && Present(sillyHostingUrl) && Present(sillyUsername) && Present(sillyPassword))
      && (r.outcome != Ok ==> r.outcome == Invalid && r.next == p)
      && (r.outcome == Ok ==>
            && r.next.servers.Keys == p.servers.Keys + {sid}
            && Free(r.next.servers, sid)
            && r.next.servers[sid].userId == None && r.next.servers[sid].assignedAt == None
            && (forall s :: s in p.servers ==> r.next.servers[s] == p.servers[s])
            && r.next.users == p.users)
  {
    var r := AddServer(p, sid, serverName, sillyHostingUrl, sillyUsername, sillyPassword);
    if r.outcome == Ok {
      forall u, s | Owns(r.next.servers, u, s) ensures Owns(p.servers, u, s) {
      }
    }
  }

  /** DELETE /admin/servers/:id: a missing server is reported; otherwise the owner's flag is
      cleared and the server removed from the collection. */
  function DeleteServer(p: Pool, sid: ServerId): Reply {
    if sid !in p.servers then Reply(NotFound, p)
    else Reply(Ok, Pool(p.servers - {sid}, ClearOwnerFlag(p.users, p.servers[sid].userId)))
  }

  /** Deleting a missing server changes nothing; deleting an existing one removes exactly
      that id, clears its owner's flag, keeps every other document and the invariant, and a
      second delete of the same id reports it missing. */
  lemma DeleteServerClearsOwner(p: Pool, sid: ServerId)
    requires Inv(p)
    ensures sid !in p.servers ==> DeleteServer(p, sid) == Reply(NotFound, p)
    ensures sid in p.servers ==>
      var r := DeleteServer(p, sid);
      && r.outcome == Ok
      && Inv(r.next)
      && r.next.servers.Keys == p.servers.Keys - {sid}
      && (forall s :: s in r.next.servers ==> r.next.servers[s] == p.servers[s])
      && r.next.users.Keys == p.users.Keys
      && (forall u :: Owns(p.servers, u, sid) ==> !r.next.users[u].hasActiveServer)
      && (forall u :: u in p.users && !Owns(p.servers, u, sid) ==> r.next.users[u] == p.users[u])
      && (forall u :: u in p.users ==> r.next.users[u].coins == p.users[u].coins)
      && DeleteServer(r.next, sid).outcome == NotFound
  {
    if sid in p.servers {
      var r := DeleteServer(p, sid);
      assert ServerOk(p.servers[sid]);
      forall u, s | Owns(r.next.servers, u, s) ensures u in r.next.users && r.next.users[u].hasActiveServer {
        assert Owns(p.servers, u, s);
        assert s != sid;
        if Owns(p.servers, u, sid) {
          assert false;
        }
      }
      forall u, s1, s2 | Owns(r.next.servers, u, s1) && Owns(r.next.servers, u, s2) ensures s1 == s2 {
        assert Owns(p.servers, u, s1) && Owns(p.servers, u, s2);
      }
    }
  }

  /** POST /admin/users/:id/coins: add `amount` (which may be negative) to the user's coins,
      with no floor; a missing user is reported. */
  function AddCoins(p: Pool, uid: UserId, amount: int): Reply {
    if uid !in p.users then Reply(NotFound, p)
    else Reply(Ok, p.(users := p.users[uid := p.users[uid].(coins := p.users[uid].coins + amount)]))
  }

  /** Adding coins changes exactly that balance, by exactly `amount`, keeps the invariant,
      and adding `-amount` afterwards restores the original state. */
  lemma AddCoinsRoundTrip(p: Pool, uid: UserId, amount: int)
    requires Inv(p)
    ensures uid !in p.users ==> AddCoins(p, uid, amount) == Reply(NotFound, p)
    ensures uid in p.users ==>
      var r := AddCoins(p, uid, amount);
      && r.outcome == Ok && Inv(r.next) && r.next.servers == p.servers
      && r.next.users.Keys == p.users.Keys
      && r.next.users[uid].coins == p.users[uid].coins + amount
      && r.next.users[uid].hasActiveServer == p.users[uid].hasActiveServer
      && (forall u :: u in p.users && u != uid ==> r.next.users[u] == p.users[u])
      && AddCoins(r.next, uid, -amount) == Reply(Ok, p)
  {
    if uid in p.users {
      var r := AddCoins(p, uid, amount);
      assert r.next.users[uid := r.next.users[uid].(coins := r.next.users[uid].coins - amount)] == p.users;
    }
  }

  /** POST /admin/servers/:id/release: a missing server is reported; otherwise the owner's
      flag is cleared and the server freed, its `assignedAt` left as it was. */
  function ForceRelease(p: Pool, sid: ServerId): Reply {
    if sid !in p.servers then Reply(NotFound, p)
    else Reply(Ok, Pool(p.servers[sid := Vacate(p.servers[sid])], ClearOwnerFlag(p.users, p.servers[sid].userId)))
  }

  /** Forcing an owned server free is the owner's own release of it; forcing an available
      server free changes nothing; and forcing twice is forcing once. */
  lemma ForceReleaseAgreesWithRelease(p: Pool, sid: ServerId)
    requires Inv(p)
    ensures sid !in p.servers ==> ForceRelease(p, sid) == Reply(NotFound, p)
    ensures forall u :: Owns(p.servers, u, sid) ==> ForceRelease(p, sid) == Reply(Ok, Release(p, u, sid))
    ensures Free(p.servers, sid) ==> ForceRelease(p, sid) == Reply(Ok, p)
    ensures ForceRelease(ForceRelease(p, sid).next, sid) == ForceRelease(p, sid)
  {
    if Free(p.servers, sid) {
      assert ServerOk(p.servers[sid]);
      assert Vacate(p.servers[sid]) == p.servers[sid];
    }
  }

  /** Forcing a server free keeps the invariant and leaves the server available and unowned. */
  lemma ForceReleaseKeepsInv(p: Pool, sid: ServerId)
    requires Inv(p) && sid in p.servers
    ensures var r := ForceRelease(p, sid);
      && Inv(r.next)
      && Free(r.next.servers, sid) && r.next.servers[sid].userId == None
      && r.next.servers[sid].assignedAt == p.servers[sid].assignedAt
      && (forall u :: Owns(p.servers, u, sid) ==> !r.next.users[u].hasActiveServer)
  {
    assert ServerOk(p.servers[sid]);
    if p.servers[sid].userId.Some? {
      var u := p.servers[sid].userId.value;
      assert Owns(p.servers, u, sid);
      ReleaseFreesServer(p, u, sid);
      assert ForceRelease(p, sid).next == Release(p, u, sid);
    } else {
      assert ForceRelease(p, sid).next == p;
    }
  }
}
