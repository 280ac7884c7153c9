/** The Flask variant (app.py) as one object holding its tables, with one method per
    helper or route that changes them. Each runs to completion on its own; sessions,
    templates, flash messages and the admin login are left out. */
module FlaskApp {
  import opened Common
  import opened FlaskModel
  import opened FlaskDeduct

  /** `Server.query.filter_by(server_type='free', is_occupied=False).first()`. */
  method FindFreeServer(a: App) returns (r: Option<ServerId>)
    ensures r.None? <==> forall s :: !FreeSlot(a, s)
    ensures r.Some? ==> FreeSlot(a, r.value)
  {
    if s :| s in a.servers && a.servers[s].serverType == "free" && !a.servers[s].isOccupied {
      assert FreeSlot(a, s);
      r := Some(s);
    } else {
      r := None;
      forall s ensures !FreeSlot(a, s) { }
    }
  }

  class Database {
    var servers: map<ServerId, Server>
    var users: map<UserId, User>
    var coinDeductionRate: int
    var log: seq<Transaction>

    function State(): App
      reads this
    {
      App(servers, users, coinDeductionRate, log)
    }

    ghost predicate Valid()
      reads this
    {
      Consistent(State())
    }

    /** Empty tables and the default settings row (one coin per deduction). */
    constructor ()
      ensures Valid() && State() == App(map[], map[], 1, [])
    {
      servers, users, coinDeductionRate, log := map[], map[], 1, [];
    }

    /** `allocate_free_server(uid)`; both callers only allocate to a user holding no server. */
    method AllocateFreeServer(uid: UserId) returns (granted: Option<ServerId>)
      requires Valid() && uid in users && users[uid].serverId.None?
      modifies this
      ensures Valid()
      ensures granted.None? <==> forall s :: !FreeSlot(old(State()), s)
      ensures granted.None? ==> State() == old(State())
      ensures granted.Some? ==>
                && FreeSlot(old(State()), granted.value)
                && State() == Allocate(old(State()), uid, granted.value)
    {
      granted := FindFreeServer(State());
      if granted.Some? {
        var sid := granted.value;
        AllocateKeepsConsistent(State(), uid, sid);
        servers := servers[sid := servers[sid].(isOccupied := true, occupiedBy := Some(uid))];
        users := users[uid := users[uid].(serverId := Some(sid))];
      }
    }

    /** The effect of `register` on the tables: a new user under the fresh id `uid` with 100
        coins and no server, then an attempt to allocate a free server. */
    method Register(uid: UserId) returns (granted: Option<ServerId>)
      requires Valid() && uid !in users
      modifies this
      ensures Valid()
      ensures var registered := old(State()).(users := old(users)[uid := User(100, None)]);
        && (granted.None? ==> State() == registered && forall s :: !FreeSlot(registered, s))
        && (granted.Some? ==> FreeSlot(registered, granted.value)
                                && State() == Allocate(registered, uid, granted.value))
    {
      users := users[uid := User(100, None)];
      assert forall u, s :: Holds(State(), u, s) <==> Holds(old(State()), u, s);
      granted := AllocateFreeServer(uid);
    }

    /** The effect of a successful `login` on the tables: a user holding no server and with
        coins left is offered a free server; anyone else is left alone. */
    method Login(uid: UserId) returns (granted: Option<ServerId>)
      requires Valid() && uid in users
      modifies this
      ensures Valid()
      ensures !LoginAllocates(old(State()), uid) ==> granted == None && State() == old(State())
      ensures LoginAllocates(old(State()), uid) ==>
                && (granted.None? ==> State() == old(State()) && forall s :: !FreeSlot(old(State()), s))
                && (granted.Some? ==> FreeSlot(old(State()), granted.value)
                                        && State() == Allocate(old(State()), uid, granted.value))
    {
      granted := None;
      if users[uid].serverId.None? && users[uid].coins > 0 {
        granted := AllocateFreeServer(uid);
      }
    }

    /** `deallocate_server(uid)`, also what `logout` does for the session's user. */
    method Deallocate(uid: UserId)
      requires Valid()
      modifies this
      ensures Valid()
      ensures State() == FlaskModel.Deallocate(old(State()), uid)
    {
      DeallocateFrees(State(), uid);
      if uid in users && users[uid].serverId.Some? {
        var sid := users[uid].serverId.value;
        if sid in servers {
          servers := servers[sid := servers[sid].(isOccupied := false, occupiedBy := None)];
        }
        users := users[uid := users[uid].(serverId := None)];
      }
    }

    /** `deduct_coins`: each user holding a server when it starts is processed once, in the
        order `order`. */
    method DeductCoins() returns (ghost order: seq<UserId>)
      requires Valid()
      modifies this
      ensures Valid()
      ensures Distinct(order)
      ensures forall u :: u in order <==> u in old(users) && old(users)[u].serverId.Some?
      ensures State() == DeductRun(old(State()), order)
    {
      var pending := set u | u in users && users[u].serverId.Some?;
      ghost var start := State();
      order := [];
      while pending != {}
        invariant Valid()
        invariant users.Keys == start.users.Keys
        invariant State() == DeductRun(start, order)
        invariant Distinct(order)
        invariant forall u :: u in order ==> u !in pending
        invariant forall u :: u in order || u in pending <==> u in start.users && start.users[u].serverId.Some?
        decreases pending
      {
        var u :| u in pending;
        DeductStepKeepsConsistent(State(), u);
        if users[u].coins > 0 {
          users := users[u := users[u].(coins := users[u].coins - coinDeductionRate)];
          log := log + [Transaction(u, coinDeductionRate, users[u].serverId, Deduction)];
        } else {
          Deallocate(u);
        }
        assert (order + [u])[..|order|] == order;
        order := order + [u];
        pending := pending - {u};
      }
    }

    /** `purchase_server(sid)` for the logged-in user `uid`. */
    method PurchaseServer(uid: UserId, sid: ServerId) returns (r: PurchaseResult)
      requires Valid() && uid in users
      modifies this
      ensures Valid()
      ensures (r, State()) == FlaskModel.PurchaseServer(old(State()), uid, sid)
    {
      if sid !in servers || servers[sid].isOccupied {
        return NotAvailable;
      }
      if servers[sid].serverType == "free" {
        return FreeIsAutoAllocated;
      }
      if users[uid].coins < servers[sid].price {
        return InsufficientCoins;
      }
      PurchaseTransfers(State(), uid, sid);
      if users[uid].serverId.Some? {
        Deallocate(uid);
      }
      var price := servers[sid].price;
      servers := servers[sid := servers[sid].(isOccupied := true, occupiedBy := Some(uid))];
      users := users[uid := users[uid].(serverId := Some(sid))];
      users := users[uid := users[uid].(coins := users[uid].coins - price)];
      log := log + [Transaction(uid, price, Some(sid), Purchase)];
      r := Purchased;
    }

    /** `add_server`, storing the new row under the fresh id `sid`. */
    method AddServer(sid: ServerId, name: Option<string>, serverUrl: Option<string>,
                     serverType: Option<string>) returns (r: AdminResult)
      requires Valid() && sid !in servers
      modifies this
      ensures Valid()
      ensures (r, State()) == FlaskModel.AddServer(old(State()), sid, name, serverUrl, serverType)
    {
      AddServerPriced(State(), sid, name, serverUrl, serverType);
      if name.None? || serverUrl.None? || serverType.None? {
        return Invalid;
      }
      servers := servers[sid := Server(name.value, serverUrl.value, serverType.value, false, None,
                                       PriceFor(serverType.value))];
      r := Done;
    }

    /** `delete_server(sid)`: clear every user recording the server, then remove it. */
    method DeleteServer(sid: ServerId) returns (r: AdminResult)
      requires Valid()
      modifies this
      ensures Valid()
      ensures (r, State()) == FlaskModel.DeleteServer(old(State()), sid)
    {
      DeleteServerClears(State(), sid);
      if sid !in servers {
        return NotFound;
      }
      var pending := set u | u in users && users[u].serverId == Some(sid);
      while pending != {}
        invariant users.Keys == old(users).Keys
        invariant servers == old(servers) && log == old(log) && coinDeductionRate == old(coinDeductionRate)
        invariant forall u :: u in pending ==> u in users && users[u] == old(users)[u] && users[u].serverId == Some(sid)
        invariant forall u :: u in users && u !in pending ==> users[u] == ClearHolders(old(users), sid)[u]
        decreases pending
      {
        var u :| u in pending;
        users := users[u := users[u].(serverId := None)];
        pending := pending - {u};
      }
      assert users == ClearHolders(old(users), sid);
      servers := servers - {sid};
      r := Done;
    }

    /** `update_settings`: the deduction rate is replaced by the submitted integer. */
    method UpdateDeductionRate(rate: int)
      requires Valid()
      modifies this
      ensures Valid()
      ensures State() == old(State()).(coinDeductionRate := rate)
    {
      ghost var before := State();
      coinDeductionRate := rate;
      assert forall u, s :: Holds(State(), u, s) == Holds(before, u, s);
      assert forall u, s :: Occupies(State(), u, s) == Occupies(before, u, s);
    }

    /** `add_coins(uid)` with the submitted amount `coins`. */
    method AddCoins(uid: UserId, coins: int)
      requires Valid()
      modifies this
      ensures Valid()
      ensures State() == FlaskModel.AddCoins(old(State()), uid, coins)
    {
      AddCoinsOnlyAdds(State(), uid, coins);
      if uid in users && coins > 0 {
        users := users[uid := users[uid].(coins := users[uid].coins + coins)];
      }
    }
  }
}
