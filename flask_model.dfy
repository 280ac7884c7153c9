/** The Flask variant (app.py): servers with a type and a price, users holding at most one
    server, the deduction rate setting and the append-only transaction log, with the
    handlers' effects on them as functions. */
module FlaskModel {
  import opened Common

  type ServerId = nat
  type UserId = nat

  datatype Server = Server(name: string, serverUrl: string, serverType: string,
                           isOccupied: bool, occupiedBy: Option<UserId>, price: int)

  datatype User = User(coins: int, serverId: Option<ServerId>)

  datatype TransactionType = Purchase | Deduction | Refund

  datatype Transaction = Transaction(userId: UserId, amount: int, serverId: Option<ServerId>,
                                     transactionType: TransactionType)

  /** The database: both tables, `coin_deduction_rate` of the settings row, and the log. */
  datatype App = App(servers: map<ServerId, Server>, users: map<UserId, User>,
                     coinDeductionRate: int, log: seq<Transaction>)

  /** The price `add_server` gives each server type; any other type costs nothing. */
  const PriceMap: map<string, int> := map["free" := 0, "paid_5" := 5, "paid_10" := 10, "paid_15" := 15]

  function PriceFor(serverType: string): (price: int)
    ensures 0 <= price <= 15
    ensures serverType == "free" ==> price == 0
    ensures serverType !in PriceMap ==> price == 0
    ensures price == 15 <==> serverType == "paid_15"
    ensures serverType == "paid_5" ==> price == 5
    ensures serverType == "paid_10" ==> price == 10
  {
    if serverType in PriceMap then PriceMap[serverType] else 0
  }

  /** Server `s` is marked occupied by user `u`. */
  predicate Occupies(a: App, u: UserId, s: ServerId) {
    s in a.servers && a.servers[s].isOccupied && a.servers[s].occupiedBy == Some(u)
  }

  /** User `u` records server `s` as its own. */
  predicate Holds(a: App, u: UserId, s: ServerId) {
    u in a.users && a.users[u].serverId == Some(s)
  }

  /** The two-sided agreement between the server table and the user table: a server is
      occupied by `u` exactly when `u` holds it; the occupied flag and the occupant agree;
      and every price is the one its type maps to. */
  ghost predicate Consistent(a: App) {
    && (forall s :: s in a.servers ==> (a.servers[s].isOccupied <==> a.servers[s].occupiedBy.Some?))
    && (forall s :: s in a.servers ==> a.servers[s].price == PriceFor(a.servers[s].serverType))
    && (forall u, s :: Holds(a, u, s) <==> Occupies(a, u, s))
  }

  /** A server `allocate_free_server` may pick: of type free and not occupied. */
  predicate FreeSlot(a: App, s: ServerId) {
    s in a.servers && a.servers[s].serverType == "free" && !a.servers[s].isOccupied
  }

  /** `allocate_free_server` once it has found server `sid`: the server is marked occupied
      by `uid` and the user records it. */
  function Allocate(a: App, uid: UserId, sid: ServerId): App
    requires uid in a.users && sid in a.servers
  {
    a.(servers := a.servers[sid := a.servers[sid].(isOccupied := true, occupiedBy := Some(uid))],
       users := a.users[uid := a.users[uid].(serverId := Some(sid))])
  }

  /** Allocating to a user holding nothing a server nobody occupies keeps the tables
      consistent; the user then holds exactly that server, and nothing else changes. */
  lemma AllocateKeepsConsistent(a: App, uid: UserId, sid: ServerId)
    requires Consistent(a) && uid in a.users && a.users[uid].serverId.None?
    requires sid in a.servers && !a.servers[sid].isOccupied
    ensures var b := Allocate(a, uid, sid);
      && Consistent(b)
      && (forall s :: Holds(b, uid, s) <==> s == sid)
      && Occupies(b, uid, sid)
      && b.users[uid].coins == a.users[uid].coins
      && b.servers.Keys == a.servers.Keys && b.users.Keys == a.users.Keys
      && (forall s :: s in a.servers && s != sid ==> b.servers[s] == a.servers[s])
      && (forall u :: u in a.users && u != uid ==> b.users[u] == a.users[u])
      && b.log == a.log && b.coinDeductionRate == a.coinDeductionRate
  {
    var b := Allocate(a, uid, sid);
    forall u, s ensures Holds(b, u, s) <==> Occupies(b, u, s) {
      if u != uid && s != sid {
        assert Holds(b, u, s) == Holds(a, u, s);
        assert Occupies(b, u, s) == Occupies(a, u, s);
      } else if u != uid {
        assert !Occupies(b, u, s);
        assert Holds(a, u, s) <==> Occupies(a, u, s);
      } else if s != sid {
        assert !Holds(b, u, s);
        assert Holds(a, u, s) <==> Occupies(a, u, s);
      }
    }
  }

  /** `deallocate_server`: a missing user, or one holding no server, is left alone;
      otherwise the server it records (if it still exists) is unmarked and the user's
      record cleared. */
  function Deallocate(a: App, uid: UserId): App {
    if uid !in a.users || a.users[uid].serverId.None? then a
    else
      var sid := a.users[uid].serverId.value;
      var servers := if sid in a.servers
                     then a.servers[sid := a.servers[sid].(isOccupied := false, occupiedBy := None)]
                     else a.servers;
      a.(servers := servers, users := a.users[uid := a.users[uid].(serverId := None)])
  }

  /** Deallocation keeps the tables consistent, frees the server the user held and clears
      the user's record, changing nothing else; for a user without a server it does nothing. */
  lemma DeallocateFrees(a: App, uid: UserId)
    requires Consistent(a)
    ensures var b := Deallocate(a, uid);
      && Consistent(b)
      && b.servers.Keys == a.servers.Keys && b.users.Keys == a.users.Keys
      && b.log == a.log && b.coinDeductionRate == a.coinDeductionRate
      && (forall s :: !Holds(b, uid, s))
      && (forall s :: s in a.servers && !Holds(a, uid, s) ==> b.servers[s] == a.servers[s])
      && (forall s :: Holds(a, uid, s) ==> !b.servers[s].isOccupied && b.servers[s].occupiedBy == None)
      && (forall u :: u in a.users && u != uid ==> b.users[u] == a.users[u])
      && (uid in a.users ==> b.users[uid] == a.users[uid].(serverId := None))
      && (uid !in a.users || a.users[uid].serverId.None? ==> b == a)
  {
    var b := Deallocate(a, uid);
    if uid in a.users && a.users[uid].serverId.Some? {
      var sid := a.users[uid].serverId.value;
      assert Holds(a, uid, sid) && Occupies(a, uid, sid);
      forall u, s ensures Holds(b, u, s) <==> Occupies(b, u, s) {
        if u != uid && s != sid {
          assert Holds(b, u, s) == Holds(a, u, s);
          assert Occupies(b, u, s) == Occupies(a, u, s);
        } else if u != uid || s != sid {
          assert Holds(a, u, s) <==> Occupies(a, u, s);
        }
      }
    } else if uid in a.users {
      assert b == a;
      forall s | Holds(a, uid, s) ensures false { }
    }
  }

  datatype PurchaseResult = Purchased | NotAvailable | FreeIsAutoAllocated | InsufficientCoins

  /** `purchase_server` for the logged-in user `uid` and server `sid`: the checks in the
      handler's order, then release of the current server, payment, occupation and a
      purchase record. */
  function PurchaseServer(a: App, uid: UserId, sid: ServerId): (PurchaseResult, App)
    requires uid in a.users
  {
    if sid !in a.servers || a.servers[sid].isOccupied then (NotAvailable, a)
    else if a.servers[sid].serverType == "free" then (FreeIsAutoAllocated, a)
    else if a.users[uid].coins < a.servers[sid].price then (InsufficientCoins, a)
    else
      var released := Deallocate(a, uid);
      var price := released.servers[sid].price;
      var occupied := Allocate(released, uid, sid);
      (Purchased,
       occupied.(users := occupied.users[uid := occupied.users[uid].(coins := occupied.users[uid].coins - price)],
                 log := occupied.log + [Transaction(uid, price, Some(sid), Purchase)]))
  }

  /** The purchase checks fail in the handler's order and a failed purchase changes nothing. */
  lemma PurchaseRefusals(a: App, uid: UserId, sid: ServerId)
    requires uid in a.users
    ensures var (r, b) := PurchaseServer(a, uid, sid);
      && (r == NotAvailable <==> sid !in a.servers || a.servers[sid].isOccupied)
      && (r == FreeIsAutoAllocated <==>
            sid in a.servers && !a.servers[sid].isOccupied && a.servers[sid].serverType == "free")
      && (r == InsufficientCoins <==>
            && sid in a.servers && !a.servers[sid].isOccupied && a.servers[sid].serverType != "free"
            && a.users[uid].coins < a.servers[sid].price)
      && (r != Purchased ==> b == a)
  {
  }

  /** A purchase keeps the tables consistent and leaves the buyer holding exactly the new
      server, paid for: coins down by the price and never below zero, the previous server
      (if any) released, one purchase record appended for the price. */
  lemma PurchaseTransfers(a: App, uid: UserId, sid: ServerId)
    requires Consistent(a) && uid in a.users && PurchaseServer(a, uid, sid).0 == Purchased
    ensures var b := PurchaseServer(a, uid, sid).1;
      && Consistent(b)
      && (forall s :: Holds(b, uid, s) <==> s == sid)
      && Occupies(b, uid, sid)
      && b.users[uid].coins == a.users[uid].coins - a.servers[sid].price
      && b.users[uid].coins >= 0
      && (forall s :: Holds(a, uid, s) ==> !b.servers[s].isOccupied)
      && (forall u :: u in a.users && u != uid ==> b.users[u] == a.users[u])
      && b.servers.Keys == a.servers.Keys && b.users.Keys == a.users.Keys
      && (forall s :: s in a.servers && s != sid && !Holds(a, uid, s) ==> b.servers[s] == a.servers[s])
      && b.coinDeductionRate == a.coinDeductionRate
      && b.log == a.log + [Transaction(uid, a.servers[sid].price, Some(sid), Purchase)]
  {
    var released := Deallocate(a, uid);
    DeallocateFrees(a, uid);
    assert Holds(a, uid, sid) <==> Occupies(a, uid, sid);
    AllocateKeepsConsistent(released, uid, sid);
    var occupied := Allocate(released, uid, sid);
    var b := PurchaseServer(a, uid, sid).1;
    assert b.servers == occupied.servers;
    forall u, s ensures Holds(b, u, s) <==> Holds(occupied, u, s) { }
    forall u, s ensures Occupies(b, u, s) <==> Occupies(occupied, u, s) { }
  }

  datatype AdminResult = Done | NotFound | Invalid

  /** `add_server` storing under the fresh id `sid`: the form fields are required by the
      table (a missing one makes the insert fail); the price comes from the type. */
  function AddServer(a: App, sid: ServerId, name: Option<string>, serverUrl: Option<string>,
                     serverType: Option<string>): (AdminResult, App)
    requires sid !in a.servers
  {
    if name.None? || serverUrl.None? || serverType.None? then (Invalid, a)
    else
      (Done, a.(servers := a.servers[sid := Server(name.value, serverUrl.value, serverType.value,
                                                    false, None, PriceFor(serverType.value))]))
  }

  /** A new server is unoccupied, priced from its type, and the tables stay consistent. */
  lemma AddServerPriced(a: App, sid: ServerId, name: Option<string>, serverUrl: Option<string>,
                        serverType: Option<string>)
    requires Consistent(a) && sid !in a.servers
    ensures var (r, b) := AddServer(a, sid, name, serverUrl, serverType);
      && Consistent(b)
      && (r == Done <==> name.Some? && serverUrl.Some? && serverType.Some?)
      && (r != Done ==> b == a)
      && (r == Done ==>
            && b.servers.Keys == a.servers.Keys + {sid}
            && !b.servers[sid].isOccupied && b.servers[sid].occupiedBy == None
            && b.servers[sid].price == PriceFor(serverType.value)
            && (forall s :: s in a.servers ==> b.servers[s] == a.servers[s])
            && b.users == a.users && b.log == a.log && b.coinDeductionRate == a.coinDeductionRate)
  {
    var (r, b) := AddServer(a, sid, name, serverUrl, serverType);
    if r == Done {
      forall u, s ensures Holds(b, u, s) <==> Occupies(b, u, s) {
        if s == sid {
          assert Holds(a, u, s) <==> Occupies(a, u, s);
        } else {
          assert Occupies(b, u, s) == Occupies(a, u, s);
        }
      }
    }
  }

  /** The users table with every record of server `sid` cleared. */
  function ClearHolders(users: map<UserId, User>, sid: ServerId): map<UserId, User> {
    map u | u in users :: if users[u].serverId == Some(sid) then users[u].(serverId := None) else users[u]
  }

  /** `delete_server`: a missing server is ignored; otherwise every user recording it is
      cleared and the server removed. */
  function DeleteServer(a: App, sid: ServerId): (AdminResult, App) {
    if sid !in a.servers then (NotFound, a)
    else (Done, a.(servers := a.servers - {sid}, users := ClearHolders(a.users, sid)))
  }

  /** Deleting a server keeps the tables consistent: nobody holds it afterwards, its former
      occupant holds nothing, and every other record is unchanged. */
  lemma DeleteServerClears(a: App, sid: ServerId)
    requires Consistent(a)
    ensures var (r, b) := DeleteServer(a, sid);
      && Consistent(b)
      && (r == NotFound <==> sid !in a.servers)
      && (r == NotFound ==> b == a)
      && b.servers.Keys == a.servers.Keys - {sid} && b.users.Keys == a.users.Keys
      && (forall s :: s in b.servers ==> b.servers[s] == a.servers[s])
      && b.coinDeductionRate == a.coinDeductionRate
      && (forall u :: !Holds(b, u, sid))
      && (forall u :: Occupies(a, u, sid) ==> b.users[u].serverId.None?)
      && (forall u :: u in a.users && !Holds(a, u, sid) ==> b.users[u] == a.users[u])
      && (forall u :: u in a.users ==> b.users[u].coins == a.users[u].coins)
      && b.log == a.log
  {
    var (r, b) := DeleteServer(a, sid);
    if r == Done {
      forall u, s ensures Holds(b, u, s) <==> Occupies(b, u, s) {
        if s != sid {
          assert Holds(b, u, s) == Holds(a, u, s);
          assert Occupies(b, u, s) == Occupies(a, u, s);
        }
      }
    }
  }

  /** `add_coins`: only a strictly positive amount for an existing user is added. */
  function AddCoins(a: App, uid: UserId, coins: int): App {
    if uid in a.users && coins > 0
    then a.(users := a.users[uid := a.users[uid].(coins := a.users[uid].coins + coins)])
    else a
  }

  /** Adding coins never lowers a balance, changes only the addressed user's balance, and
      keeps the tables consistent. */
  lemma AddCoinsOnlyAdds(a: App, uid: UserId, coins: int)
    requires Consistent(a)
    ensures var b := AddCoins(a, uid, coins);
      && Consistent(b)
      && b.servers == a.servers && b.users.Keys == a.users.Keys && b.log == a.log
      && (forall u :: u in a.users ==> b.users[u].coins >= a.users[u].coins)
      && (forall u :: u in a.users ==> b.users[u].serverId == a.users[u].serverId)
      && (forall u :: u in a.users && u != uid ==> b.users[u] == a.users[u])
      && b.coinDeductionRate == a.coinDeductionRate
      && (uid in a.users && coins > 0 ==> b.users[uid].coins == a.users[uid].coins + coins)
      && (uid !in a.users || coins <= 0 ==> b == a)
  {
    var b := AddCoins(a, uid, coins);
    forall u, s ensures Holds(b, u, s) <==> Holds(a, u, s) { }
  }

  /** Login tries an allocation only for a user holding no server and with coins left. */
  predicate LoginAllocates(a: App, uid: UserId)
    requires uid in a.users
  {
    a.users[uid].serverId.None? && a.users[uid].coins > 0
  }
}
