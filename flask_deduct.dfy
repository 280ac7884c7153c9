/** `deduct_coins` of the Flask variant (app.py): every user holding a server is charged
    the configured rate and a deduction is recorded, or, with no coins left, loses the
    server. The timer that triggers it is left out. */
module FlaskDeduct {
  import opened Common
  import opened FlaskModel

  /** The iteration for holder `uid`. A rate above the balance takes the coins negative. */
  function DeductStep(a: App, uid: UserId): App {
    if uid !in a.users then a
    else if a.users[uid].coins > 0 then
      a.(users := a.users[uid := a.users[uid].(coins := a.users[uid].coins - a.coinDeductionRate)],
         log := a.log + [Transaction(uid, a.coinDeductionRate, a.users[uid].serverId, Deduction)])
    else
      Deallocate(a, uid)
  }

  /** The loop over the holders, in the order `order` the query returned them. */
  function DeductRun(a: App, order: seq<UserId>): App
    decreases |order|
  {
    if order == [] then a
    else
      var n := |order| - 1;
      DeductStep(DeductRun(a, order[..n]), order[n])
  }

  /** The records a run over `order` should append, read off the state before the run:
      one deduction of the rate, naming the user's server, per user that had coins. */
  function DeductEntries(a: App, order: seq<UserId>): seq<Transaction>
    decreases |order|
  {
    if order == [] then []
    else
      var n := |order| - 1;
      var u := order[n];
      DeductEntries(a, order[..n]) +
        (if u in a.users && a.users[u].coins > 0
         then [Transaction(u, a.coinDeductionRate, a.users[u].serverId, Deduction)]
         else [])
  }

  /** One iteration keeps the tables consistent and only ever clears a user's server. */
  lemma DeductStepKeepsConsistent(a: App, uid: UserId)
    requires Consistent(a)
    ensures var b := DeductStep(a, uid);
      && Consistent(b)
      && b.servers.Keys == a.servers.Keys && b.users.Keys == a.users.Keys
      && b.coinDeductionRate == a.coinDeductionRate
      && (forall u, s :: Holds(b, u, s) ==> Holds(a, u, s))
  {
    DeallocateFrees(a, uid);
    var b := DeductStep(a, uid);
    if uid in a.users && a.users[uid].coins > 0 {
      forall u, s ensures Holds(b, u, s) <==> Holds(a, u, s) { }
      forall u, s ensures Occupies(b, u, s) <==> Occupies(a, u, s) { }
    }
  }

  /** A user outside `order` is not touched by the run, and nobody gains a server. */
  lemma {:induction false} DeductRunFrame(a: App, order: seq<UserId>, u: UserId)
    requires u in a.users && u !in order
    ensures var b := DeductRun(a, order);
      && b.users.Keys == a.users.Keys && b.servers.Keys == a.servers.Keys
      && b.coinDeductionRate == a.coinDeductionRate
      && b.users[u] == a.users[u]
    decreases |order|
  {
    if order != [] {
      var n := |order| - 1;
      assert order[n] in order;
      assert u !in order[..n];
      DeductRunFrame(a, order[..n], u);
    }
  }

  /** The whole run keeps the tables consistent, and no user gains a server. */
  lemma {:induction false} DeductRunKeepsConsistent(a: App, order: seq<UserId>)
    requires Consistent(a)
    ensures var b := DeductRun(a, order);
      && Consistent(b)
      && b.users.Keys == a.users.Keys && b.servers.Keys == a.servers.Keys
      && b.coinDeductionRate == a.coinDeductionRate
      && (forall u, s :: Holds(b, u, s) ==> Holds(a, u, s))
    decreases |order|
  {
    if order != [] {
      var n := |order| - 1;
      DeductRunKeepsConsistent(a, order[..n]);
      DeductStepKeepsConsistent(DeductRun(a, order[..n]), order[n]);
    }
  }

  /** In a run over holders without repeats, each holder that had coins is charged the rate
      once and keeps its server; each that had none keeps its coins and loses its server. */
  lemma {:induction false} DeductRunCharges(a: App, order: seq<UserId>, i: nat)
    requires Distinct(order) && i < |order| && order[i] in a.users
    ensures var u := order[i];
      var b := DeductRun(a, order);
      && u in b.users
      && (a.users[u].coins > 0 ==> b.users[u] == a.users[u].(coins := a.users[u].coins - a.coinDeductionRate))
      && (a.users[u].coins <= 0 ==> b.users[u] == a.users[u].(serverId := None))
    decreases |order|
  {
    var u := order[i];
    var n := |order| - 1;
    if i == n {
      assert u !in order[..n] by {
        forall j | 0 <= j < n ensures order[j] != u { }
      }
      DeductRunFrame(a, order[..n], u);
    } else {
      assert Distinct(order[..n]);
      assert order[..n][i] == u;
      DeductRunCharges(a, order[..n], i);
      assert order[n] != u;
    }
  }

  /** A run keeps both key sets and the rate. */
  lemma {:induction false} DeductRunKeys(a: App, order: seq<UserId>)
    ensures var b := DeductRun(a, order);
      b.users.Keys == a.users.Keys && b.servers.Keys == a.servers.Keys && b.coinDeductionRate == a.coinDeductionRate
    decreases |order|
  {
    if order != [] {
      DeductRunKeys(a, order[..|order| - 1]);
    }
  }

  /** The log after a run over holders without repeats is the log before it followed by
      exactly the deduction records `DeductEntries` reads off the starting state: nothing
      earlier is changed or dropped, and each charged holder is recorded once, in order. */
  lemma {:induction false} DeductRunLog(a: App, order: seq<UserId>)
    requires Distinct(order)
    ensures DeductRun(a, order).log == a.log + DeductEntries(a, order)
    decreases |order|
  {
    if order != [] {
      var n := |order| - 1;
      var v := order[n];
      var before := DeductRun(a, order[..n]);
      assert Distinct(order[..n]);
      DeductRunLog(a, order[..n]);
      DeductRunKeys(a, order[..n]);
      if v in a.users {
        assert v !in order[..n] by {
          forall j | 0 <= j < n ensures order[j] != v { }
        }
        DeductRunFrame(a, order[..n], v);
      }
    }
  }

  /** A holder that had no coins ends the run holding nothing, and the server it held is
      left unoccupied with no occupant. */
  lemma DeductRunFreesInsolvent(a: App, order: seq<UserId>, i: nat, s: ServerId)
    requires Consistent(a) && Distinct(order) && i < |order|
    requires Holds(a, order[i], s) && a.users[order[i]].coins <= 0
    ensures var b := DeductRun(a, order);
      && order[i] in b.users && b.users[order[i]].serverId == None
      && s in b.servers && !b.servers[s].isOccupied && b.servers[s].occupiedBy == None
  {
    var u := order[i];
    var b := DeductRun(a, order);
    DeductRunKeepsConsistent(a, order);
    DeductRunCharges(a, order, i);
    assert Occupies(a, u, s);
    forall w ensures !Occupies(b, w, s) {
      if Holds(b, w, s) {
        assert Holds(a, w, s) && Occupies(a, w, s);
      }
    }
    if b.servers[s].isOccupied {
      assert Occupies(b, b.servers[s].occupiedBy.value, s);
    }
  }
}
