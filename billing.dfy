/** The hourly billing job of the Express backend (the cron body in backend/server.js):
    for each server active when the job starts, charge its owner one coin, or, when the
    owner has no coins left, free the server and hand it to the waiting user with the most
    coins. The wall clock and the schedule are left out: `now` is a parameter. */
module Billing {
  import opened Common
  import opened ServerModel
  import opened PoolState
  import opened ServerRoutes

  /** `pick` is a possible answer of the waiting-user query (users without the flag, most
      coins first, first one taken): nothing when every user has the flag set, otherwise a
      user without the flag whose coins are the highest among such users. Which of several
      equally rich users is returned is not specified, so any of them is allowed. */
  ghost predicate IsTopWaiting(users: map<UserId, User>, pick: Option<UserId>) {
    match pick
    case None => forall u :: u in users ==> users[u].hasActiveServer
    case Some(w) =>
      && w in users && !users[w].hasActiveServer
      && forall u :: u in users && !users[u].hasActiveServer ==> users[u].coins <= users[w].coins
  }

  /** A finite non-empty set of users has a member with the most coins. */
  lemma {:induction false} MostCoinsExists(users: map<UserId, User>, candidates: set<UserId>)
    requires candidates != {} && candidates <= users.Keys
    ensures exists w :: w in candidates && forall u :: u in candidates ==> users[u].coins <= users[w].coins
    decreases candidates
  {
    var x :| x in candidates;
    var rest := candidates - {x};
    if rest == {} {
      assert candidates == {x};
      assert forall u :: u in candidates ==> users[u].coins <= users[x].coins;
    } else {
      MostCoinsExists(users, rest);
      var w :| w in rest && forall u :: u in rest ==> users[u].coins <= users[w].coins;
      if users[x].coins <= users[w].coins {
        assert forall u :: u in candidates ==> users[u].coins <= users[w].coins;
      } else {
        assert forall u :: u in candidates ==> users[u].coins <= users[x].coins;
      }
    }
  }

  /** The waiting-user query always has an answer. */
  lemma TopWaitingExists(users: map<UserId, User>)
    ensures exists pick :: IsTopWaiting(users, pick)
  {
    var waiting := set u | u in users && !users[u].hasActiveServer;
    if waiting == {} {
      forall u | u in users ensures users[u].hasActiveServer {
        assert u !in waiting;
      }
      assert IsTopWaiting(users, None);
    } else {
      MostCoinsExists(users, waiting);
      var w :| w in waiting && forall u :: u in waiting ==> users[u].coins <= users[w].coins;
      assert IsTopWaiting(users, Some(w));
    }
  }

  /** The step for server `sid` evicts its owner: the owner exists and has no coins left. */
  ghost predicate Evicts(p: Pool, sid: ServerId) {
    && sid in p.servers && p.servers[sid].userId.Some?
    && p.servers[sid].userId.value in p.users
    && p.users[p.servers[sid].userId.value].coins <= 0
  }

  /** One iteration of the job, for server `sid` of the snapshot, with `pick` the answer of
      the waiting-user query (consulted only on eviction). A server with no owner is skipped.
      The evicted owner keeps its flag and its coins; the new owner keeps its coins. */
  function TickStep(p: Pool, sid: ServerId, pick: Option<UserId>, now: Time): Pool {
    if sid !in p.servers || p.servers[sid].userId.None? then p
    else
      var u := p.servers[sid].userId.value;
      if u !in p.users then p
      else if p.users[u].coins <= 0 then
        var freed := Vacated(p, sid);
        if pick.Some? && pick.value in p.users && p.users[pick.value].coins > 0
        then Grant(freed, pick.value, sid, now)
        else freed
      else p.(users := p.users[u := p.users[u].(coins := p.users[u].coins - 1)])
  }

  /** One step keeps the invariant, the two key sets, and every other server. */
  lemma TickStepKeepsInv(p: Pool, sid: ServerId, pick: Option<UserId>, now: Time)
    requires Inv(p)
    requires Evicts(p, sid) ==> IsTopWaiting(p.users, pick)
    ensures var q := TickStep(p, sid, pick, now);
      && Inv(q)
      && q.servers.Keys == p.servers.Keys && q.users.Keys == p.users.Keys
      && (forall s :: s in p.servers && s != sid ==> q.servers[s] == p.servers[s])
  {
    if Evicts(p, sid) {
      VacateKeepsInv(p, sid);
      var freed := Vacated(p, sid);
      if pick.Some? && pick.value in p.users && p.users[pick.value].coins > 0 {
        assert ServerOk(p.servers[sid]);
        GrantKeepsInv(freed, pick.value, sid, now);
      }
    }
  }

  /** An owner with coins left is charged exactly one coin and keeps the server; nothing
      else changes. */
  lemma TickStepCharges(p: Pool, sid: ServerId, pick: Option<UserId>, now: Time, u: UserId)
    requires Inv(p) && Owns(p.servers, u, sid) && p.users[u].coins > 0
    ensures var q := TickStep(p, sid, pick, now);
      && q.servers == p.servers
      && q.users == p.users[u := p.users[u].(coins := p.users[u].coins - 1)]
      && q.users[u].hasActiveServer
  {
  }

  /** An owner without coins loses the server but keeps its coins and its flag. The server
      goes to the waiting user with the most coins when that user has coins left; that user's
      flag is set and its coins are untouched. Otherwise the server stays free. */
  lemma TickStepEvicts(p: Pool, sid: ServerId, pick: Option<UserId>, now: Time, u: UserId)
    requires Inv(p) && Owns(p.servers, u, sid) && p.users[u].coins <= 0
    requires IsTopWaiting(p.users, pick)
    ensures var q := TickStep(p, sid, pick, now);
      && q.users[u] == p.users[u]
      && (forall s :: !Owns(q.servers, u, s))
      && (forall s :: s in p.servers && s != sid ==> q.servers[s] == p.servers[s])
      && (pick.Some? && p.users[pick.value].coins > 0 ==>
            var w := pick.value;
            && w != u
            && (forall v :: v in p.users && !p.users[v].hasActiveServer ==> p.users[v].coins <= p.users[w].coins)
            && q.servers[sid] == Assign(p.servers[sid], w, now)
            && q.users == p.users[w := p.users[w].(hasActiveServer := true)])
      && (!(pick.Some? && p.users[pick.value].coins > 0) ==>
            q.servers[sid] == Vacate(p.servers[sid]) && q.users == p.users)
  {
    var q := TickStep(p, sid, pick, now);
    forall s | Owns(q.servers, u, s) ensures false {
      assert s != sid;
      assert Owns(p.servers, u, s);
    }
  }

  /** The owner evicted by the job is left stranded: its flag is still set although it owns
      no active server, so its own request is refused as already assigned and its own release
      as having no active server. The converse of the invariant's flag clause fails here. */
  lemma EvictedOwnerIsStranded(p: Pool, sid: ServerId, pick: Option<UserId>, now: Time, u: UserId)
    requires Inv(p) && Owns(p.servers, u, sid) && p.users[u].coins <= 0
    requires IsTopWaiting(p.users, pick)
    ensures var q := TickStep(p, sid, pick, now);
      && u in q.users && q.users[u].hasActiveServer
      && (forall s :: !Owns(q.servers, u, s))
      && RequestOutcome(q, u) == AlreadyAssigned
      && ReleaseOutcome(q, u) == NoActiveServer
  {
    TickStepEvicts(p, sid, pick, now, u);
  }

  /** The job run over the snapshot in the order `order`, with `picks[i]` the waiting-user
      answer at step `i`. */
  function TickRun(p: Pool, order: seq<ServerId>, picks: seq<Option<UserId>>, now: Time): Pool
    requires |picks| == |order|
    decreases |order|
  {
    if order == [] then p
    else
      var n := |order| - 1;
      TickStep(TickRun(p, order[..n], picks[..n], now), order[n], picks[n], now)
  }

  /** Every pick used for an eviction is a possible answer of the waiting-user query at
      that moment of the run. */
  ghost predicate PicksValid(p: Pool, order: seq<ServerId>, picks: seq<Option<UserId>>, now: Time)
    requires |picks| == |order|
    decreases |order|
  {
    order == [] ||
      var n := |order| - 1;
      var before := TickRun(p, order[..n], picks[..n], now);
      && PicksValid(p, order[..n], picks[..n], now)
      && (Evicts(before, order[n]) ==> IsTopWaiting(before.users, picks[n]))
  }

  /** A run over `a` then `b` is a run over `a` followed by a run over `b`. */
  lemma {:induction false} TickRunSplit(p: Pool, a: seq<ServerId>, ka: seq<Option<UserId>>,
                                        b: seq<ServerId>, kb: seq<Option<UserId>>, now: Time)
    requires |ka| == |a| && |kb| == |b|
    ensures TickRun(p, a + b, ka + kb, now) == TickRun(TickRun(p, a, ka, now), b, kb, now)
    ensures PicksValid(p, a + b, ka + kb, now) <==>
              PicksValid(p, a, ka, now) && PicksValid(TickRun(p, a, ka, now), b, kb, now)
    decreases |b|
  {
    if b == [] {
      assert a + b == a && ka + kb == ka;
    } else {
      var n := |b| - 1;
      assert (a + b)[..|a| + n] == a + b[..n];
      assert (ka + kb)[..|a| + n] == ka + kb[..n];
      assert (a + b)[|a| + n] == b[n] && (ka + kb)[|a| + n] == kb[n];
      TickRunSplit(p, a, ka, b[..n], kb[..n], now);
    }
  }

  /** The whole run keeps the invariant and both key sets. */
  lemma {:induction false} TickRunKeepsInv(p: Pool, order: seq<ServerId>, picks: seq<Option<UserId>>, now: Time)
    requires Inv(p) && |picks| == |order| && PicksValid(p, order, picks, now)
    ensures var q := TickRun(p, order, picks, now);
      Inv(q) && q.servers.Keys == p.servers.Keys && q.users.Keys == p.users.Keys
    decreases |order|
  {
    if order != [] {
      var n := |order| - 1;
      TickRunKeepsInv(p, order[..n], picks[..n], now);
      TickStepKeepsInv(TickRun(p, order[..n], picks[..n], now), order[n], picks[n], now);
    }
  }

  /** A server outside the snapshot is not touched by the run. */
  lemma {:induction false} TickRunFrame(p: Pool, order: seq<ServerId>, picks: seq<Option<UserId>>, now: Time, s: ServerId)
    requires |picks| == |order| && s !in order
    ensures var q := TickRun(p, order, picks, now);
      q.servers.Keys == p.servers.Keys && (s in p.servers ==> q.servers[s] == p.servers[s])
    decreases |order|
  {
    if order != [] {
      var n := |order| - 1;
      assert order[n] in order;
      assert s !in order[..n];
      TickRunFrame(p, order[..n], picks[..n], now, s);
    }
  }

  /** A user with the flag set whose servers (if any) are outside `order` is not touched by
      a run over `order`, and owns afterwards exactly what it owned before. */
  lemma {:induction false} TickRunUntouchedUser(p: Pool, order: seq<ServerId>, picks: seq<Option<UserId>>,
                                                now: Time, u: UserId)
    requires Inv(p) && |picks| == |order| && PicksValid(p, order, picks, now)
    requires u in p.users && p.users[u].hasActiveServer
    requires forall s :: Owns(p.servers, u, s) ==> s !in order
    ensures var q := TickRun(p, order, picks, now);
      && u in q.users && q.users[u] == p.users[u]
      && (forall s :: Owns(q.servers, u, s) <==> Owns(p.servers, u, s))
    decreases |order|
  {
    if order != [] {
      var n := |order| - 1;
      var before := TickRun(p, order[..n], picks[..n], now);
      assert order[n] in order;
      forall s | Owns(p.servers, u, s) ensures s !in order[..n] {
        assert s !in order;
      }
      TickRunUntouchedUser(p, order[..n], picks[..n], now, u);
      TickRunKeepsInv(p, order[..n], picks[..n], now);
      TickStepKeepsInv(before, order[n], picks[n], now);
      var sid := order[n];
      var q := TickStep(before, sid, picks[n], now);
      assert !Owns(before.servers, u, sid);
      if Evicts(before, sid) {
        var v := before.servers[sid].userId.value;
        assert ServerOk(before.servers[sid]);
        assert Owns(before.servers, v, sid);
        assert v != u;
        if picks[n].Some? {
          assert picks[n].value != u;
        }
        forall s ensures Owns(q.servers, u, s) <==> Owns(before.servers, u, s) {
          if s == sid {
            assert !Owns(q.servers, u, s);
          }
        }
      } else if sid in before.servers && before.servers[sid].userId.Some? {
        var v := before.servers[sid].userId.value;
        assert ServerOk(before.servers[sid]);
        assert Owns(before.servers, v, sid);
        assert v != u;
      }
    }
  }

  /** A run over a snapshot without repeats, cut at its `i`-th step: the run up to that
      step, the step itself with a valid pick, and the rest of the run, none of which
      revisits the `i`-th server. */
  lemma TickRunAt(p: Pool, order: seq<ServerId>, picks: seq<Option<UserId>>, now: Time, i: nat)
    requires |picks| == |order| && PicksValid(p, order, picks, now) && Distinct(order) && i < |order|
    ensures var pa := TickRun(p, order[..i], picks[..i], now);
      var ps := TickStep(pa, order[i], picks[i], now);
      && PicksValid(p, order[..i], picks[..i], now)
      && (Evicts(pa, order[i]) ==> IsTopWaiting(pa.users, picks[i]))
      && PicksValid(ps, order[i + 1..], picks[i + 1..], now)
      && TickRun(p, order, picks, now) == TickRun(ps, order[i + 1..], picks[i + 1..], now)
      && order[i] !in order[..i] && order[i] !in order[i + 1..]
  {
    var sid, k := order[i], picks[i];
    var a, b := order[..i], order[i + 1..];
    var ka, kb := picks[..i], picks[i + 1..];
    assert order == a + [sid] + b;
    assert picks == ka + [k] + kb;
    TickRunSplit(p, a + [sid], ka + [k], b, kb, now);
    TickRunSplit(p, a, ka, [sid], [k], now);
    var pa := TickRun(p, a, ka, now);
    assert [sid][..0] == [];
    assert [k][..0] == picks[..0];
    assert TickRun(pa, [sid], [k], now) == TickStep(pa, sid, k, now);
    assert PicksValid(pa, [sid], [k], now);
    assert sid !in a by {
      forall j | 0 <= j < i ensures a[j] != sid { }
    }
    assert sid !in b by {
      forall j | 0 <= j < |b| ensures b[j] != sid { assert b[j] == order[i + 1 + j]; }
    }
  }

  /** In a run over a snapshot without repeats, the owner of the `i`-th server, if it has
      coins left when the run starts, ends it charged exactly one coin and still owning the
      server, which is unchanged. */
  lemma SolventOwnerCharged(p: Pool, order: seq<ServerId>, picks: seq<Option<UserId>>, now: Time,
                            i: nat, u: UserId)
    requires Inv(p) && |picks| == |order| && PicksValid(p, order, picks, now) && Distinct(order)
    requires i < |order| && Owns(p.servers, u, order[i]) && p.users[u].coins > 0
    ensures var q := TickRun(p, order, picks, now);
      && q.servers.Keys == p.servers.Keys && q.users.Keys == p.users.Keys
      && q.servers[order[i]] == p.servers[order[i]]
      && q.users[u] == p.users[u].(coins := p.users[u].coins - 1)
  {
    var sid := order[i];
    TickRunAt(p, order, picks, now, i);
    TickRunKeepsInv(p, order, picks, now);
    var pa := TickRun(p, order[..i], picks[..i], now);
    TickRunFrame(p, order[..i], picks[..i], now, sid);
    TickRunUntouchedUser(p, order[..i], picks[..i], now, u);
    TickRunKeepsInv(p, order[..i], picks[..i], now);
    var ps := TickStep(pa, sid, picks[i], now);
    TickStepCharges(pa, sid, picks[i], now, u);
    TickStepKeepsInv(pa, sid, picks[i], now);
    TickRunFrame(ps, order[i + 1..], picks[i + 1..], now, sid);
    TickRunUntouchedUser(ps, order[i + 1..], picks[i + 1..], now, u);
  }

  /** In a run over a snapshot without repeats, the owner of the `i`-th server, if it has no
      coins when the run starts, ends it with its coins and its flag as they were but owning
      no server; the server ends free with its assignment time kept, or active for another
      user and stamped `now`. */
  lemma InsolventOwnerEvicted(p: Pool, order: seq<ServerId>, picks: seq<Option<UserId>>, now: Time,
                              i: nat, u: UserId)
    requires Inv(p) && |picks| == |order| && PicksValid(p, order, picks, now) && Distinct(order)
    requires i < |order| && Owns(p.servers, u, order[i]) && p.users[u].coins <= 0
    ensures var q := TickRun(p, order, picks, now);
      && q.servers.Keys == p.servers.Keys && q.users.Keys == p.users.Keys
      && q.users[u] == p.users[u]
      && (forall s :: !Owns(q.servers, u, s))
      && (|| q.servers[order[i]] == Vacate(p.servers[order[i]])
          || exists w :: w != u && q.servers[order[i]] == Assign(p.servers[order[i]], w, now))
  {
    var sid := order[i];
    TickRunAt(p, order, picks, now, i);
    TickRunKeepsInv(p, order, picks, now);
    var pa := TickRun(p, order[..i], picks[..i], now);
    TickRunFrame(p, order[..i], picks[..i], now, sid);
    TickRunUntouchedUser(p, order[..i], picks[..i], now, u);
    TickRunKeepsInv(p, order[..i], picks[..i], now);
    var ps := TickStep(pa, sid, picks[i], now);
    assert Evicts(pa, sid);
    TickStepEvicts(pa, sid, picks[i], now, u);
    TickStepKeepsInv(pa, sid, picks[i], now);
    TickRunFrame(ps, order[i + 1..], picks[i + 1..], now, sid);
    TickRunUntouchedUser(ps, order[i + 1..], picks[i + 1..], now, u);
    if picks[i].Some? && pa.users[picks[i].value].coins > 0 {
      assert ps.servers[sid] == Assign(p.servers[sid], picks[i].value, now);
    }
  }

  /** A user without the flag when the run starts pays nothing during the run; any server
      it owns at the end is one of the snapshot's, handed to it by a reallocation. */
  lemma {:induction false} TickRunSparesWaiting(p: Pool, order: seq<ServerId>, picks: seq<Option<UserId>>,
                                                now: Time, u: UserId)
    requires Inv(p) && |picks| == |order| && PicksValid(p, order, picks, now) && Distinct(order)
    requires u in p.users && !p.users[u].hasActiveServer
    ensures var q := TickRun(p, order, picks, now);
      && u in q.users && q.users[u].coins == p.users[u].coins
      && (forall s :: Owns(q.servers, u, s) ==> s in order)
    decreases |order|
  {
    if order != [] {
      var n := |order| - 1;
      var sid := order[n];
      var before := TickRun(p, order[..n], picks[..n], now);
      assert Distinct(order[..n]);
      assert sid !in order[..n];
      TickRunSparesWaiting(p, order[..n], picks[..n], now, u);
      TickRunKeepsInv(p, order[..n], picks[..n], now);
      TickStepKeepsInv(before, sid, picks[n], now);
      var q := TickStep(before, sid, picks[n], now);
      if sid in before.servers && before.servers[sid].userId.Some? {
        var v := before.servers[sid].userId.value;
        assert ServerOk(before.servers[sid]);
        assert Owns(before.servers, v, sid);
        assert v != u;
      }
      forall s | Owns(q.servers, u, s) ensures s in order {
        if s != sid {
          assert Owns(before.servers, u, s);
          assert s in order[..n];
        }
      }
    }
  }

  /** One server owned by user 1, who has no coins, and user 2 waiting with five coins: the
      job hands the server to user 2, whose coins stay five, and leaves user 1's flag set. */
  lemma InsolvencyExample()
    ensures var p := Pool(map[7 := Server("bot", "https://host", "login", "secret", Some(1), Active, Some(0))],
                          map[1 := User(0, true), 2 := User(5, false)]);
      var q := TickRun(p, [7], [Some(2)], 60);
      && Inv(p) && PicksValid(p, [7], [Some(2)], 60)
      && q.servers[7].userId == Some(2) && q.servers[7].status == Active && q.servers[7].assignedAt == Some(60)
      && q.users[2] == User(5, true)
      && q.users[1] == User(0, true)
  {
    var p := Pool(map[7 := Server("bot", "https://host", "login", "secret", Some(1), Active, Some(0))],
                  map[1 := User(0, true), 2 := User(5, false)]);
    assert [7][..0] == [];
    assert IsTopWaiting(p.users, Some(2));
  }
}
