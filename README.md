# Bot-hosting server pool, modelled in Dafny

The system hands out a fixed pool of hosting servers to users who pay for them with coins.
It exists in two variants, and both are modelled here:

- **Express/MongoDB backend.**
  - A server is `available` or `active`. An active server has an owner and an assignment time.
  - Each user has a coin balance and a `hasActiveServer` flag.
  - Users request and release a server. Administrators add and delete servers, adjust balances and force servers free.
  - An hourly job charges each owner of an active server one coin. An owner with no coins loses the server, and the job hands it to the waiting user with the most coins.
- **Flask/SQLAlchemy variant.**
  - Servers have a type and a price. A user records at most one server.
  - Free servers are allocated automatically at registration and login. Paid servers are bought.
  - A deduction job charges every holder the configured rate and appends a transaction record for each charge. A holder with no coins left loses the server.

Each variant is modelled in two layers.

- **Value level.** The state is a datatype (`PoolState.Pool`, `FlaskModel.App`). Every handler is a function on that state. Lemmas prove what the handlers promise: their refusals in the handler's order, the consistency invariant they keep, round trips, and frames ("nothing else changes").
- **Object level.** A class holds the collections as mutable `map` fields (`ExpressBackend.Backend`, `FlaskApp.Database`). It has one method per handler, and each method's postcondition ties the new state to the value-level function. The two jobs are real loops over a snapshot of the active servers or holders. They are proved equal to a run of the step function over the order in which the loop visited the snapshot, and the lemmas about runs then apply to them.

Files:

- `common.dfy`: `Option` and `Distinct`.
- `server_model.dfy`: the Server document of the Express backend (backend/models/Server.js).
- `pool_state.dfy`: users, outcomes and the invariant `Inv`:
  - every server is well formed;
  - the owner of an active server exists and has its flag set;
  - nobody owns two active servers.
- `server_routes.dfy`, `admin_routes.dfy`: the route handlers (backend/routes/servers.js, backend/routes/admin.js).
- `billing.dfy`: the hourly job (backend/server.js), one step (`TickStep`) and whole runs (`TickRun`).
- `backend.dfy`: the Express backend as a class.
- `flask_model.dfy`, `flask_deduct.dfy`: the Flask variant's tables, the consistency between them (`Consistent`), its handlers, and `deduct_coins`.
- `flask_app.dfy`: the Flask variant as a class.

## Where the code departs from the intended behaviour

The model follows the code in each case.

- **An evicted owner's flag stays set.** When the hourly job evicts an owner with no coins, it frees the server but never clears that owner's `hasActiveServer` flag. The intended rule is that eviction clears the flag, so that the flag is true exactly when the user owns an active server. The invariant therefore keeps only the direction "owner ⇒ flag set". `Billing.EvictedOwnerIsStranded` proves that the evicted owner is left stranded:
  - its flag is still set;
  - it owns no server;
  - its own request is refused as already assigned;
  - its own release is refused for lack of an active server.

  `Billing.InsolvencyExample` runs the job on one server owned by user 1, who has no coins, with user 2 waiting with five coins. The server goes to user 2, and user 1's flag is still `true` afterwards.
- **`assignedAt` is never reset.** Neither self-release, forced release nor eviction resets `assignedAt`, although a release is meant to clear the timestamp. `ServerRoutes.RequestThenRelease` proves that a request followed by a release gives back the original state except for that field.
- **Ties for the most coins.** When several waiting users tie for the most coins, the code leaves the choice to the database. The model accepts any waiting user with the maximal balance (`Billing.IsTopWaiting`).

## Model

| member | source | states |
|---|---|---|
| ServerModel.NewServer | backend/models/Server.js:3-33 | creation succeeds iff all four credential fields are given and non-empty; a created server is available, with no owner and no assignment time, and carries the given fields |
| ServerModel.Vacate | backend/routes/servers.js:77-79 | a freed server is available with no owner; its assignment time and credentials are kept |
| ServerModel.Assign | backend/routes/servers.js:48-51 | an assigned server is active, owned by the user, stamped with the given time, credentials kept |
| PoolState.GrantKeepsInv | backend/routes/servers.js:47-54 | granting an unowned server to a user whose flag is clear keeps the invariant, and the user then owns exactly that server |
| PoolState.VacateKeepsInv | backend/routes/servers.js:77-79 | freeing a server keeps the invariant and removes exactly that server from everyone's ownership |
| ServerRoutes.RequestGrantsOneServer | backend/routes/servers.js:28-54 | a successful request turns exactly one available server into the user's active server stamped `now`, sets the flag, changes no balance and no other document, keeps the invariant |
| ServerRoutes.RequestRefusals | backend/routes/servers.js:30-45 | each refusal (already assigned, insufficient coins, no free server) happens iff its check is the first to fail; a user who passes the flag check owns no active server |
| ServerRoutes.ReleaseFreesServer | backend/routes/servers.js:69-82 | releasing the owned server succeeds, frees it without touching `assignedAt`, clears the flag, keeps coins, other documents and the invariant; the user then owns nothing |
| ServerRoutes.RequestThenRelease | backend/routes/servers.js:28-82 | request then release restores the original state except the server's `assignedAt`, which keeps the grant time |
| ServerRoutes.PoolStats | backend/routes/servers.js:91-101 | total = number of servers = available + active, with the two counts being the sizes of the status classes |
| AdminRoutes.AddServerStartsAvailable | backend/routes/admin.js:13-25 | a created server is available with no owner or assignment time and nothing else changes; a refused creation changes nothing and is refused iff a field is missing or empty; the invariant is kept |
| AdminRoutes.DeleteServerClearsOwner | backend/routes/admin.js:42-56 | a missing id is reported and changes nothing; otherwise exactly that server is removed, its owner's flag cleared, all else kept, the invariant kept, and a second delete reports not found |
| AdminRoutes.AddCoinsRoundTrip | backend/routes/admin.js:73-85 | a missing user is reported; otherwise exactly that balance changes by exactly `amount` (no floor), the invariant is kept, and adding `-amount` restores the original state |
| AdminRoutes.ForceReleaseAgreesWithRelease | backend/routes/admin.js:92-106 | forcing a missing server is reported; forcing an owned server equals the owner's own release; forcing an available server changes nothing; forcing twice equals forcing once |
| AdminRoutes.ForceReleaseKeepsInv | backend/routes/admin.js:92-106 | forcing keeps the invariant, leaves the server available and unowned with `assignedAt` kept, and clears the former owner's flag |
| Billing.MostCoinsExists | backend/server.js:54-56 | every non-empty set of users has a member with the largest balance |
| Billing.TopWaitingExists | backend/server.js:54-56 | the waiting-user query always has an admissible answer |
| Billing.TickStepKeepsInv | backend/server.js:43-71 | one iteration keeps the invariant, both key sets and every other server |
| Billing.TickStepCharges | backend/server.js:67-70 | an owner with coins is charged exactly one coin and nothing else changes |
| Billing.TickStepEvicts | backend/server.js:47-66 | an owner without coins loses the server and keeps its coins and flag; the server goes to the waiting user with the most coins if that user has coins (flag set, coins untouched), else stays free |
| Billing.EvictedOwnerIsStranded | backend/server.js:47-51 | after eviction the owner's flag is still set while it owns nothing, so its request is refused as already assigned and its release as having no active server |
| Billing.TickRunSplit | backend/server.js:43-73 | a run over a concatenation is the run over the second part from the state after the first, and its picks are valid iff both parts' are |
| Billing.TickRunKeepsInv | backend/server.js:43-73 | a whole run keeps the invariant and both key sets |
| Billing.TickRunFrame | backend/server.js:41-43 | a server outside the snapshot is untouched by the run |
| Billing.TickRunUntouchedUser | backend/server.js:43-73 | a user with its flag set whose servers are outside the visited prefix is untouched and owns the same servers |
| Billing.TickRunAt | backend/server.js:43-73 | a run over a snapshot without repeats splits at its `i`-th server into prefix, step and suffix |
| Billing.SolventOwnerCharged | backend/server.js:67-70 | over a whole run, an owner with coins at the start pays exactly one coin and keeps its server unchanged |
| Billing.InsolventOwnerEvicted | backend/server.js:47-66 | over a whole run, an owner without coins keeps coins and flag but owns nothing; its server ends free or active for another user stamped `now` |
| Billing.TickRunSparesWaiting | backend/server.js:54-65 | a waiting user pays nothing during the run, and can only end up owning a snapshot server handed to it |
| Billing.InsolvencyExample | backend/server.js:47-65 | one insolvent owner and one waiting user with five coins: the server goes to the waiting user, whose coins stay five, and the evicted owner's flag stays set |
| ExpressBackend.FindAvailable | backend/routes/servers.js:41-45 | returns an available server, or none exactly when no server is available |
| ExpressBackend.FindActiveOf | backend/routes/servers.js:71-75 | returns an active server owned by the user, or none exactly when it owns none |
| ExpressBackend.FindWaitingUser | backend/server.js:54-56 | returns a user without the flag whose balance is maximal among such users, or none when every user has the flag |
| ExpressBackend.Backend.constructor | backend/models/Server.js:3-38 | an empty pool over the given users satisfies the invariant |
| ExpressBackend.Backend.Request | backend/routes/servers.js:28-66 | reports `RequestOutcome`; on success the state is the grant of a server that was available; on refusal nothing changes; the invariant is kept |
| ExpressBackend.Backend.Release | backend/routes/servers.js:69-88 | succeeds iff the user owns an active server, and the state is then that server's release; otherwise nothing changes; the invariant is kept |
| ExpressBackend.Backend.MyServer | backend/routes/servers.js:9-21 | shows the name and assignment time of a server the user owns, or nothing exactly when it owns none |
| ExpressBackend.Backend.GetStats | backend/routes/servers.js:91-101 | the counts of `PoolStats`, total = available + active |
| ExpressBackend.Backend.AddServer | backend/routes/admin.js:13-29 | outcome and state are those of `AdminRoutes.AddServer`; the invariant is kept |
| ExpressBackend.Backend.DeleteServer | backend/routes/admin.js:42-60 | outcome and state are those of `AdminRoutes.DeleteServer`; the invariant is kept |
| ExpressBackend.Backend.AddCoins | backend/routes/admin.js:73-89 | outcome and state are those of `AdminRoutes.AddCoins`; the invariant is kept |
| ExpressBackend.Backend.ForceRelease | backend/routes/admin.js:92-112 | outcome and state are those of `AdminRoutes.ForceRelease`; the invariant is kept |
| ExpressBackend.Backend.ProcessServer | backend/server.js:44-72 | the state is `TickStep` of the old state, with a waiting-user pick that has the most coins whenever the owner is evicted; the invariant is kept |
| ExpressBackend.Backend.Tick | backend/server.js:36-77 | every server active at the start is visited exactly once, all picks are admissible, the new state is `TickRun` over the visiting order, and the invariant is kept |
| FlaskModel.PriceFor | app.py:291-302 | free costs 0, paid_5 costs 5, paid_10 costs 10, any type outside the price map costs 0; the price is within 0..15 and is 15 exactly for paid_15 |
| FlaskModel.AllocateKeepsConsistent | app.py:70-80 | allocating an unoccupied server to a user holding none keeps the tables consistent; the user holds exactly that server, coins unchanged, nothing else changes |
| FlaskModel.DeallocateFrees | app.py:82-91 | deallocation keeps consistency, frees the server the user held, clears the user's record and changes nothing else; without a server it does nothing |
| FlaskModel.PurchaseRefusals | app.py:212-227 | each refusal (not available, free type, insufficient coins) happens iff its check is the first to fail, and changes nothing |
| FlaskModel.PurchaseTransfers | app.py:229-246 | a purchase keeps consistency; the buyer holds exactly the new server, pays exactly its price and stays non-negative, its old server is freed, every other server and user is untouched, both key sets and the rate are kept, one purchase record is appended |
| FlaskModel.AddServerPriced | app.py:282-309 | a new server is unoccupied and priced from its type; it is refused, changing nothing, iff a form field is missing; existing servers, the users, the log and the rate are kept; consistency is kept |
| FlaskModel.DeleteServerClears | app.py:311-327 | a missing server changes nothing; otherwise it is removed, nobody holds it, its occupant holds nothing, every remaining server and every other user record are kept, as are all balances, the log and the rate; consistency kept |
| FlaskModel.AddCoinsOnlyAdds | app.py:343-356 | only a positive amount for an existing user is added, to that user alone; every other user record, the holdings, servers, log and rate unchanged, consistency kept |
| FlaskDeduct.DeductStepKeepsConsistent | app.py:98-111 | one iteration keeps consistency, both key sets and the rate, and never gives anyone a server |
| FlaskDeduct.DeductRunFrame | app.py:93-113 | a user outside the run's order is untouched |
| FlaskDeduct.DeductRunKeepsConsistent | app.py:93-113 | a whole run keeps consistency, key sets and rate, and nobody gains a server |
| FlaskDeduct.DeductRunCharges | app.py:98-111 | each holder with coins is charged the rate once and keeps its server; each without coins keeps its coins and loses its server |
| FlaskDeduct.DeductRunKeys | app.py:93-113 | a run keeps both key sets and the rate |
| FlaskDeduct.DeductRunLog | app.py:99-106 | the log after a run is the old log followed by one deduction record per charged holder, in order (`DeductEntries`) |
| FlaskDeduct.DeductRunFreesInsolvent | app.py:108-110 | a holder without coins ends holding nothing and its server ends unoccupied with no occupant |
| FlaskApp.FindFreeServer | app.py:72 | returns a free-type unoccupied server, or none exactly when there is none |
| FlaskApp.Database.constructor | app.py:16-46 | empty tables, rate 1, empty log, consistent |
| FlaskApp.Database.AllocateFreeServer | app.py:70-80 | allocates a free slot (state = `Allocate`) or, exactly when there is none, changes nothing; consistency kept |
| FlaskApp.Database.Register | app.py:143-149 | a new user with 100 coins and no server, then an allocation attempt as above |
| FlaskApp.Database.Login | app.py:176-178 | allocation is attempted iff the user holds no server and has coins; otherwise nothing changes |
| FlaskApp.Database.Deallocate | app.py:82-91 | the state is `Deallocate` of the old state; consistency kept (also the effect of logout, app.py:204-207) |
| FlaskApp.Database.DeductCoins | app.py:93-113 | every user holding a server at the start is visited exactly once and the new state is `DeductRun` over that order; consistency kept |
| FlaskApp.Database.PurchaseServer | app.py:212-248 | outcome and state are those of `FlaskModel.PurchaseServer`; consistency kept |
| FlaskApp.Database.AddServer | app.py:282-309 | outcome and state are those of `FlaskModel.AddServer`; consistency kept |
| FlaskApp.Database.DeleteServer | app.py:311-327 | the loop clearing holders ends with the state of `FlaskModel.DeleteServer`; consistency kept |
| FlaskApp.Database.UpdateDeductionRate | app.py:329-337 | only the rate changes; consistency kept |
| FlaskApp.Database.AddCoins | app.py:343-356 | the state is `FlaskModel.AddCoins` of the old state; consistency kept |

## Left out

- HTTP, JSON responses and status codes, sessions, flash messages and templates are not modelled. Handlers return an outcome value instead.
- Authentication and the admin check are not modelled: backend/middleware/admin.js, auth.js, the admin login/logout and password hashing. `User.js` is not part of this model; only the two user fields the assignment logic uses (`coins`, `hasActiveServer`) appear.
- Persistence and concurrency are not modelled. Each handler and each job iteration runs atomically on the in-memory maps. The atomicity the operations need against concurrent requests is assumed rather than modelled.
- Exceptions and the catch-all error paths are not modelled:
  - a 500 response;
  - the cron body failing at `user.coins` if a server's owner is deleted between the snapshot and the user lookup, which only a concurrent request can cause;
  - `int(...)` failing on a non-numeric Flask form field;
  - Mongoose's cast of a non-numeric `amount` in the coin adjustment.
- The clock is a `now` parameter, one per tick, and the cron schedule and the Flask trigger (`/api/deduct_coins`) are the callers of `Tick`/`DeductCoins`. Fresh document ids are parameters (`sid`, `uid`) required to be unused.
- Database query order is not modelled. `findOne`, `.first()` and the order of a `find`/`all` result are arbitrary picks, and the jobs' visiting orders are ghost outputs.
- Fields the core never reads are not modelled: `createdAt`, credentials shown by the list routes, usernames/emails/passwords, the admin flag, logo and song URLs. The two admin list routes and the Flask dashboard/admin panel only read and are not modelled. Registration's duplicate-username refusal is not modelled either (usernames are not part of the state).
- The React frontend is not part of this model.
- Python's truthiness of a server id 0 is not modelled: ids are natural numbers, and a recorded id always counts as held.
- The `Refund` transaction type is declared by the source but never produced, so no operation creates it.
- Flask `update_settings` also stores the logo and song URLs. Only the deduction rate is modelled (`FlaskApp.Database.UpdateDeductionRate`).
