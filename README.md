# Points-Claiming leaderboard backend, modelled in Dafny

This project models the backend of the Points-Claiming leaderboard (`backend/server.js`).
Users claim a random award of 1 to 10 points, every change re-ranks all users, and every
connected client receives the new ranking over Socket.io.

## What is modelled

The two MongoDB collections are modelled as an in-memory store, held in the class
`Backend.Server`:

- The `User` collection is a `map<UserId, User>` keyed by the document `_id`.
  - `save()` of a loaded document is a map update.
  - `findById` is a key lookup.
  - `countDocuments()` is the map's size.
  - A counter `nextId` plays the store's id generator.
- The `PointsHistory` collection is an append-only `seq<HistoryEntry>`.
- The Socket.io server is a separate object (`Backend.Broadcaster`). Every `io.emit` appends
  one `Event` to its log `sent`.

The handlers are modelled as follows:

- `updateRankings` is the imperative loop `SaveRanks`. It runs over the result of the sorted
  query `ListUsers`. `ListUsers` picks a user with the most remaining points at each step
  and may choose any one among ties, so every proof holds whatever tie order the store uses.
- `initializeUsers` seeds the ten default users into an empty collection and ranks them.
- POST `/api/users` is `AddUser`.
- POST `/api/claim-points` is `ClaimPoints`.
- The two GET history routes are the pure functions `RecentHistory` and `UserHistory`.
- Parameters stand in for inputs from outside the program:
  - The award from `Math.random` is a parameter `award` with `1 <= award <= 10`.
  - The `Date.now` default of the history timestamp is a parameter `now`.
  - A request body field is an `Option`. `None` means missing or falsy, and for names
    `Some("")` is the empty string.
  - Error replies are `Err(status, message)`, with the source's status codes and messages.

### Properties proved

- **Store invariant.** The predicate `Server.Consistent` holds before and after every handler,
  and `Server.Valid` holds between handlers. The invariant covers:
  - every document is stored under its own id;
  - names are non-empty and unique;
  - every history entry names a stored user, carries that user's name and has an award in
    1..10;
  - every user's `totalPoints` equals the sum of that user's awards in the history.
- **Ranks.** `Valid` also says the ranks are dense: each rank is in 1..N, no two users share
  a rank, and more points always means a better rank. `Ranking.DenseRanksAreOneToN` turns this
  into "the set of ranks is exactly {1..N}".
- **Rejected requests.** Every rejected request returns the source's status and message and
  leaves the store and the broadcast log unchanged (`unchanged(this, io)`).
- **Queries.** The global route returns exactly min(n, 50) entries and the per-user route
  exactly min(k, 20) of that user's k entries. Both come newest first, keep the newest
  entries, and the per-user route keeps only entries of that user.

### Behaviour of the code worth noting

- **Rank in the claim reply.** The claim reply's `user` is the document loaded before
  re-ranking (`backend/server.js:155`, `180`, `188`). It carries the new total but the rank
  from *before* the claim, not the rank the claim just earned.
  `Scenarios.StaleRankInClaimReply` exhibits this on a two-user run: the claimant's new rank
  is 1, but the reply reports 2.
- **Whitespace-only names.** The backend tests only `!name` (`backend/server.js:125`) and
  never trims. A whitespace-only name is therefore accepted; only the empty string and a
  missing name are rejected.
- **Status of a duplicate name.** A duplicate name is rejected with status 400
  (`backend/server.js:130-132`), the same status as a missing name.
- **Rank of a new user.** The add-user reply is the document as inserted, with rank 0
  (`backend/server.js:134-140`). Its computed rank appears only in the broadcast list.

## Model

| member | source | states |
|---|---|---|
| Documents.AwardsOf | backend/server.js:81 | a user with no claim in the history has an award sum of 0, matching the 0 points every new user starts with |
| Documents.AwardsOfAppend | backend/server.js:164-173 | logging one claim adds its award to the claimant's sum and leaves every other user's sum unchanged |
| Ranking.RankedListingGivesDenseRanks | backend/server.js:96-99 | once every user of a sorted listing has stored rank position + 1, ranks are in 1..N, pairwise distinct, and more points means a strictly smaller rank |
| Ranking.SavedRanks | backend/server.js:94-101 | saving rank i + 1 into the i-th user of the sorted listing yields a ranked listing of the new collection; only `rank` fields changed and no user was added or lost |
| Ranking.DenseRanksAreOneToN | backend/server.js:94-99 | dense ranks are exactly the set {1..N}: no gap and no duplicate |
| History.SortNewestFirst | backend/server.js:200 | the sort by timestamp descending is a newest-first permutation of the history |
| History.Newest | backend/server.js:199-201 | sort then limit: min(n, limit) entries, newest first, a sub-multiset of the history, and no dropped entry is newer than a kept one |
| History.PrefixKeepsNewest | backend/server.js:201 | cutting a newest-first sequence after k entries keeps it ordered and keeps its newest entries |
| History.EntriesOf | backend/server.js:212 | the filter `{ userId }` keeps exactly the entries of that user, each as often as in the history |
| History.RecentHistory | backend/server.js:197-206 | exactly min(n, 50) entries, newest first, drawn from the history, with no dropped entry newer than a kept one; the whole history when it has at most 50 entries |
| History.FilteredNewest | backend/server.js:212-214 | limiting the filtered, sorted history keeps only that user's entries and that user's newest ones |
| History.UserHistory | backend/server.js:209-219 | exactly min(k, 20) entries, where k is the number of that user's entries, all of the requested user, newest first, with no dropped entry of that user newer than a kept one; all of them when the user has at most 20 |
| Backend.DefaultNamesDistinct | backend/server.js:76-79 | the ten default names are non-empty and pairwise distinct |
| Backend.SeededDocuments | backend/server.js:76-82 | `insertMany` of the defaults stores ten users under ten fresh ids, the i-th default name with 0 points |
| Backend.SeededConsistent | backend/server.js:72-83 | a freshly seeded collection satisfies the store invariant |
| Backend.ReRankKeepsConsistent | backend/server.js:96-99 | rewriting only ranks keeps the store invariant |
| Backend.InsertKeepsConsistent | backend/server.js:129-135 | a user with a fresh id, a non-empty unused name and 0 points keeps the store invariant, including the award sums |
| Backend.ClaimKeepsConsistent | backend/server.js:161-173 | adding an award in 1..10 to one user's total and logging it keeps every total equal to that user's award sum |
| Backend.MostPointsExists | backend/server.js:94 | every non-empty set of users has one with the most points, which the sorted query can list next |
| Backend.ListingStep | backend/server.js:94 | listing the remaining user with the most points extends a sorted, duplicate-free listing of the collection |
| Backend.Broadcaster.Emit | backend/server.js:138 | `io.emit` appends exactly the emitted event to the broadcast log |
| Backend.Server.constructor | backend/server.js:68-69 | an empty database: no users, no history, nothing broadcast, and the invariant holds |
| Backend.Server.ListUsers | backend/server.js:111-118 | GET /api/users: every stored user exactly once, as stored, in non-increasing points order (any order among ties) |
| Backend.Server.InsertUser | backend/server.js:134-135 | inserts one user under a fresh id, with the given name, 0 points and rank 0; the invariant is kept |
| Backend.Server.AddUser | backend/server.js:121-144 | a missing or empty name gives 400 "Name is required", and an existing name gives 400 "User already exists", both with nothing changed; otherwise exactly one user is added with 0 points, the reply is that document with rank 0, only ranks of the rest change, the history is untouched, and one `usersUpdated` event carrying the fresh ranked listing is broadcast |
| Backend.Server.ClaimPoints | backend/server.js:147-194 | a missing id gives 400 "User ID is required", and an unknown id gives 404 "User not found", both with nothing changed; otherwise the claim succeeds as `ClaimEffect` describes: only the claimant's total rises, by exactly the award; one history entry with id, name, award and time is appended; the reply and the `pointsClaimed` broadcast carry the fresh ranked listing; the reply's user has the new total and the old rank |
| Backend.Server.AwardPoints | backend/server.js:160-190 | the success path of a claim has the effect stated by `ClaimEffect` and restores the full invariant, dense ranks included |
| Backend.Server.SaveClaim | backend/server.js:161-173 | adds the award to the loaded user, saves it, and appends the matching history entry, keeping totals equal to award sums |
| Backend.Server.InitializeUsers | backend/server.js:72-89 | with a non-empty collection nothing changes; with an empty one the ten default users are stored with 0 points and dense ranks, and the history is untouched |
| Backend.Server.InsertDefaultUsers | backend/server.js:76-82 | the insertion loop stores exactly the seeded collection of the ten defaults under consecutive fresh ids |
| Backend.Server.UpdateRankings | backend/server.js:92-106 | re-ranks every user: the returned list is a ranked listing of the new collection (sorted, rank = position + 1), ranks are dense, and only `rank` fields changed |
| Backend.Server.SaveRanks | backend/server.js:96-99 | the loop stores rank i + 1 into the i-th listed user and returns those documents; the set of users is unchanged |
| Scenarios.OvertakeOfTwo | backend/server.js:155-189 | when the second of two users overtakes the first, the claimed document keeps rank 2 while the fresh listing puts it first with rank 1 |
| Scenarios.StaleRankInClaimReply | backend/server.js:155-189 | after Asha claims 5 and Bala is added, Bala's claim of 7 replies with total 7 and rank 2, while the reply's listing shows Bala first with rank 1 |

## Left out

- Express routing, CORS and JSON parsing are not modelled. Success status codes (200 and 201)
  are not modelled either; a success is an `Ok` value.
- Every `catch` branch and its 500 reply are out. So are the partial writes a failing
  `save()` would leave behind, and the swallowed error in `initializeUsers`. In the model,
  store operations do not fail.
- ObjectId casting is out. A malformed id makes `findById` throw, and the source answers
  500. In the model, ids are natural numbers, and an id that names no user gives 404.
  Request decoding (what counts as "missing or falsy") happens before the model and yields
  `None`.
- The database-level `unique` index on `name` is out; the `findOne({ name })` check that the
  handler performs is modelled.
- The Mongoose `createdAt` and `updatedAt` timestamps are not modelled.
- `Math.random` and `Date.now` are parameters (`award`, `now`), since they are randomness
  and a clock.
- The startup order is not enforced. The server seeds the default users before it listens
  (`backend/server.js:239-245`), but the model lets handlers run on any valid store,
  including one that was never seeded. `Scenarios` starts from an empty store.
- Concurrent requests and their race on the shared re-ranking are out; the model is
  sequential.
- Socket.io transport and connection handling are reduced to the broadcast log. So is
  delivery to clients, and console logging is not modelled at all.
- The frontend is not part of this model. That includes trimming names and the
  30-character cap on names.
- History.SortNewestFirst: ties between equal timestamps come out in one fixed (stable)
  order, whereas the store may return them in any order. The route contracts (`RecentHistory`
  and `UserHistory`) state only the order and the contents, which every tie order satisfies.
