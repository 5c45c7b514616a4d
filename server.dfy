/**
  The Express/Socket.io backend over an in-memory store: the `User` collection
  keyed by `_id`, the append-only `PointsHistory` collection and the log of
  events emitted to all clients.
 */
module Backend {
  import opened Wrappers
  import opened Documents
  import opened Ranking
  import opened History

  /** The users `initializeUsers` inserts into an empty collection. */
  const DefaultNames: seq<string> :=
    ["Rahul", "Kamal", "Sanak", "Priya", "Amit", "Sneha", "Vikash", "Pooja", "Ravi", "Neha"]

  /** The JSON body of a successful claim. */
  datatype ClaimReply = ClaimReply(message: string, pointsAwarded: nat, user: User, users: seq<User>)

  /** The ten default names are pairwise different. */
  lemma DefaultNamesDistinct()
    ensures |DefaultNames| == 10
    ensures forall k :: 0 <= k < |DefaultNames| ==> DefaultNames[k] != ""
    ensures forall a, b :: 0 <= a < b < |DefaultNames| ==> DefaultNames[a] != DefaultNames[b]
  {
  }

  /** The first `n` default users as `insertMany` stores them, under the ids base, base + 1, ... */
  function Seeded(base: UserId, n: nat): (seeded: map<UserId, User>)
    requires n <= |DefaultNames|
  {
    if n == 0 then map[]
    else Seeded(base, n - 1)[base + n - 1 := User(base + n - 1, DefaultNames[n - 1], 0, 0)]
  }

  /** The documents of `Seeded`: the i-th default name under id base + i, with no points. */
  lemma {:induction false} SeededDocuments(base: UserId, n: nat)
    requires n <= |DefaultNames|
    ensures |Seeded(base, n)| == n
    ensures forall id :: id in Seeded(base, n) <==> base <= id < base + n
    ensures forall id :: id in Seeded(base, n) ==> Seeded(base, n)[id] == User(id, DefaultNames[id - base], 0, 0)
  {
    if n > 0 {
      SeededDocuments(base, n - 1);
    }
  }

  /** Seeding one more default user stores it under the next id. */
  lemma SeededStep(base: UserId, n: nat)
    requires n < |DefaultNames|
    ensures Seeded(base, n + 1) == Seeded(base, n)[base + n := User(base + n, DefaultNames[n], 0, 0)]
  {
  }

  /** A freshly seeded collection with no claims satisfies the store invariants. */
  lemma SeededConsistent(base: UserId, n: nat, history: seq<HistoryEntry>)
    requires n <= |DefaultNames|
    requires HistoryOfUsers(map[], history)
    ensures StoreConsistent(Seeded(base, n), history, base + n)
  {
    DefaultNamesDistinct();
    SeededDocuments(base, n);
    var seeded := Seeded(base, n);
    forall a, b | a in seeded && b in seeded && a != b
      ensures seeded[a].name != seeded[b].name
    {
      if a < b {
        assert DefaultNames[a - base] != DefaultNames[b - base];
      } else {
        assert DefaultNames[b - base] != DefaultNames[a - base];
      }
    }
  }

  /** `User.findOne({ name })` finds a document: names are compared exactly. */
  predicate NameTaken(users: map<UserId, User>, name: string) {
    exists id :: id in users && users[id].name == name
  }

  /** Every document is stored under its own `_id`, below the next id to hand out. */
  ghost predicate KeyedById(users: map<UserId, User>, nextId: UserId) {
    forall id :: id in users ==> users[id].id == id && id < nextId
  }

  /** Names are non-empty and unique. */
  ghost predicate NamesUnique(users: map<UserId, User>) {
    && (forall id :: id in users ==> users[id].name != "")
    && (forall a, b :: a in users && b in users && a != b ==> users[a].name != users[b].name)
  }

  /** Every claim belongs to a stored user, carries that user's name and a legal award. */
  ghost predicate HistoryOfUsers(users: map<UserId, User>, history: seq<HistoryEntry>) {
    forall i :: 0 <= i < |history| ==>
      && history[i].userId in users
      && history[i].userName == users[history[i].userId].name
      && MinAward <= history[i].pointsAwarded <= MaxAward
  }

  /** Each user's total is the sum of the awards of its claims. */
  ghost predicate TotalsMatchHistory(users: map<UserId, User>, history: seq<HistoryEntry>) {
    forall id :: id in users ==> users[id].totalPoints == AwardsOf(history, id)
  }

  /** The store invariants that hold between any two writes of a handler. */
  ghost predicate StoreConsistent(users: map<UserId, User>, history: seq<HistoryEntry>, nextId: UserId) {
    && KeyedById(users, nextId)
    && NamesUnique(users)
    && HistoryOfUsers(users, history)
    && TotalsMatchHistory(users, history)
  }

  /** Re-ranking touches no field the store invariants speak of. */
  lemma ReRankKeepsConsistent(before: map<UserId, User>, after: map<UserId, User>, history: seq<HistoryEntry>, nextId: UserId)
    requires StoreConsistent(before, history, nextId)
    requires SameButRanks(before, after)
    ensures StoreConsistent(after, history, nextId)
  {
    forall id | id in after
      ensures after[id].id == before[id].id && after[id].name == before[id].name
      ensures after[id].totalPoints == before[id].totalPoints
    {
      assert after[id] == before[id].(rank := after[id].rank);
    }
  }

  /** A new user with a fresh id, an unused non-empty name and no points keeps the store consistent. */
  lemma InsertKeepsConsistent(users: map<UserId, User>, history: seq<HistoryEntry>, nextId: UserId, name: string)
    requires StoreConsistent(users, history, nextId)
    requires name != "" && !NameTaken(users, name)
    ensures nextId !in users
    ensures StoreConsistent(users[nextId := User(nextId, name, 0, 0)], history, nextId + 1)
  {
    var users' := users[nextId := User(nextId, name, 0, 0)];
    assert forall i :: 0 <= i < |history| ==> history[i].userId != nextId;
    assert AwardsOf(history, nextId) == 0;
    forall a, b | a in users' && b in users' && a != b
      ensures users'[a].name != users'[b].name
    {
      if a == nextId { assert users[b].name != name; }
      else if b == nextId { assert users[a].name != name; }
    }
  }

  /** Adding `award` to one user's total and logging the claim keeps the store consistent. */
  lemma ClaimKeepsConsistent(users: map<UserId, User>, history: seq<HistoryEntry>, nextId: UserId,
                             id: UserId, award: nat, now: int)
    requires StoreConsistent(users, history, nextId)
    requires id in users && MinAward <= award <= MaxAward
    ensures StoreConsistent(users[id := users[id].(totalPoints := users[id].totalPoints + award)],
                            history + [HistoryEntry(id, users[id].name, award, now)], nextId)
  {
    var e := HistoryEntry(id, users[id].name, award, now);
    var users' := users[id := users[id].(totalPoints := users[id].totalPoints + award)];
    var history' := history + [e];
    assert KeyedById(users', nextId);
    assert NamesUnique(users');
    assert HistoryOfUsers(users', history') by {
      assert forall i :: 0 <= i < |history| ==> history'[i] == history[i];
    }
    assert TotalsMatchHistory(users', history') by {
      forall k | k in users'
        ensures users'[k].totalPoints == AwardsOf(history', k)
      {
        AwardsOfAppend(history, e, k);
      }
    }
  }

  /** Some user among `keys` has the most points. */
  lemma {:induction false} MostPointsExists(users: map<UserId, User>, keys: set<UserId>)
    requires keys != {} && keys <= users.Keys
    ensures exists top :: top in keys && forall k :: k in keys ==> users[k].totalPoints <= users[top].totalPoints
    decreases keys
  {
    var x :| x in keys;
    if keys != {x} {
      MostPointsExists(users, keys - {x});
      var top :| top in keys - {x} && forall k :: k in keys - {x} ==> users[k].totalPoints <= users[top].totalPoints;
      if users[x].totalPoints > users[top].totalPoints {
        assert forall k :: k in keys ==> users[k].totalPoints <= users[x].totalPoints;
      } else {
        assert forall k :: k in keys ==> users[k].totalPoints <= users[top].totalPoints;
      }
    } else {
      assert forall k :: k in keys ==> users[k].totalPoints <= users[x].totalPoints;
    }
  }

  /**
    The listing after taking the users not in `rest`, most points first: the
    loop state of the query behind `ListUsers`.
   */
  ghost predicate PartialListing(users: map<UserId, User>, list: seq<User>, rest: set<UserId>) {
    && rest <= users.Keys
    && |list| + |rest| == |users|
    && IdsOf(list) == users.Keys - rest
    && DistinctIds(list)
    && (forall i :: 0 <= i < |list| ==> list[i].id in users && users[list[i].id] == list[i])
    && ByPointsDesc(list)
    && (|list| > 0 ==> forall k :: k in rest ==> users[k].totalPoints <= list[|list| - 1].totalPoints)
  }

  /** Listing the user `u` moves its id from the remaining ids to the listed ones. */
  lemma ListedIdsStep(list: seq<User>, keys: set<UserId>, rest: set<UserId>, u: User)
    requires IdsOf(list) == keys - rest && rest <= keys && u.id in rest
    ensures IdsOf(list + [u]) == keys - (rest - {u.id})
  {
    IdsOfAppend(list, u);
  }

  /** Appending a stored document keeps every listed user as it is stored. */
  lemma StoredDocsStep(users: map<UserId, User>, list: seq<User>, u: User)
    requires forall i :: 0 <= i < |list| ==> list[i].id in users && users[list[i].id] == list[i]
    requires u.id in users && users[u.id] == u
    ensures forall i :: 0 <= i < |list + [u]| ==> (list + [u])[i].id in users && users[(list + [u])[i].id] == (list + [u])[i]
  {
    var list' := list + [u];
    assert forall i :: 0 <= i < |list| ==> list'[i] == list[i];
  }

  /** Appending the remaining user with the most points extends the partial listing. */
  lemma ListingStep(users: map<UserId, User>, list: seq<User>, rest: set<UserId>, top: UserId)
    requires PartialListing(users, list, rest)
    requires top in rest && users[top].id == top
    requires forall k :: k in rest ==> users[k].totalPoints <= users[top].totalPoints
    ensures PartialListing(users, list + [users[top]], rest - {top})
  {
    var u := users[top];
    ListedIdsStep(list, users.Keys, rest, u);
    AppendDistinct(list, u);
    AppendSorted(list, u);
    StoredDocsStep(users, list, u);
    assert |rest - {top}| == |rest| - 1;
  }

  /** The Socket.io server: what `io.emit` has broadcast to every client, oldest first. */
  class Broadcaster {
    var sent: seq<Event>

    constructor ()
      ensures sent == []
    {
      sent := [];
    }

    /** `io.emit`: fire-and-forget, so only the event itself is recorded. */
    method Emit(e: Event)
      modifies this
      ensures sent == old(sent) + [e]
    {
      sent := sent + [e];
    }
  }

  class Server {
    /** The `User` collection. */
    var users: map<UserId, User>
    /** The `PointsHistory` collection, in insertion order. */
    var history: seq<HistoryEntry>
    /** The realtime channel to all connected clients. */
    const io: Broadcaster
    /** The next `_id` the store hands out. */
    var nextId: UserId

    /** The store invariants that hold between any two writes of a handler. */
    ghost predicate Consistent()
      reads this`users, this`history, this`nextId
    {
      StoreConsistent(users, history, nextId)
    }

    /** The invariants that hold when no handler is running. */
    ghost predicate Valid()
      reads this`users, this`history, this`nextId
    {
      Consistent() && RanksDense(users)
    }

    /** An empty database. */
    constructor ()
      ensures Valid()
      ensures users == map[] && history == [] && nextId == 0
      ensures fresh(io) && io.sent == []
    {
      users, history, nextId := map[], [], 0;
      io := new Broadcaster();
    }

    /** GET /api/users, and the query of `updateRankings`: every user, most points first. */
    method ListUsers() returns (list: seq<User>)
      requires KeyedById(users, nextId)
      ensures IsListingOf(list, users)
      ensures ByPointsDesc(list)
    {
      list := [];
      var rest := users.Keys;
      while rest != {}
        invariant PartialListing(users, list, rest)
        decreases |rest|
      {
        MostPointsExists(users, rest);
        var top :| top in rest && forall k :: k in rest ==> users[k].totalPoints <= users[top].totalPoints;
        ListingStep(users, list, rest, top);
        list := list + [users[top]];
        rest := rest - {top};
      }
    }

    /** `new User({ name, totalPoints: 0 }).save()`: insert a user under a fresh id, unranked. */
    method InsertUser(name: string) returns (u: User)
      requires Consistent()
      requires name != "" && !NameTaken(users, name)
      modifies this`users, this`nextId
      ensures Consistent()
      ensures old(nextId) !in old(users)
      ensures u == User(old(nextId), name, 0, 0)
      ensures users == old(users)[u.id := u] && nextId == old(nextId) + 1
    {
      InsertKeepsConsistent(users, history, nextId, name);
      u := User(nextId, name, 0, 0);
      users := users[nextId := u];
      nextId := nextId + 1;
    }

    /** POST /api/users. */
    method AddUser(name: Option<string>) returns (r: Result<User>)
      requires Valid()
      modifies this, io
      ensures Valid()
      ensures (name.None? || name.value == "") ==> r == Err(400, "Name is required") && unchanged(this, io)
      ensures name.Some? && name.value != "" && NameTaken(old(users), name.value) ==>
                r == Err(400, "User already exists") && unchanged(this, io)
      ensures name.Some? && name.value != "" && !NameTaken(old(users), name.value) ==>
                && r == Ok(User(old(nextId), name.value, 0, 0))
                && old(nextId) !in old(users)
                && SameButRanks(old(users)[old(nextId) := r.value], users)
                && history == old(history)
                && nextId == old(nextId) + 1
                && |io.sent| == |old(io.sent)| + 1 && io.sent[..|old(io.sent)|] == old(io.sent)
                && io.sent[|old(io.sent)|].UsersUpdated?
                && IsRankedListingOf(io.sent[|old(io.sent)|].users, users)
    {
      if name.None? || name.value == "" {
        return Err(400, "Name is required");
      }
      if NameTaken(users, name.value) {
        return Err(400, "User already exists");
      }
      var newUser := InsertUser(name.value);
      var updatedUsers := UpdateRankings();
      io.Emit(UsersUpdated(updatedUsers));
      r := Ok(newUser);
    }

    /** POST /api/claim-points, with the random award and the clock supplied by the caller. */
    method ClaimPoints(userId: Option<UserId>, award: nat, now: int) returns (r: Result<ClaimReply>)
      requires Valid()
      requires MinAward <= award <= MaxAward
      modifies this, io
      ensures Valid()
      ensures userId.None? ==> r == Err(400, "User ID is required") && unchanged(this, io)
      ensures userId.Some? && userId.value !in old(users) ==> r == Err(404, "User not found") && unchanged(this, io)
      ensures userId.Some? && userId.value in old(users) ==> r.Ok? && ClaimEffect(userId.value, award, now, r.value)
    {
      if userId.None? {
        return Err(400, "User ID is required");
      }
      if userId.value !in users {
        return Err(404, "User not found");
      }
      var reply := AwardPoints(userId.value, award, now);
      r := Ok(reply);
    }

    /**
      What a successful claim of `award` by user `id` at time `now` did: the
      reply carries the loaded user with its new total and its rank from
      before the claim, only that user's total changed, one claim was logged,
      and the reply and the broadcast carry the fresh ranking.
     */
    twostate predicate ClaimEffect(id: UserId, award: nat, now: int, reply: ClaimReply)
      reads this, io
    {
      && id in old(users)
      && var loaded := old(users)[id];
      && var claimed := loaded.(totalPoints := loaded.totalPoints + award);
      && reply == ClaimReply("Points claimed successfully", award, claimed, reply.users)
      && SameButRanks(old(users)[id := claimed], users)
      && history == old(history) + [HistoryEntry(id, loaded.name, award, now)]
      && IsRankedListingOf(reply.users, users)
      && io.sent == old(io.sent) + [PointsClaimed(claimed, award, reply.users)]
      && nextId == old(nextId)
    }

    /** The success path of a claim (lines after the user is found). */
    method AwardPoints(id: UserId, award: nat, now: int) returns (reply: ClaimReply)
      requires Consistent()
      requires id in users && MinAward <= award <= MaxAward
      modifies this, io
      ensures Valid()
      ensures ClaimEffect(id, award, now, reply)
    {
      var user := SaveClaim(id, award, now);
      var updatedUsers := UpdateRankings();
      io.Emit(PointsClaimed(user, award, updatedUsers));
      reply := ClaimReply("Points claimed successfully", award, user, updatedUsers);
    }

    /** The writes of a claim: add the award to the user's total, save it, log the claim. */
    method SaveClaim(id: UserId, award: nat, now: int) returns (user: User)
      requires Consistent()
      requires id in users && MinAward <= award <= MaxAward
      modifies this`users, this`history
      ensures Consistent()
      ensures user == old(users)[id].(totalPoints := old(users)[id].totalPoints + award)
      ensures users == old(users)[id := user]
      ensures history == old(history) + [HistoryEntry(id, user.name, award, now)]
    {
      ClaimKeepsConsistent(users, history, nextId, id, award, now);
      user := users[id];
      user := user.(totalPoints := user.totalPoints + award);
      users := users[id := user];
      history := history + [HistoryEntry(id, user.name, award, now)];
    }

    /** `initializeUsers`: seed the ten default users into an empty collection and rank them. */
    method InitializeUsers()
      requires Valid()
      modifies this
      ensures Valid()
      ensures |old(users)| != 0 ==> unchanged(this)
      ensures |old(users)| == 0 ==>
                && SameButRanks(Seeded(old(nextId), |DefaultNames|), users)
                && nextId == old(nextId) + |DefaultNames|
                && history == old(history)
    {
      if |users| == 0 {
        InsertDefaultUsers();
        SeededConsistent(old(nextId), |DefaultNames|, history);
        var _ := UpdateRankings();
      }
    }

    /** `User.insertMany` of the default users, each with 0 points. */
    method InsertDefaultUsers()
      requires users == map[]
      modifies this`users, this`nextId
      ensures users == Seeded(old(nextId), |DefaultNames|) && nextId == old(nextId) + |DefaultNames|
    {
      var i := 0;
      var n := |DefaultNames|;
      ghost var base := nextId;
      while i < n
        invariant 0 <= i <= n
        invariant users == Seeded(base, i) && nextId == base + i
      {
        var name := DefaultNames[i];
        SeededStep(base, i);
        users := users[nextId := User(nextId, name, 0, 0)];
        nextId := nextId + 1;
        i := i + 1;
      }
    }

    /** `updateRankings`: re-rank every user from a fresh sorted listing. */
    method UpdateRankings() returns (ranked: seq<User>)
      requires Consistent()
      modifies this`users
      ensures Valid()
      ensures IsRankedListingOf(ranked, users)
      ensures SameButRanks(old(users), users)
    {
      var fetched := ListUsers();
      ranked := SaveRanks(fetched);
      SavedRanks(old(users), fetched, ranked, users);
      RankedListingGivesDenseRanks(ranked, users);
      ReRankKeepsConsistent(old(users), users, history, nextId);
    }

    /** The loop of `updateRankings`: set the i-th listed user's rank to i + 1 and save it. */
    method SaveRanks(fetched: seq<User>) returns (ranked: seq<User>)
      requires DistinctIds(fetched) && IdsOf(fetched) == users.Keys
      requires forall j :: 0 <= j < |fetched| ==> fetched[j].id in users
      modifies this`users
      ensures |ranked| == |fetched| && users.Keys == old(users).Keys
      ensures forall j :: 0 <= j < |ranked| ==> ranked[j] == fetched[j].(rank := j + 1)
      ensures forall j :: 0 <= j < |ranked| ==> users[fetched[j].id] == ranked[j]
    {
      ranked := [];
      var i := 0;
      while i < |fetched|
        invariant 0 <= i <= |fetched|
        invariant users.Keys == old(users).Keys
        invariant |ranked| == i
        invariant forall j :: 0 <= j < i ==> ranked[j] == fetched[j].(rank := j + 1)
        invariant forall j :: 0 <= j < i ==> users[fetched[j].id] == ranked[j]
      {
        var doc := fetched[i].(rank := i + 1);
        assert forall j :: 0 <= j < i ==> fetched[j].id != doc.id;
        users := users[doc.id := doc];
        ranked := ranked + [doc];
        i := i + 1;
      }
    }
  }
}
