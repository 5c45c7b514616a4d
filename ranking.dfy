/**
  What `updateRankings` establishes: a listing of the user collection in
  non-increasing `totalPoints` order whose i-th user has rank i + 1, and the
  consequence for the collection itself, ranks that are exactly 1..N.
 */
module Ranking {
  import opened Documents

  /** The ids of the users listed in `s`. */
  function IdsOf(s: seq<User>): set<UserId> {
    set i | 0 <= i < |s| :: s[i].id
  }

  /** Listing one more user adds exactly its id. */
  lemma IdsOfAppend(s: seq<User>, u: User)
    ensures IdsOf(s + [u]) == IdsOf(s) + {u.id}
  {
    var s' := s + [u];
    forall x | x in IdsOf(s') ensures x in IdsOf(s) + {u.id} {
      var i :| 0 <= i < |s'| && s'[i].id == x;
      if i < |s| { assert s[i].id == x; }
    }
    forall x | x in IdsOf(s) + {u.id} ensures x in IdsOf(s') {
      if x == u.id {
        assert s'[|s|].id == x;
      } else {
        var i :| 0 <= i < |s| && s[i].id == x;
        assert s'[i].id == x;
      }
    }
  }

  ghost predicate DistinctIds(s: seq<User>) {
    forall i, j :: 0 <= i < j < |s| ==> s[i].id != s[j].id
  }

  /** `s` lists every document of `users` exactly once, as it is stored. */
  ghost predicate IsListingOf(s: seq<User>, users: map<UserId, User>) {
    && |s| == |users|
    && IdsOf(s) == users.Keys
    && DistinctIds(s)
    && forall i :: 0 <= i < |s| ==> s[i].id in users && users[s[i].id] == s[i]
  }

  /** The order of `User.find().sort({ totalPoints: -1 })`; ties in any order. */
  ghost predicate ByPointsDesc(s: seq<User>) {
    forall i, j :: 0 <= i < j < |s| ==> s[i].totalPoints >= s[j].totalPoints
  }

  /** The user at position i has rank i + 1. */
  ghost predicate RankedByPosition(s: seq<User>) {
    forall i :: 0 <= i < |s| ==> s[i].rank == i + 1
  }

  /** Listing a user not yet listed keeps the ids distinct. */
  lemma AppendDistinct(s: seq<User>, u: User)
    requires DistinctIds(s) && u.id !in IdsOf(s)
    ensures DistinctIds(s + [u])
  {
    assert forall i :: 0 <= i < |s| ==> s[i].id in IdsOf(s);
  }

  /** Listing a user with no more points than any listed one keeps the order. */
  lemma AppendSorted(s: seq<User>, u: User)
    requires ByPointsDesc(s)
    requires |s| > 0 ==> u.totalPoints <= s[|s| - 1].totalPoints
    ensures ByPointsDesc(s + [u])
  {
    var s' := s + [u];
    forall i, j | 0 <= i < j < |s'| ensures s'[i].totalPoints >= s'[j].totalPoints {
      if j == |s| { assert s[i].totalPoints >= s[|s| - 1].totalPoints; }
    }
  }

  /** The list `updateRankings` returns for the collection `users`. */
  ghost predicate IsRankedListingOf(s: seq<User>, users: map<UserId, User>) {
    IsListingOf(s, users) && ByPointsDesc(s) && RankedByPosition(s)
  }

  /**
    Ranks of the collection: each in 1..N, no two equal, and a user with more
    points always ranks strictly better.
   */
  ghost predicate RanksDense(users: map<UserId, User>) {
    && (forall id :: id in users ==> 1 <= users[id].rank <= |users|)
    && (forall a, b :: a in users && b in users && a != b ==> users[a].rank != users[b].rank)
    && (forall a, b :: a in users && b in users && users[a].totalPoints > users[b].totalPoints ==>
                       users[a].rank < users[b].rank)
  }

  /** `after` holds the documents of `before`, with at most their ranks changed. */
  ghost predicate SameButRanks(before: map<UserId, User>, after: map<UserId, User>) {
    && after.Keys == before.Keys
    && forall id :: id in before ==> after[id] == before[id].(rank := after[id].rank)
  }

  /** The set of ranks held by the collection. */
  function RankSet(users: map<UserId, User>): set<nat> {
    set id | id in users :: users[id].rank
  }

  /** Where a user sits in a listing of its collection. */
  lemma PositionOf(s: seq<User>, users: map<UserId, User>, id: UserId) returns (i: nat)
    requires IsListingOf(s, users) && id in users
    ensures i < |s| && s[i] == users[id]
  {
    assert id in IdsOf(s);
    var k :| 0 <= k < |s| && s[k].id == id;
    i := k;
  }

  /** Storing the ranks of a ranked listing leaves the collection densely ranked. */
  lemma RankedListingGivesDenseRanks(s: seq<User>, users: map<UserId, User>)
    requires IsRankedListingOf(s, users)
    ensures RanksDense(users)
  {
    forall id | id in users
      ensures 1 <= users[id].rank <= |users|
    {
      var i := PositionOf(s, users, id);
    }
    forall a, b | a in users && b in users && a != b
      ensures users[a].rank != users[b].rank
    {
      var i := PositionOf(s, users, a);
      var j := PositionOf(s, users, b);
    }
    forall a, b | a in users && b in users && users[a].totalPoints > users[b].totalPoints
      ensures users[a].rank < users[b].rank
    {
      var i := PositionOf(s, users, a);
      var j := PositionOf(s, users, b);
    }
  }

  /**
    Saving rank i + 1 into the i-th user of a sorted listing gives a ranked
    listing of the saved collection, in which only ranks changed.
   */
  lemma SavedRanks(before: map<UserId, User>, fetched: seq<User>, ranked: seq<User>, after: map<UserId, User>)
    requires IsListingOf(fetched, before) && ByPointsDesc(fetched)
    requires |ranked| == |fetched|
    requires forall j :: 0 <= j < |ranked| ==> ranked[j] == fetched[j].(rank := j + 1)
    requires after.Keys == before.Keys
    requires forall j :: 0 <= j < |ranked| ==> after[fetched[j].id] == ranked[j]
    ensures IsRankedListingOf(ranked, after)
    ensures SameButRanks(before, after)
  {
    assert forall j :: 0 <= j < |ranked| ==> ranked[j].id == fetched[j].id;
    assert IdsOf(ranked) == IdsOf(fetched);
    forall id | id in before
      ensures after[id] == before[id].(rank := after[id].rank)
    {
      var j := PositionOf(fetched, before, id);
    }
  }

  /** The ranks 1..n. */
  function OneTo(n: nat): (r: set<nat>)
    ensures forall k :: k in r <==> 1 <= k <= n
    ensures |r| == n
  {
    if n == 0 then {} else OneTo(n - 1) + {n}
  }

  /** Distinct ranks: as many ranks among `keys` as there are keys. */
  lemma {:induction false} DistinctRanksSize(users: map<UserId, User>, keys: set<UserId>)
    requires keys <= users.Keys
    requires forall a, b :: a in users && b in users && a != b ==> users[a].rank != users[b].rank
    ensures |set id | id in keys :: users[id].rank| == |keys|
    decreases keys
  {
    if keys != {} {
      var x :| x in keys;
      DistinctRanksSize(users, keys - {x});
      assert (set id | id in keys :: users[id].rank)
          == (set id | id in keys - {x} :: users[id].rank) + {users[x].rank};
    }
  }

  /** Dense ranks are exactly 1..N: no gap and no duplicate. */
  lemma DenseRanksAreOneToN(users: map<UserId, User>)
    requires RanksDense(users)
    ensures RankSet(users) == OneTo(|users|)
  {
    var ranks, range := RankSet(users), OneTo(|users|);
    DistinctRanksSize(users, users.Keys);
    assert ranks <= range;
    assert |range - ranks| == |range| - |ranks| == 0;
  }
}
