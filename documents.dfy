/**
  The documents of the two MongoDB collections (`User` and `PointsHistory`)
  and of the two realtime events, as values.
 */
module Documents {

  /** The `_id` the store assigns to a user document. */
  type UserId = nat

  /** A `User` document; `rank` is 0 until the first re-ranking after insertion. */
  datatype User = User(id: UserId, name: string, totalPoints: nat, rank: nat)

  /** A `PointsHistory` document: one completed claim, with the user's name copied in. */
  datatype HistoryEntry = HistoryEntry(userId: UserId, userName: string, pointsAwarded: nat, timestamp: int)

  /** An event broadcast to every connected client. */
  datatype Event =
    | UsersUpdated(users: seq<User>)
    | PointsClaimed(user: User, pointsAwarded: nat, users: seq<User>)

  /** Bounds of `Math.floor(Math.random() * 10) + 1`. */
  const MinAward: nat := 1
  const MaxAward: nat := 10

  /** The points awarded to user `id` over the claim history `h`. */
  function AwardsOf(h: seq<HistoryEntry>, id: UserId): (total: nat)
    ensures (forall i :: 0 <= i < |h| ==> h[i].userId != id) ==> total == 0
  {
    if h == [] then 0
    else (if h[0].userId == id then h[0].pointsAwarded else 0) + AwardsOf(h[1..], id)
  }

  /** Appending one claim adds its award to its own user's sum and to no one else's. */
  lemma {:induction false} AwardsOfAppend(h: seq<HistoryEntry>, e: HistoryEntry, id: UserId)
    ensures AwardsOf(h + [e], id) == AwardsOf(h, id) + (if e.userId == id then e.pointsAwarded else 0)
  {
    if h == [] {
      assert (h + [e])[1..] == [];
    } else {
      assert (h + [e])[1..] == h[1..] + [e];
      AwardsOfAppend(h[1..], e, id);
    }
  }
}
