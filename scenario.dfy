/**
  A run of the handlers from an empty database, showing which rank the claim
  reply reports.
 */
module Scenarios {
  import opened Wrappers
  import opened Documents
  import opened Ranking
  import opened Backend

  /** Of two densely ranked users, the one with fewer points ranks 2. */
  lemma FewerPointsOfTwo(users: map<UserId, User>, hi: UserId, lo: UserId)
    requires RanksDense(users) && users.Keys == {hi, lo} && hi != lo
    requires users[hi].totalPoints > users[lo].totalPoints
    ensures users[lo].rank == 2
  {
    assert |users| == |users.Keys| == 2;
  }

  /** A ranked listing of two users lists the one with more points first. */
  lemma MorePointsOfTwo(l: seq<User>, users: map<UserId, User>, hi: UserId, lo: UserId)
    requires IsRankedListingOf(l, users) && users.Keys == {hi, lo} && hi != lo
    requires users[hi].totalPoints > users[lo].totalPoints
    ensures |l| == 2 && l[0] == users[hi] && l[0].rank == 1
  {
    assert |users| == |users.Keys| == 2;
    assert l[0].id in IdsOf(l) && l[1].id in IdsOf(l);
  }

  /**
    Asha is added to an empty database. This starts the handlers on an empty
    collection without running `InitializeUsers` first, which the running
    server does only if seeding failed and its error was swallowed.
   */
  method AshaAlone() returns (s: Server)
    ensures fresh(s) && fresh(s.io) && s.Valid()
    ensures s.users.Keys == {0} && s.nextId == 1
    ensures s.users[0].name == "Asha" && s.users[0].totalPoints == 0
  {
    s := new Server();
    var a := s.AddUser(Some("Asha"));
  }

  /** Asha claims 5 points. */
  method AshaClaimsFive() returns (s: Server)
    ensures fresh(s) && fresh(s.io) && s.Valid()
    ensures s.users.Keys == {0} && s.nextId == 1
    ensures s.users[0].name == "Asha" && s.users[0].totalPoints == 5
  {
    s := AshaAlone();
    var c := s.ClaimPoints(Some(0), 5, 1);
  }

  /** Adding Bala beside Asha stores both documents, ranks aside. */
  lemma BalaBesideAsha(before: map<UserId, User>, after: map<UserId, User>)
    requires before.Keys == {0} && before[0].name == "Asha" && before[0].totalPoints == 5
    requires SameButRanks(before[1 := User(1, "Bala", 0, 0)], after)
    ensures after.Keys == {0, 1}
    ensures after[0].name == "Asha" && after[0].totalPoints == 5
    ensures after[1].name == "Bala" && after[1].totalPoints == 0
  {
    assert after[0] == before[0].(rank := after[0].rank);
  }

  /** Then Bala is added. */
  method AshaLeadsBala() returns (s: Server)
    ensures fresh(s) && fresh(s.io) && s.Valid()
    ensures s.users.Keys == {0, 1}
    ensures s.users[0].name == "Asha" && s.users[0].totalPoints == 5
    ensures s.users[1].name == "Bala" && s.users[1].totalPoints == 0
  {
    s := AshaClaimsFive();
    ghost var before := s.users;
    assert !NameTaken(s.users, "Bala");
    var b := s.AddUser(Some("Bala"));
    BalaBesideAsha(before, s.users);
  }

  /**
    Bala, ranked 2 behind Asha, claims 7 points: the claimed document keeps
    rank 2 and the fresh ranked listing puts Bala first with rank 1.
   */
  lemma OvertakeOfTwo(before: map<UserId, User>, after: map<UserId, User>, l: seq<User>, claimed: User)
    requires before.Keys == {0, 1} && RanksDense(before)
    requires before[0].totalPoints == 5 && before[1].totalPoints == 0
    requires claimed == before[1].(totalPoints := 7)
    requires SameButRanks(before[1 := claimed], after)
    requires IsRankedListingOf(l, after)
    ensures claimed.rank == 2
    ensures |l| == 2 && l[0] == claimed.(rank := 1)
  {
    FewerPointsOfTwo(before, 0, 1);
    assert after[1] == claimed.(rank := after[1].rank);
    MorePointsOfTwo(l, after, 1, 0);
  }

  /**
    Bala then claims 7 points. The reply reports Bala's new total with the
    rank from before the claim (2), while the fresh listing in the same reply
    puts Bala first with rank 1.
   */
  method StaleRankInClaimReply() returns (reply: ClaimReply)
    ensures reply.user.id == 1 && reply.user.name == "Bala"
    ensures reply.user.totalPoints == 7 && reply.user.rank == 2
    ensures |reply.users| == 2 && reply.users[0] == reply.user.(rank := 1)
  {
    var s := AshaLeadsBala();
    ghost var before := s.users;
    var c := s.ClaimPoints(Some(1), 7, 2);
    reply := c.value;
    OvertakeOfTwo(before, s.users, reply.users, reply.user);
  }
}
