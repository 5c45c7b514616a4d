/**
  The two read routes over the `PointsHistory` collection: a filter by user,
  a sort on `timestamp` descending and a cap on the number of entries.
 */
module History {
  import opened Documents

  /** `.limit(50)` of the global history route. */
  const RecentLimit: nat := 50
  /** `.limit(20)` of the per-user history route. */
  const UserLimit: nat := 20

  /** The order of `.sort({ timestamp: -1 })`; equal timestamps in any order. */
  ghost predicate NewestFirst(s: seq<HistoryEntry>) {
    forall i, j :: 0 <= i < j < |s| ==> s[i].timestamp >= s[j].timestamp
  }

  /** An entry no older than the head of a newest-first sequence can go in front of it. */
  lemma ConsNewest(x: HistoryEntry, t: seq<HistoryEntry>)
    requires NewestFirst(t)
    requires t == [] || x.timestamp >= t[0].timestamp
    ensures NewestFirst([x] + t)
  {
    var r := [x] + t;
    forall i, j | 0 <= i < j < |r| ensures r[i].timestamp >= r[j].timestamp {
      if i == 0 && j > 1 { assert t[0].timestamp >= t[j - 1].timestamp; }
    }
  }

  /** Places `e` into the newest-first sequence `s`. */
  function InsertByTime(e: HistoryEntry, s: seq<HistoryEntry>): (r: seq<HistoryEntry>)
    requires NewestFirst(s)
    ensures NewestFirst(r)
    ensures multiset(r) == multiset(s) + multiset{e}
    ensures r[0] == e || (s != [] && r[0] == s[0])
  {
    if s == [] || e.timestamp >= s[0].timestamp then
      ConsNewest(e, s);
      [e] + s
    else
      var rest := InsertByTime(e, s[1..]);
      assert s == [s[0]] + s[1..];
      ConsNewest(s[0], rest);
      [s[0]] + rest
  }

  /** The sort of the query: a newest-first permutation of `h`. */
  function SortNewestFirst(h: seq<HistoryEntry>): (r: seq<HistoryEntry>)
    ensures NewestFirst(r)
    ensures multiset(r) == multiset(h)
  {
    if h == [] then []
    else
      assert h == [h[0]] + h[1..];
      InsertByTime(h[0], SortNewestFirst(h[1..]))
  }

  /** No entry of `h` left out of `r` is newer than an entry kept in `r`. */
  ghost predicate KeepsNewest(h: seq<HistoryEntry>, r: seq<HistoryEntry>) {
    forall x, e :: x in r && e in multiset(h) - multiset(r) ==> e.timestamp <= x.timestamp
  }

  /** Cutting a sequence after `k` entries splits its multiset into the kept and the dropped ones. */
  lemma PrefixSplit(s: seq<HistoryEntry>, k: nat)
    requires k <= |s|
    ensures multiset(s[..k]) <= multiset(s)
    ensures multiset(s) - multiset(s[..k]) == multiset(s[k..])
  {
    assert s == s[..k] + s[k..];
  }

  /** Every entry cut off a newest-first sequence is no newer than any entry kept. */
  lemma PrefixDropsOlder(s: seq<HistoryEntry>, k: nat)
    requires NewestFirst(s) && k <= |s|
    ensures KeepsNewest(s, s[..k])
  {
    PrefixSplit(s, k);
    forall x, e | x in s[..k] && e in multiset(s) - multiset(s[..k])
      ensures e.timestamp <= x.timestamp
    {
      assert e in s[k..];
      var i :| 0 <= i < k && s[i] == x;
      var j :| k <= j < |s| && s[j] == e;
    }
  }

  /** A prefix of a newest-first sequence keeps its newest entries. */
  lemma PrefixKeepsNewest(s: seq<HistoryEntry>, k: nat)
    requires NewestFirst(s) && k <= |s|
    ensures NewestFirst(s[..k])
    ensures multiset(s[..k]) <= multiset(s)
    ensures KeepsNewest(s, s[..k])
  {
    PrefixSplit(s, k);
    PrefixDropsOlder(s, k);
    assert forall i :: 0 <= i < k ==> s[..k][i] == s[i];
  }

  /** `.sort({ timestamp: -1 }).limit(limit)` over the entries `h`. */
  function Newest(h: seq<HistoryEntry>, limit: nat): (r: seq<HistoryEntry>)
    ensures |r| == if |h| < limit then |h| else limit
    ensures |h| <= limit ==> r == SortNewestFirst(h)
    ensures NewestFirst(r)
    ensures multiset(r) <= multiset(h)
    ensures KeepsNewest(h, r)
  {
    var s := SortNewestFirst(h);
    var k := if |s| < limit then |s| else limit;
    PrefixKeepsNewest(s, k);
    assert k == |s| ==> s[..k] == s;
    s[..k]
  }

  /** `PointsHistory.find({ userId })`: the entries of one user, in stored order. */
  function EntriesOf(h: seq<HistoryEntry>, id: UserId): (r: seq<HistoryEntry>)
    ensures forall e :: multiset(r)[e] == if e.userId == id then multiset(h)[e] else 0
  {
    if h == [] then []
    else
      assert h == [h[0]] + h[1..];
      (if h[0].userId == id then [h[0]] else []) + EntriesOf(h[1..], id)
  }

  /** GET /api/points-history: the 50 newest claims, newest first. */
  function RecentHistory(h: seq<HistoryEntry>): (r: seq<HistoryEntry>)
    ensures |r| == if |h| < RecentLimit then |h| else RecentLimit
    ensures |h| <= RecentLimit ==> multiset(r) == multiset(h)
    ensures NewestFirst(r)
    ensures multiset(r) <= multiset(h)
    ensures KeepsNewest(h, r)
  {
    Newest(h, RecentLimit)
  }

  /** What `UserHistory` keeps of `h`: entries of `id` only, and the newest of them. */
  ghost predicate NewestOfUser(h: seq<HistoryEntry>, id: UserId, r: seq<HistoryEntry>) {
    && (forall e :: e in r ==> e.userId == id)
    && multiset(r) <= multiset(h)
    && forall x, e :: x in r && e in multiset(h) - multiset(r) && e.userId == id ==> e.timestamp <= x.timestamp
  }

  /** Taking the newest entries of the filtered history keeps the newest entries of that user. */
  lemma FilteredNewest(h: seq<HistoryEntry>, id: UserId, r: seq<HistoryEntry>)
    requires multiset(r) <= multiset(EntriesOf(h, id))
    requires KeepsNewest(EntriesOf(h, id), r)
    ensures NewestOfUser(h, id, r)
  {
    var mine := EntriesOf(h, id);
    forall e | e in r ensures e.userId == id {
      assert multiset(r)[e] > 0;
    }
    forall e ensures multiset(r)[e] <= multiset(h)[e] {
      assert multiset(r)[e] <= multiset(mine)[e];
    }
    forall x, e | x in r && e in multiset(h) - multiset(r) && e.userId == id
      ensures e.timestamp <= x.timestamp
    {
      assert multiset(mine)[e] == multiset(h)[e];
      assert e in multiset(mine) - multiset(r);
    }
  }

  /** GET /api/points-history/:userId: the 20 newest claims of one user, newest first. */
  function UserHistory(h: seq<HistoryEntry>, id: UserId): (r: seq<HistoryEntry>)
    ensures |r| == if |EntriesOf(h, id)| < UserLimit then |EntriesOf(h, id)| else UserLimit
    ensures |EntriesOf(h, id)| <= UserLimit ==> multiset(r) == multiset(EntriesOf(h, id))
    ensures NewestFirst(r)
    ensures NewestOfUser(h, id, r)
  {
    var r := Newest(EntriesOf(h, id), UserLimit);
    FilteredNewest(h, id, r);
    r
  }
}
