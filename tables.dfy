/** The two tables the route handlers query (`reports` and `report_votes`) as in-memory
    values, and the meaning of the query-builder calls the handlers chain on them:
    `eq`/`in`/`gte`/`lte` filter (`Where`), `order("created_at", descending)` sorts
    (`SortNewestFirst`), `limit(n)` truncates (`Take`), and an exact `count` is a length. */
module Tables {
  import opened Http

  const Submitted := "submitted"
  const InProgress := "in_progress"
  const Completed := "completed"

  datatype Location = Location(latitude: real, longitude: real, accuracy: real)

  /** A row of the `reports` table. `createdAt` is the database timestamp, as an integer. */
  datatype Report = Report(
    id: string,
    userEmail: string,
    userName: string,
    userId: string,
    images: seq<string>,
    location: Location,
    category: string,
    description: Option<string>,
    nagarNigam: string,
    voiceNote: Option<string>,
    status: string,
    createdAt: int)

  /** A row of the `report_votes` table. */
  datatype Vote = Vote(reportId: string, userEmail: string)

  /** Active issues: the statuses the duplicate guard and the similar-report search keep. */
  predicate IsActive(r: Report)
  {
    r.status == Submitted || r.status == InProgress
  }

  function StatusIs(status: string): Report -> bool
  {
    (r: Report) => r.status == status
  }

  /** The rows of `s` that satisfy `p`, in their original order. */
  function Where(s: seq<Report>, p: Report -> bool): (r: seq<Report>)
    ensures |r| <= |s|
    ensures forall i :: 0 <= i < |r| ==> p(r[i])
  {
    if s == [] then []
    else (if p(s[0]) then [s[0]] else []) + Where(s[1..], p)
  }

  /** Filtering keeps every row that passes, as many times as the table holds it, and
      drops every row that fails. */
  lemma {:induction false} WhereMultiset(s: seq<Report>, p: Report -> bool)
    ensures forall x :: multiset(Where(s, p))[x] == if p(x) then multiset(s)[x] else 0
  {
    if s != [] {
      WhereMultiset(s[1..], p);
      assert s == [s[0]] + s[1..];
    }
  }

  lemma WhereSound(s: seq<Report>, p: Report -> bool)
    ensures forall x :: x in Where(s, p) ==> x in s && p(x)
    ensures forall x :: x in s && p(x) ==> x in Where(s, p)
  {
    WhereMultiset(s, p);
    forall x | x in Where(s, p) ensures x in s && p(x) {
      assert multiset(Where(s, p))[x] > 0;
    }
    forall x | x in s && p(x) ensures x in Where(s, p) {
      assert multiset(s)[x] > 0;
    }
  }

  /** Filtering a table that has one more row at the end. */
  lemma {:induction false} WhereAppend(s: seq<Report>, x: Report, p: Report -> bool)
    ensures Where(s + [x], p) == Where(s, p) + (if p(x) then [x] else [])
  {
    var tail := if p(x) then [x] else [];
    if s == [] {
      assert s + [x] == [x];
      assert Where([x], p) == tail + Where([], p);
    } else {
      var head := if p(s[0]) then [s[0]] else [];
      assert (s + [x])[0] == s[0];
      assert (s + [x])[1..] == s[1..] + [x];
      WhereAppend(s[1..], x, p);
      calc {
        Where(s + [x], p);
        head + Where(s[1..] + [x], p);
        head + (Where(s[1..], p) + tail);
        (head + Where(s[1..], p)) + tail;
        Where(s, p) + tail;
      }
    }
  }

  /** Two filters that no row passes together select no more rows than the table holds. */
  lemma {:induction false} CountDisjointPair(s: seq<Report>, p: Report -> bool, q: Report -> bool)
    requires forall x :: !(p(x) && q(x))
    ensures |Where(s, p)| + |Where(s, q)| <= |s|
  {
    if s != [] {
      CountDisjointPair(s[1..], p, q);
    }
  }

  /** Three filters that no row passes two of select no more rows than the table holds,
      and exactly as many when every row passes one of them. */
  lemma {:induction false} CountDisjointTriple(s: seq<Report>, p: Report -> bool, q: Report -> bool, w: Report -> bool)
    requires forall x :: !(p(x) && q(x)) && !(p(x) && w(x)) && !(q(x) && w(x))
    ensures |Where(s, p)| + |Where(s, q)| + |Where(s, w)| <= |s|
    ensures (forall i :: 0 <= i < |s| ==> p(s[i]) || q(s[i]) || w(s[i]))
            ==> |Where(s, p)| + |Where(s, q)| + |Where(s, w)| == |s|
  {
    if s != [] {
      CountDisjointTriple(s[1..], p, q, w);
      assert forall i :: 1 <= i < |s| ==> s[1..][i - 1] == s[i];
    }
  }

  /** Newest first: `order("created_at", { ascending: false })`. */
  predicate NewestFirst(s: seq<Report>)
  {
    forall i, j :: 0 <= i < j < |s| ==> s[i].createdAt >= s[j].createdAt
  }

  /** A row no older than the head of a newest-first list can go in front of it. */
  lemma NewestFirstCons(a: Report, t: seq<Report>)
    requires NewestFirst(t)
    requires |t| > 0 ==> a.createdAt >= t[0].createdAt
    ensures NewestFirst([a] + t)
  {
    var u := [a] + t;
    forall i, j | 0 <= i < j < |u| ensures u[i].createdAt >= u[j].createdAt {
      if i == 0 {
        assert u[j] == t[j - 1];
        assert t[0].createdAt >= t[j - 1].createdAt;
      } else {
        assert u[i] == t[i - 1] && u[j] == t[j - 1];
      }
    }
  }

  function InsertByDate(x: Report, s: seq<Report>): (r: seq<Report>)
    requires NewestFirst(s)
    ensures NewestFirst(r)
    ensures multiset(r) == multiset(s) + multiset{x}
    ensures |r| == |s| + 1 && (r[0] == x || (|s| > 0 && r[0] == s[0]))
  {
    if s == [] || x.createdAt >= s[0].createdAt then
      NewestFirstCons(x, s);
      [x] + s
    else
      var tail := s[1..];
      assert NewestFirst(tail) by {
        forall i, j | 0 <= i < j < |tail| ensures tail[i].createdAt >= tail[j].createdAt {
          assert tail[i] == s[i + 1] && tail[j] == s[j + 1];
        }
      }
      var rest := InsertByDate(x, tail);
      assert |tail| > 0 ==> s[0].createdAt >= tail[0].createdAt by {
        if |tail| > 0 { assert tail[0] == s[1]; }
      }
      NewestFirstCons(s[0], rest);
      assert s == [s[0]] + tail;
      [s[0]] + rest
  }

  /** The rows of `s` ordered by `createdAt`, newest first. */
  function SortNewestFirst(s: seq<Report>): (r: seq<Report>)
    ensures NewestFirst(r)
    ensures multiset(r) == multiset(s)
  {
    if s == [] then []
    else
      assert s == [s[0]] + s[1..];
      InsertByDate(s[0], SortNewestFirst(s[1..]))
  }

  /** `limit(n)`. */
  function Take(s: seq<Report>, n: nat): (r: seq<Report>)
    ensures |r| == if |s| <= n then |s| else n
    ensures r == s[..|r|]
    ensures |s| <= n ==> r == s
  {
    if |s| <= n then s else s[..n]
  }

  /** The rows a query keeps when it filters by `p`, orders newest first and stops after
      `n` rows. */
  function NewestMatches(s: seq<Report>, p: Report -> bool, n: nat): seq<Report>
  {
    Take(SortNewestFirst(Where(s, p)), n)
  }

  /** Such a query returns rows of the table that pass the filter, newest first. */
  lemma NewestMatchesSound(s: seq<Report>, p: Report -> bool, n: nat)
    ensures forall x :: x in NewestMatches(s, p, n) ==> x in s && p(x)
    ensures NewestFirst(NewestMatches(s, p, n))
  {
    var filtered := Where(s, p);
    var sorted := SortNewestFirst(filtered);
    var top := NewestMatches(s, p, n);
    assert top == sorted[..|top|];
    WhereMultiset(s, p);
    forall x | x in top ensures x in s && p(x) {
      assert x in sorted;
      assert multiset(sorted)[x] > 0;
      assert multiset(filtered)[x] > 0;
    }
  }

  /** It leaves a passing row out only when it already returned `n` rows, none of them
      older than the row left out. */
  lemma NewestMatchesComplete(s: seq<Report>, p: Report -> bool, n: nat, x: Report, y: Report)
    requires x in s && p(x) && x !in NewestMatches(s, p, n)
    requires y in NewestMatches(s, p, n)
    ensures |NewestMatches(s, p, n)| == n && y.createdAt >= x.createdAt
  {
    var filtered := Where(s, p);
    var sorted := SortNewestFirst(filtered);
    var top := NewestMatches(s, p, n);
    assert top == sorted[..|top|];
    WhereMultiset(s, p);
    assert multiset(s)[x] > 0;
    assert multiset(filtered)[x] > 0;
    assert multiset(sorted)[x] > 0;
    var i :| 0 <= i < |sorted| && sorted[i] == x;
    var j :| 0 <= j < |top| && top[j] == y;
    assert sorted[j] == y;
    assert i >= |top|;
  }

  /** The bounding box `gte`/`lte` filters on `location->>latitude` and
      `location->>longitude`: ±(dLat, dLng) degrees around a point. */
  datatype Delta = Delta(dLat: real, dLng: real)

  datatype Box = Box(minLat: real, maxLat: real, minLng: real, maxLng: real)

  function BoxAround(latitude: real, longitude: real, d: Delta): Box
  {
    Box(latitude - d.dLat, latitude + d.dLat, longitude - d.dLng, longitude + d.dLng)
  }

  /** The bounds are inclusive. */
  predicate InBox(l: Location, b: Box)
  {
    b.minLat <= l.latitude <= b.maxLat && b.minLng <= l.longitude <= b.maxLng
  }

  /** The box is symmetric about its centre: a point is inside exactly when its mirror
      image through the centre is, and the centre itself is inside whenever the deltas are
      not negative. */
  lemma BoxSymmetric(latitude: real, longitude: real, d: Delta, l: Location)
    ensures InBox(l, BoxAround(latitude, longitude, d))
        <==> InBox(Location(2.0 * latitude - l.latitude, 2.0 * longitude - l.longitude, l.accuracy),
                   BoxAround(latitude, longitude, d))
    ensures d.dLat >= 0.0 && d.dLng >= 0.0
        ==> InBox(Location(latitude, longitude, l.accuracy), BoxAround(latitude, longitude, d))
  {
  }

  /** The number of votes recorded for a report: an exact `count` with `eq("report_id", id)`. */
  function VoteCount(votes: set<Vote>, reportId: string): nat
  {
    |set v | v in votes && v.reportId == reportId|
  }

  /** Adding a new vote for `reportId` raises its count by one and leaves every other
      report's count as it was. */
  lemma VoteCountAdd(votes: set<Vote>, v: Vote, other: string)
    requires v !in votes
    ensures VoteCount(votes + {v}, v.reportId) == VoteCount(votes, v.reportId) + 1
    ensures other != v.reportId ==> VoteCount(votes + {v}, other) == VoteCount(votes, other)
  {
    var before := set w | w in votes && w.reportId == v.reportId;
    var after := set w | w in votes + {v} && w.reportId == v.reportId;
    assert after == before + {v};
    var beforeOther := set w | w in votes && w.reportId == other;
    var afterOther := set w | w in votes + {v} && w.reportId == other;
    if other != v.reportId {
      assert afterOther == beforeOther;
    }
  }
}
