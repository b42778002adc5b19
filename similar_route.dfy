/** GET /api/reports/similar: the active reports of one category near a point, newest
    first and at most ten, optionally within one jurisdiction, each with its vote count and
    whether the caller has voted for it. */
module SimilarRoute {
  import opened Http
  import opened Tables

  /** The radius, in meters, when the request gives none. */
  const DefaultRadiusMeters := 250
  /** `limit(10)`. */
  const SimilarLimit := 10

  /** The query parameters. `lat` and `lng` are `None` when they do not parse as numbers;
      `radius` is `None` when absent or empty. */
  datatype SimilarQuery = SimilarQuery(
    category: Option<string>,
    lat: Option<real>,
    lng: Option<real>,
    radius: Option<int>,
    nagarNigam: Option<string>)

  /** The columns the search selects. */
  datatype Listing = Listing(
    id: string,
    images: seq<string>,
    location: Location,
    category: string,
    description: Option<string>,
    nagarNigam: string,
    status: string,
    createdAt: int)

  function Project(r: Report): Listing
  {
    Listing(r.id, r.images, r.location, r.category, r.description, r.nagarNigam, r.status, r.createdAt)
  }

  /** A listing with the `vote_count` and `has_voted` fields the handler adds. */
  datatype EnrichedListing = EnrichedListing(listing: Listing, voteCount: nat, hasVoted: bool)

  function SearchRadius(q: SimilarQuery): int
  {
    if q.radius.Some? then q.radius.value else DefaultRadiusMeters
  }

  predicate ValidQuery(q: SimilarQuery)
  {
    Truthy(q.category) && q.lat.Some? && q.lng.Some?
  }

  function SearchBox(q: SimilarQuery, delta: (int, real) -> Delta): Box
    requires ValidQuery(q)
  {
    BoxAround(q.lat.value, q.lng.value, delta(SearchRadius(q), q.lat.value))
  }

  /** The search filter: the category, an active status, inside the box, and the
      jurisdiction only when one is given. */
  function Matches(category: string, nagarNigam: Option<string>, box: Box): Report -> bool
  {
    (r: Report) =>
      && r.category == category
      && IsActive(r)
      && InBox(r.location, box)
      && (Truthy(nagarNigam) ==> r.nagarNigam == nagarNigam.value)
  }

  /** The rows the search returns before enrichment. */
  function Candidates(rows: seq<Report>, category: string, nagarNigam: Option<string>, box: Box): seq<Report>
  {
    NewestMatches(rows, Matches(category, nagarNigam, box), SimilarLimit)
  }

  /** Every candidate is a stored active report of the category, inside the box and, when
      a jurisdiction is given, of that jurisdiction; there are at most ten, newest first;
      a matching report is left out only behind ten candidates that are no older. */
  lemma CandidatesSpec(rows: seq<Report>, category: string, nagarNigam: Option<string>, box: Box)
    ensures |Candidates(rows, category, nagarNigam, box)| <= SimilarLimit
    ensures NewestFirst(Candidates(rows, category, nagarNigam, box))
    ensures forall x :: x in Candidates(rows, category, nagarNigam, box) ==>
              && x in rows
              && x.category == category
              && IsActive(x)
              && InBox(x.location, box)
              && (Truthy(nagarNigam) ==> x.nagarNigam == nagarNigam.value)
    ensures forall x, y :: x in rows && Matches(category, nagarNigam, box)(x)
                           && x !in Candidates(rows, category, nagarNigam, box)
                           && y in Candidates(rows, category, nagarNigam, box)
                           ==> |Candidates(rows, category, nagarNigam, box)| == SimilarLimit
                               && y.createdAt >= x.createdAt
  {
    var p := Matches(category, nagarNigam, box);
    NewestMatchesSound(rows, p, SimilarLimit);
    forall x, y | x in rows && p(x) && x !in Candidates(rows, category, nagarNigam, box)
                  && y in Candidates(rows, category, nagarNigam, box)
      ensures |Candidates(rows, category, nagarNigam, box)| == SimilarLimit && y.createdAt >= x.createdAt
    {
      NewestMatchesComplete(rows, p, SimilarLimit, x, y);
    }
  }

  /** Adds to each report its vote count and whether `caller` voted for it. The counts
      are a map from id filled in one id at a time; `countsFail` stands for the vote
      aggregation query failing, which leaves every count at 0, and `myVotesFail` for the
      caller's-votes query failing, which leaves every flag false. */
  method Enrich(reports: seq<Report>, votes: set<Vote>, caller: string, countsFail: bool, myVotesFail: bool)
    returns (enriched: seq<EnrichedListing>)
    ensures |enriched| == |reports|
    ensures forall i :: 0 <= i < |reports| ==>
              && enriched[i].listing == Project(reports[i])
              && enriched[i].voteCount == (if countsFail then 0 else VoteCount(votes, reports[i].id))
              && enriched[i].hasVoted == (!myVotesFail && Vote(reports[i].id, caller) in votes)
  {
    var ids := seq(|reports|, i requires 0 <= i < |reports| => reports[i].id);
    var counts: map<string, nat> := map[];
    var votedSet: set<string> := {};
    if |ids| > 0 {
      if !countsFail {
        counts := map id | id in ids :: 0;
        for k := 0 to |ids|
          invariant forall id :: id in ids ==> id in counts
          invariant forall j :: 0 <= j < k ==> counts[ids[j]] == VoteCount(votes, ids[j])
        {
          counts := counts[ids[k] := VoteCount(votes, ids[k])];
        }
      }
      if !myVotesFail {
        votedSet := set v | v in votes && v.userEmail == caller && v.reportId in ids :: v.reportId;
      }
    }
    enriched := seq(|reports|, i requires 0 <= i < |reports| =>
      EnrichedListing(Project(reports[i]),
                      if reports[i].id in counts then counts[reports[i].id] else 0,
                      reports[i].id in votedSet));
    forall i | 0 <= i < |reports|
      ensures enriched[i].voteCount == (if countsFail then 0 else VoteCount(votes, reports[i].id))
      ensures enriched[i].hasVoted == (!myVotesFail && Vote(reports[i].id, caller) in votes)
    {
      assert ids[i] == reports[i].id;
      assert !countsFail ==> ids[i] in counts && counts[ids[i]] == VoteCount(votes, ids[i]);
      if !myVotesFail && Vote(reports[i].id, caller) in votes {
        assert reports[i].id in votedSet;
      }
    }
  }

  /** The handler. `queryFails` stands for an error from the search query and `noData` for
      the query giving neither an error nor rows, which the handler reads as no rows. */
  method SimilarReports(session: Session, q: SimilarQuery, rows: seq<Report>, votes: set<Vote>,
                        delta: (int, real) -> Delta, queryFails: bool, noData: bool,
                        countsFail: bool, myVotesFail: bool)
    returns (r: Reply<seq<EnrichedListing>>)
    ensures !Truthy(session.email) ==> r == Unauthorized()
    ensures Truthy(session.email) && !ValidQuery(q) ==> r == Error(400, "Missing category or location")
    ensures Truthy(session.email) && ValidQuery(q) && queryFails
            ==> r == Error(500, "Failed to fetch similar reports")
    ensures Truthy(session.email) && ValidQuery(q) && !queryFails && noData ==> r == Ok([])
    ensures Truthy(session.email) && ValidQuery(q) && !queryFails && !noData
            ==> var c := Candidates(rows, q.category.value, q.nagarNigam, SearchBox(q, delta));
                && r.Ok?
                && |r.value| == |c|
                && forall i :: 0 <= i < |c| ==>
                     && r.value[i].listing == Project(c[i])
                     && r.value[i].voteCount == (if countsFail then 0 else VoteCount(votes, c[i].id))
                     && r.value[i].hasVoted == (!myVotesFail && Vote(c[i].id, session.email.value) in votes)
    ensures r.Ok? ==> && |r.value| <= SimilarLimit
                      && forall e :: e in r.value ==>
                           && e.listing.category == q.category.value
                           && (e.listing.status == Submitted || e.listing.status == InProgress)
                           && InBox(e.listing.location, SearchBox(q, delta))
                           && (Truthy(q.nagarNigam) ==> e.listing.nagarNigam == q.nagarNigam.value)
  {
    if !Truthy(session.email) {
      return Unauthorized();
    }
    if !ValidQuery(q) {
      return Error(400, "Missing category or location");
    }
    if queryFails {
      return Error(500, "Failed to fetch similar reports");
    }
    var box := SearchBox(q, delta);
    var c := if noData then [] else Candidates(rows, q.category.value, q.nagarNigam, box);
    CandidatesSpec(rows, q.category.value, q.nagarNigam, box);
    var enriched := Enrich(c, votes, session.email.value, countsFail, myVotesFail);
    forall e | e in enriched
      ensures e.listing.category == q.category.value
      ensures e.listing.status == Submitted || e.listing.status == InProgress
      ensures InBox(e.listing.location, box)
      ensures Truthy(q.nagarNigam) ==> e.listing.nagarNigam == q.nagarNigam.value
    {
      var i :| 0 <= i < |enriched| && enriched[i] == e;
      assert c[i] in c;
    }
    r := Ok(enriched);
  }
}
