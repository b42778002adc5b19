/** GET /api/statistics: three counts over all reports, each from its own query; the first
    query that fails decides the error reply. */
module StatisticsRoute {
  import opened Http
  import opened Tables

  /** A status the statistics count as in progress although reports never store it. */
  const UnderReview := "under_review"

  datatype Statistics = Statistics(totalReports: nat, resolvedReports: nat, inProgressReports: nat)

  function Unresolved(): Report -> bool
  {
    (r: Report) => r.status in {Submitted, InProgress, UnderReview}
  }

  /** What one exact-count query gives the handler: the count, an error, or no error and
      no count. */
  datatype CountReply = Counted | Failed | NoCount

  /** `count || 0`: the number of rows that pass `p`, or 0 when the query gave no count. */
  function CountOrZero(c: CountReply, rows: seq<Report>, p: Report -> bool): nat
    requires !c.Failed?
  {
    if c.Counted? then |Where(rows, p)| else 0
  }

  function AllRows(): Report -> bool
  {
    (r: Report) => true
  }

  /** The handler. Each argument is what the corresponding count query gave. */
  function GetStatistics(rows: seq<Report>, total: CountReply, resolved: CountReply, inProgress: CountReply)
    : (r: Reply<Statistics>)
    ensures total.Failed? ==> r == Error(500, "Failed to fetch total reports")
    ensures !total.Failed? && resolved.Failed? ==> r == Error(500, "Failed to fetch resolved reports")
    ensures !total.Failed? && !resolved.Failed? && inProgress.Failed?
            ==> r == Error(500, "Failed to fetch in-progress reports")
    ensures !total.Failed? && !resolved.Failed? && !inProgress.Failed? ==> r.Ok?
    ensures r.Ok? ==> && (total.Counted? ==> r.value.totalReports == |rows|)
                      && (total.NoCount? ==> r.value.totalReports == 0)
                      && (resolved.NoCount? ==> r.value.resolvedReports == 0)
                      && (inProgress.NoCount? ==> r.value.inProgressReports == 0)
    ensures r.Ok? && total.Counted? ==> r.value.resolvedReports + r.value.inProgressReports <= r.value.totalReports
  {
    if total.Failed? then Error(500, "Failed to fetch total reports")
    else if resolved.Failed? then Error(500, "Failed to fetch resolved reports")
    else if inProgress.Failed? then Error(500, "Failed to fetch in-progress reports")
    else
      CountDisjointPair(rows, StatusIs(Completed), Unresolved());
      assert Where(rows, AllRows()) == rows by { WhereAll(rows); }
      Ok(Statistics(CountOrZero(total, rows, AllRows()),
                    CountOrZero(resolved, rows, StatusIs(Completed)),
                    CountOrZero(inProgress, rows, Unresolved())))
  }

  lemma {:induction false} WhereAll(rows: seq<Report>)
    ensures Where(rows, AllRows()) == rows
  {
    if rows != [] {
      WhereAll(rows[1..]);
    }
  }

  /** The resolved count is the number of completed reports and the in-progress count the
      number of reports in any other status the statistics know; a report whose status is
      none of these is in neither. */
  lemma StatisticsCount(rows: seq<Report>, x: Report)
    ensures GetStatistics(rows, Counted, Counted, Counted).Ok?
    ensures var st := GetStatistics(rows, Counted, Counted, Counted).value;
            && st.resolvedReports == |Where(rows, StatusIs(Completed))|
            && st.inProgressReports == |Where(rows, Unresolved())|
            && (x in rows && x.status == Completed ==> x in Where(rows, StatusIs(Completed)))
            && (x in rows && x.status in {Submitted, InProgress, UnderReview} ==> x in Where(rows, Unresolved()))
            && (x !in Where(rows, StatusIs(Completed)) || x !in Where(rows, Unresolved()))
  {
    WhereSound(rows, StatusIs(Completed));
    WhereSound(rows, Unresolved());
  }
}
