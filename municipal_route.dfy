/** GET /api/municipal: the reports of one jurisdiction, newest first, with how many of
    them are in each status. */
module MunicipalRoute {
  import opened Http
  import opened Tables

  datatype Stats = Stats(total: nat, submitted: nat, inProgress: nat, completed: nat)

  datatype MunicipalView = MunicipalView(reports: seq<Report>, stats: Stats)

  function InJurisdiction(nagarNigam: string): Report -> bool
  {
    (r: Report) => r.nagarNigam == nagarNigam
  }

  /** The `stats` object: the number of reports and the number with each status. */
  function ReportStats(reports: seq<Report>): Stats
  {
    Stats(|reports|,
          |Where(reports, StatusIs(Submitted))|,
          |Where(reports, StatusIs(InProgress))|,
          |Where(reports, StatusIs(Completed))|)
  }

  /** The three status counts never exceed the total, and add up to it when every report
      has one of the three statuses. */
  lemma StatsAddUp(reports: seq<Report>)
    ensures var st := ReportStats(reports);
            st.submitted + st.inProgress + st.completed <= st.total
    ensures (forall i :: 0 <= i < |reports| ==> reports[i].status in {Submitted, InProgress, Completed})
            ==> var st := ReportStats(reports);
                st.submitted + st.inProgress + st.completed == st.total
  {
    CountDisjointTriple(reports, StatusIs(Submitted), StatusIs(InProgress), StatusIs(Completed));
  }

  /** The handler. `queryFails` stands for an error from the select. */
  function MunicipalReports(nagarNigam: Option<string>, rows: seq<Report>, queryFails: bool)
    : (r: Reply<MunicipalView>)
    ensures !Truthy(nagarNigam) ==> r == Error(400, "Municipal corporation not specified")
    ensures Truthy(nagarNigam) && queryFails ==> r == Error(500, "Failed to fetch reports")
    ensures Truthy(nagarNigam) && !queryFails ==> r.Ok?
    ensures r.Ok? ==>
              && NewestFirst(r.value.reports)
              && (forall x :: multiset(r.value.reports)[x]
                               == if x.nagarNigam == nagarNigam.value then multiset(rows)[x] else 0)
              && r.value.stats.total == |r.value.reports|
              && r.value.stats.submitted == |Where(r.value.reports, StatusIs(Submitted))|
              && r.value.stats.inProgress == |Where(r.value.reports, StatusIs(InProgress))|
              && r.value.stats.completed == |Where(r.value.reports, StatusIs(Completed))|
              && r.value.stats.submitted + r.value.stats.inProgress + r.value.stats.completed
                 <= r.value.stats.total
    ensures r.Ok? && (forall x :: x in rows && x.nagarNigam == nagarNigam.value
                                  ==> x.status in {Submitted, InProgress, Completed})
            ==> r.value.stats.submitted + r.value.stats.inProgress + r.value.stats.completed
                == r.value.stats.total
  {
    if !Truthy(nagarNigam) then Error(400, "Municipal corporation not specified")
    else if queryFails then Error(500, "Failed to fetch reports")
    else
      var reports := SortNewestFirst(Where(rows, InJurisdiction(nagarNigam.value)));
      WhereMultiset(rows, InJurisdiction(nagarNigam.value));
      StatsAddUp(reports);
      Ok(MunicipalView(reports, ReportStats(reports)))
  }
}
