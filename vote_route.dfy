/** POST /api/reports/vote: a signed-in user's vote for an open report. The handler looks
    the report up, refuses completed reports, inserts a (report, voter) row unless that
    voter already has one, and answers with the report's vote count. */
module VoteRoute {
  import opened Http
  import opened Tables

  /** The `report_votes` table, and the `reports` table keyed by report id as the
      handler's `eq("id", reportId).single()` lookup sees it. */
  class VoteStore {
    var reports: map<string, Report>
    var votes: set<Vote>

    /** Every vote refers to a stored report. */
    ghost predicate VotesReferToReports()
      reads this
    {
      forall v :: v in votes ==> v.reportId in reports
    }

    constructor (reports: map<string, Report>, votes: set<Vote>)
      ensures this.reports == reports && this.votes == votes
    {
      this.reports := reports;
      this.votes := votes;
    }

    /** The handler. `lookupFails` stands for an error from the report lookup,
        `insertFails` for an error from the vote insert and `countFails` for a count query
        that yields no count. */
    method CastVote(session: Session, reportId: Option<string>, lookupFails: bool, insertFails: bool, countFails: bool)
      returns (r: Reply<nat>)
      modifies this`votes
      ensures !Truthy(session.email) ==> r == Unauthorized() && votes == old(votes)
      ensures Truthy(session.email) && !Truthy(reportId)
              ==> r == Error(400, "Missing reportId") && votes == old(votes)
      ensures Truthy(session.email) && Truthy(reportId) && (lookupFails || reportId.value !in reports)
              ==> r == Error(404, "Report not found") && votes == old(votes)
      ensures Truthy(session.email) && Truthy(reportId) && !lookupFails && reportId.value in reports
              && reports[reportId.value].status == Completed
              ==> r == Error(400, "Voting closed") && votes == old(votes)
      ensures Truthy(session.email) && Truthy(reportId) && !lookupFails && reportId.value in reports
              && reports[reportId.value].status != Completed
              ==> var v := Vote(reportId.value, session.email.value);
                  if v in old(votes) then
                    votes == old(votes)
                    && r == Ok(if countFails then 0 else VoteCount(votes, v.reportId))
                  else if insertFails then
                    votes == old(votes) && r == Error(500, "Failed to record vote")
                  else
                    votes == old(votes) + {v}
                    && r == Ok(if countFails then 0 else VoteCount(old(votes), v.reportId) + 1)
      ensures r.Ok? ==> Vote(reportId.value, session.email.value) in votes
      ensures r.Ok? && !countFails ==> r.value == VoteCount(votes, reportId.value)
      ensures votes == old(votes)
              || (Truthy(session.email) && Truthy(reportId)
                  && votes == old(votes) + {Vote(reportId.value, session.email.value)})
      ensures forall other :: (Truthy(reportId) ==> other != reportId.value)
                              ==> VoteCount(votes, other) == VoteCount(old(votes), other)
      ensures old(VotesReferToReports()) ==> VotesReferToReports()
    {
      if !Truthy(session.email) {
        return Unauthorized();
      }
      var email := session.email.value;
      if !Truthy(reportId) {
        return Error(400, "Missing reportId");
      }
      var id := reportId.value;
      if lookupFails || id !in reports {
        return Error(404, "Report not found");
      }
      if reports[id].status == Completed {
        return Error(400, "Voting closed");
      }
      var v := Vote(id, email);
      if v !in votes {
        if insertFails {
          return Error(500, "Failed to record vote");
        }
        forall other | other != id
          ensures VoteCount(votes + {v}, other) == VoteCount(votes, other)
        {
          VoteCountAdd(votes, v, other);
        }
        VoteCountAdd(votes, v, id);
        votes := votes + {v};
      }
      r := Ok(if countFails then 0 else VoteCount(votes, id));
    }
  }

  /** Voting a second time changes nothing and reports the same count as the first vote. */
  method VoteTwice(store: VoteStore, session: Session, id: string) returns (first: Reply<nat>, second: Reply<nat>)
    requires Truthy(session.email) && id != ""
    requires id in store.reports && store.reports[id].status != Completed
    modifies store
    ensures store.votes == old(store.votes) + {Vote(id, session.email.value)}
    ensures first.Ok? && first == second
  {
    first := store.CastVote(session, Some(id), false, false, false);
    second := store.CastVote(session, Some(id), false, false, false);
  }
}
