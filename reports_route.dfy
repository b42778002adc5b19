/** /api/reports: POST files a new report unless an active report of the same category and
    jurisdiction lies within 250 m of it; GET lists reports newest first, only the caller's
    own when the caller asks for them by their own email. */
module ReportsRoute {
  import opened Http
  import opened Tables

  /** The duplicate guard's fixed search radius, in meters. */
  const GuardRadiusMeters := 250

  const DuplicateCode := "DUPLICATE_EXISTS"
  const DuplicateMessage := "A similar issue already exists nearby. Please vote instead."

  /** The JSON body of a create request; a field the client left out is `None`. */
  datatype CreateBody = CreateBody(
    images: Option<seq<string>>,
    location: Option<Location>,
    category: Option<string>,
    description: Option<string>,
    nagarNigam: Option<string>,
    voiceNote: Option<string>)

  /** Images present and non-empty, and a location, category and jurisdiction. */
  predicate HasRequiredFields(b: CreateBody)
  {
    && b.images.Some? && |b.images.value| > 0
    && b.location.Some?
    && Truthy(b.category)
    && Truthy(b.nagarNigam)
  }

  /** `x || null`: a falsy optional string is stored as null. */
  function OrNull(x: Option<string>): (r: Option<string>)
    ensures r.Some? ==> r.value != ""
    ensures Truthy(x) ==> r == x
    ensures !Truthy(x) ==> r == None
  {
    if Truthy(x) then x else None
  }

  /** `x || ""`. */
  function OrEmpty(x: Option<string>): (r: string)
    ensures Truthy(x) ==> r == x.value
    ensures !Truthy(x) ==> r == ""
  {
    if Truthy(x) then x.value else ""
  }

  /** The box the guard searches: ±(dLat, dLng) for 250 m at the report's latitude, where
      `delta(meters, latitude)` stands for the handler's meters-to-degrees conversion. */
  function GuardBox(l: Location, delta: (int, real) -> Delta): Box
  {
    BoxAround(l.latitude, l.longitude, delta(GuardRadiusMeters, l.latitude))
  }

  /** The guard's filter: same category, same jurisdiction, an active status, inside the box. */
  function BlocksCreation(category: string, nagarNigam: string, box: Box): Report -> bool
  {
    (r: Report) => r.category == category && r.nagarNigam == nagarNigam && IsActive(r) && InBox(r.location, box)
  }

  /** The guard query, `limit(1)` of that filter. */
  function DuplicateQuery(rows: seq<Report>, category: string, nagarNigam: string, box: Box): seq<Report>
  {
    Take(Where(rows, BlocksCreation(category, nagarNigam, box)), 1)
  }

  /** Some stored report is an active duplicate of the one being filed. */
  predicate ActiveDuplicateExists(rows: seq<Report>, category: string, nagarNigam: string, box: Box)
  {
    exists r :: r in rows && r.category == category && r.nagarNigam == nagarNigam && IsActive(r) && InBox(r.location, box)
  }

  /** The guard query returns a row exactly when an active duplicate exists. */
  lemma DuplicateQueryFinds(rows: seq<Report>, category: string, nagarNigam: string, box: Box)
    ensures |DuplicateQuery(rows, category, nagarNigam, box)| > 0 <==> ActiveDuplicateExists(rows, category, nagarNigam, box)
  {
    var p := BlocksCreation(category, nagarNigam, box);
    WhereSound(rows, p);
    if ActiveDuplicateExists(rows, category, nagarNigam, box) {
      var r :| r in rows && r.category == category && r.nagarNigam == nagarNigam && IsActive(r) && InBox(r.location, box);
      assert p(r);
      assert r in Where(rows, p);
    }
    if |DuplicateQuery(rows, category, nagarNigam, box)| > 0 {
      var r := Where(rows, p)[0];
      assert r in Where(rows, p);
    }
  }

  /** A stored report that is completed, of another category or of another jurisdiction
      never makes the guard fire: adding it to the table leaves the guard's answer as it was. */
  lemma {:induction false} InactiveRowNeverBlocks(rows: seq<Report>, x: Report, category: string, nagarNigam: string, box: Box)
    requires x.status == Completed || x.category != category || x.nagarNigam != nagarNigam
    ensures DuplicateQuery(rows + [x], category, nagarNigam, box) == DuplicateQuery(rows, category, nagarNigam, box)
  {
    var p := BlocksCreation(category, nagarNigam, box);
    WhereAppend(rows, x, p);
    assert !p(x);
    assert Where(rows + [x], p) == Where(rows, p) + [];
    assert Where(rows, p) + [] == Where(rows, p);
  }

  /** The `reports` table, as far as report creation and listing see it. */
  class ReportsTable {
    var rows: seq<Report>

    constructor (rows: seq<Report>)
      ensures this.rows == rows
    {
      this.rows := rows;
    }

    /** POST. `guardFails` stands for the guard query returning an error or throwing;
        `insertFails` for an error from the insert; `newId` and `now` are the id and the
        `created_at` the database assigns to the new row. */
    method Create(session: Session, body: CreateBody, delta: (int, real) -> Delta,
                  guardFails: bool, insertFails: bool, newId: string, now: int)
      returns (r: Reply<Report>)
      modifies this
      ensures !Truthy(session.email) ==> r == Unauthorized() && rows == old(rows)
      ensures Truthy(session.email) && !HasRequiredFields(body)
              ==> r == Error(400, "Missing required fields") && rows == old(rows)
      ensures Truthy(session.email) && HasRequiredFields(body)
              ==> var duplicate := !guardFails && ActiveDuplicateExists(old(rows), body.category.value,
                                                    body.nagarNigam.value, GuardBox(body.location.value, delta));
                  if duplicate then
                    r == Fail(Failure(409, DuplicateMessage, Some(DuplicateCode))) && rows == old(rows)
                  else if insertFails then
                    r == Error(500, "Failed to submit report") && rows == old(rows)
                  else
                    && r == Ok(Report(newId, session.email.value, OrEmpty(session.name), session.email.value,
                                      body.images.value, body.location.value, body.category.value,
                                      OrNull(body.description), body.nagarNigam.value, OrNull(body.voiceNote),
                                      Submitted, now))
                    && rows == old(rows) + [r.value]
      ensures r.Ok? ==> r.value.status == Submitted && r.value.userEmail == r.value.userId == session.email.value
      ensures r.Ok? ==> && r.value.nagarNigam == body.nagarNigam.value
                        && (r.value.userName == "" <==> !Truthy(session.name))
                        && (Truthy(session.name) ==> r.value.userName == session.name.value)
                        && (r.value.description.None? <==> !Truthy(body.description))
                        && (r.value.description.Some? ==> r.value.description == body.description)
                        && (r.value.voiceNote.None? <==> !Truthy(body.voiceNote))
                        && (r.value.voiceNote.Some? ==> r.value.voiceNote == body.voiceNote)
    {
      if !Truthy(session.email) {
        return Unauthorized();
      }
      var email := session.email.value;
      if !HasRequiredFields(body) {
        return Error(400, "Missing required fields");
      }
      var location := body.location.value;
      if !guardFails {
        var dupes := DuplicateQuery(rows, body.category.value, body.nagarNigam.value, GuardBox(location, delta));
        DuplicateQueryFinds(rows, body.category.value, body.nagarNigam.value, GuardBox(location, delta));
        if |dupes| > 0 {
          return Fail(Failure(409, DuplicateMessage, Some(DuplicateCode)));
        }
      }
      if insertFails {
        return Error(500, "Failed to submit report");
      }
      var row := Report(newId, email, OrEmpty(session.name), email, body.images.value, location,
                        body.category.value, OrNull(body.description), body.nagarNigam.value,
                        OrNull(body.voiceNote), Submitted, now);
      rows := rows + [row];
      r := Ok(row);
    }
  }

  function OwnedBy(email: string): Report -> bool
  {
    (r: Report) => r.userEmail == email
  }

  /** GET. `userEmail` is the query parameter; `queryFails` stands for an error from the
      select. */
  function ListReports(session: Session, userEmail: Option<string>, rows: seq<Report>, queryFails: bool)
    : (r: Reply<seq<Report>>)
    ensures !Truthy(session.email) ==> r == Unauthorized()
    ensures Truthy(session.email) && queryFails ==> r == Error(500, "Failed to fetch reports")
    ensures Truthy(session.email) && !queryFails ==> r.Ok? && NewestFirst(r.value)
    ensures r.Ok? && Truthy(userEmail) && userEmail.value == session.email.value
            ==> forall x :: multiset(r.value)[x] == if x.userEmail == userEmail.value then multiset(rows)[x] else 0
    ensures r.Ok? && !(Truthy(userEmail) && userEmail.value == session.email.value)
            ==> multiset(r.value) == multiset(rows)
  {
    if !Truthy(session.email) then Unauthorized()
    else if queryFails then Error(500, "Failed to fetch reports")
    else if Truthy(userEmail) && userEmail.value == session.email.value then
      WhereMultiset(rows, OwnedBy(userEmail.value));
      Ok(SortNewestFirst(Where(rows, OwnedBy(userEmail.value))))
    else Ok(SortNewestFirst(rows))
  }
}
