/** `ReportService`: user reports, at most one from any reporter about any user, their
    listings, the status update an administrator makes, and the number of distinct users
    who reported someone. The clock is a parameter. */
module Reports {
  import opened Wrappers
  import opened Ids
  import opened Collections

  datatype ReportReason =
    Spam | Harassment | InappropriateContent | HateSpeech | Impersonation
    | ViolenceThreat | PrivacyViolation | Fraud | OtherReason

  datatype ReportStatus = Pending | Reviewed | Resolved | Rejected | Escalated

  datatype Report = Report(id: ReportId, reporter: UserId, reportedUser: UserId, reason: ReportReason,
                           description: Option<string>, createdAt: Millis, status: ReportStatus,
                           resolvedAt: Option<Millis>, resolvedBy: Option<UserId>, resolutionNote: Option<string>)

  datatype ReportError = AlreadyReported

  /** `existsByReporterAndReportedUser`. */
  predicate Reported(reports: seq<Report>, reporter: UserId, reportedUser: UserId) {
    exists r :: r in reports && r.reporter == reporter && r.reportedUser == reportedUser
  }

  /** No reporter has reported the same user twice. */
  ghost predicate OnePerPair(reports: seq<Report>) {
    forall i, j :: 0 <= i < j < |reports| ==>
      reports[i].reporter != reports[j].reporter || reports[i].reportedUser != reports[j].reportedUser
  }

  /** `findByReportedUser`. */
  function ReportsAgainst(reports: seq<Report>, u: UserId): (r: seq<Report>)
    ensures IsSubseq(r, reports)
    ensures forall x :: x in r <==> x in reports && x.reportedUser == u
  {
    Filter(reports, (x: Report) => x.reportedUser == u)
  }

  /** `findByReporter`. */
  function ReportsBy(reports: seq<Report>, u: UserId): (r: seq<Report>)
    ensures IsSubseq(r, reports)
    ensures forall x :: x in r <==> x in reports && x.reporter == u
  {
    Filter(reports, (x: Report) => x.reporter == u)
  }

  function CreatedAtKey(r: Report): int { r.createdAt }

  /** `findByStatusOrderByCreatedAtDesc`: the reports in that status, newest first. */
  function ReportsInStatus(reports: seq<Report>, status: ReportStatus): (r: seq<Report>)
    ensures SortedDesc(r, CreatedAtKey)
    ensures multiset(r) == multiset(Filter(reports, (x: Report) => x.status == status))
    ensures forall x :: x in r ==> x in reports && x.status == status
  {
    var mine := Filter(reports, (x: Report) => x.status == status);
    var r := SortDesc(mine, CreatedAtKey);
    assert forall x :: x in r ==> x in multiset(mine);
    r
  }

  /** `countDistinctReportersByReportedUser`. */
  function ReportersOf(reports: seq<Report>, u: UserId): (r: set<UserId>)
    ensures forall v :: v in r <==> Reported(reports, v, u)
  {
    set x | x in reports && x.reportedUser == u :: x.reporter
  }

  /** With one report per pair, the number of distinct reporters of a user is the number of
      reports against them. */
  lemma {:induction false} DistinctReportersCount(reports: seq<Report>, u: UserId)
    requires OnePerPair(reports)
    ensures |ReportersOf(reports, u)| == |ReportsAgainst(reports, u)|
  {
    if reports != [] {
      var rest := reports[1..];
      var head := reports[0];
      OnePerPairTail(reports);
      DistinctReportersCount(rest, u);
      ReportersOfCons(reports, u);
      if head.reportedUser == u {
        forall k | 0 <= k < |rest| && rest[k].reportedUser == u ensures rest[k].reporter != head.reporter {
          assert reports[k + 1] == rest[k];
        }
        assert head.reporter !in ReportersOf(rest, u);
      }
    }
  }

  lemma OnePerPairTail(reports: seq<Report>)
    requires reports != [] && OnePerPair(reports)
    ensures OnePerPair(reports[1..])
  {
    var rest := reports[1..];
    forall i, j | 0 <= i < j < |rest|
      ensures rest[i].reporter != rest[j].reporter || rest[i].reportedUser != rest[j].reportedUser
    {
      assert rest[i] == reports[i + 1] && rest[j] == reports[j + 1];
    }
  }

  /** The reporters of `u` are the first report's reporter, when it is about `u`, and those
      of the rest. */
  lemma ReportersOfCons(reports: seq<Report>, u: UserId)
    requires reports != []
    ensures ReportersOf(reports, u)
         == (if reports[0].reportedUser == u then {reports[0].reporter} else {}) + ReportersOf(reports[1..], u)
  {
    assert forall x :: x in reports <==> x == reports[0] || x in reports[1..];
  }

  /** `findById`: where the report with that id is stored. */
  function IndexOfReport(reports: seq<Report>, id: ReportId): (r: Option<nat>)
    ensures r.None? <==> forall i :: 0 <= i < |reports| ==> reports[i].id != id
    ensures r.Some? ==> r.value < |reports| && reports[r.value].id == id
                        && forall j :: 0 <= j < r.value ==> reports[j].id != id
  {
    if reports == [] then None
    else if reports[0].id == id then Some(0)
    else
      var r := IndexOfReport(reports[1..], id);
      assert forall j :: 1 <= j < |reports| ==> reports[1..][j - 1] == reports[j];
      if r.None? then None else Some(r.value + 1)
  }

  class ReportService {
    var reports: seq<Report>
    var nextId: ReportId

    ghost predicate Valid()
      reads this
    {
      && OnePerPair(reports)
      && (forall i :: 0 <= i < |reports| ==> reports[i].id < nextId)
      && (forall i, j :: 0 <= i < j < |reports| ==> reports[i].id != reports[j].id)
    }

    constructor ()
      ensures Valid() && reports == []
    {
      reports := [];
      nextId := 1;
    }

    /** `createReport`: refused when the reporter already reported that user, whatever the
        earlier report's status; otherwise stored as a new pending report. */
    method CreateReport(reporter: UserId, reportedUser: UserId, reason: ReportReason,
                        description: Option<string>, now: Millis)
      returns (r: Result<Report, ReportError>)
      requires Valid()
      modifies this
      ensures Valid()
      ensures Reported(old(reports), reporter, reportedUser) <==> r == Err(AlreadyReported)
      ensures r.Err? ==> reports == old(reports)
      ensures r.Ok? ==> reports == old(reports) + [r.value]
                        && r.value == Report(r.value.id, reporter, reportedUser, reason, description, now,
                                             Pending, None, None, None)
      ensures Reported(reports, reporter, reportedUser)
    {
      if exists x :: x in reports && x.reporter == reporter && x.reportedUser == reportedUser {
        return Err(AlreadyReported);
      }
      var report := Report(nextId, reporter, reportedUser, reason, description, now, Pending, None, None, None);
      forall i | 0 <= i < |reports|
        ensures reports[i].reporter != reporter || reports[i].reportedUser != reportedUser
      {
        assert reports[i] in reports;
      }
      reports := reports + [report];
      nextId := nextId + 1;
      assert report in reports;
      r := Ok(report);
    }

    /** `updateReportStatus`: a known report takes the status, `now`, the administrator and
        the note; an unknown id gives null and changes nothing. */
    method UpdateReportStatus(reportId: ReportId, status: ReportStatus, resolvedBy: Option<UserId>,
                              resolutionNote: Option<string>, now: Millis)
      returns (r: Option<Report>)
      requires Valid()
      modifies this
      ensures Valid()
      ensures |reports| == |old(reports)|
      ensures (forall i :: 0 <= i < |old(reports)| ==> old(reports)[i].id != reportId) <==> r.None?
      ensures r.None? ==> reports == old(reports)
      ensures forall i :: 0 <= i < |reports| ==>
                reports[i] == if old(reports)[i].id == reportId
                              then old(reports)[i].(status := status, resolvedAt := Some(now),
                                                    resolvedBy := resolvedBy, resolutionNote := resolutionNote)
                              else old(reports)[i]
      ensures r.Some? ==> r.value in reports && r.value.id == reportId && r.value.status == status
    {
      var found := IndexOfReport(reports, reportId);
      if found.None? {
        return None;
      }
      var i := found.value;
      var updated := reports[i].(status := status, resolvedAt := Some(now),
                                 resolvedBy := resolvedBy, resolutionNote := resolutionNote);
      reports := reports[i := updated];
      return Some(updated);
    }

    function GetReportsByReporter(reporter: UserId): (r: seq<Report>)
      reads this
      ensures forall x :: x in r <==> x in reports && x.reporter == reporter
    {
      ReportsBy(reports, reporter)
    }

    function GetReportsByReportedUser(reportedUser: UserId): (r: seq<Report>)
      reads this
      ensures forall x :: x in r <==> x in reports && x.reportedUser == reportedUser
    {
      ReportsAgainst(reports, reportedUser)
    }

    function GetReportsByStatus(status: ReportStatus): (r: seq<Report>)
      reads this
      ensures SortedDesc(r, CreatedAtKey)
      ensures forall x :: x in r ==> x in reports && x.status == status
    {
      ReportsInStatus(reports, status)
    }

    /** `getPendingReports`: the pending reports, newest first. */
    function GetPendingReports(): (r: seq<Report>)
      reads this
      ensures r == GetReportsByStatus(Pending)
      ensures forall x :: x in r ==> x.status == Pending
    {
      ReportsInStatus(reports, Pending)
    }

    /** `getReportCountForUser`: how many different users reported `u`; with one report per
        pair that is the number of reports against `u`. */
    function GetReportCountForUser(u: UserId): (n: nat)
      reads this
      requires Valid()
      ensures n == |GetReportsByReportedUser(u)|
      ensures n == 0 <==> forall x :: x in reports ==> x.reportedUser != u
    {
      DistinctReportersCount(reports, u);
      |ReportersOf(reports, u)|
    }

    /** `hasAlreadyReported`. */
    predicate HasAlreadyReported(reporter: UserId, reportedUser: UserId)
      reads this
    {
      Reported(reports, reporter, reportedUser)
    }
  }
}
