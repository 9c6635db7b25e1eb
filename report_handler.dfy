/**
 * `GetByVideoID` of backend/internal/api/report.go: ownership of the video
 * is decided before the report is looked up. The database is two maps:
 * live videos by id, and reports by the video id they belong to (the
 * column is unique).
 */
module ReportHandler {
  import opened Records

  /** Reports are filed under their own video id. */
  predicate ReportsKeyed(reports: map<nat, Report>) {
    forall v :: v in reports ==> reports[v].videoId == v
  }

  predicate Owns(videos: map<nat, Video>, userId: nat, videoId: nat) {
    videoId in videos && videos[videoId].userId == userId
  }

  function GetByVideoID(videos: map<nat, Video>, reports: map<nat, Report>, userId: nat, videoId: nat): Reply<Report> {
    if !Owns(videos, userId, videoId) then
      Err(StatusNotFound, "Video not found")
    else if videoId !in reports then
      Err(StatusNotFound, "Report not found")
    else
      Ok(StatusOK, reports[videoId])
  }

  /**
   * A caller who does not own the video learns nothing about its report:
   * the reply is the same whatever the reports table holds.
   */
  lemma NotOwnedHidesReport(videos: map<nat, Video>, r1: map<nat, Report>, r2: map<nat, Report>, userId: nat, videoId: nat)
    requires !Owns(videos, userId, videoId)
    ensures GetByVideoID(videos, r1, userId, videoId) == GetByVideoID(videos, r2, userId, videoId)
    ensures GetByVideoID(videos, r1, userId, videoId) == Err(StatusNotFound, "Video not found")
  {
  }

  /**
   * The three outcomes: 200 exactly when the caller owns the video and it
   * has a report, and then the report is that video's, owned by the caller.
   */
  lemma GetByVideoIDOutcomes(videos: map<nat, Video>, reports: map<nat, Report>, userId: nat, videoId: nat)
    requires ReportsKeyed(reports)
    ensures var r := GetByVideoID(videos, reports, userId, videoId);
      && (r.Ok? <==> Owns(videos, userId, videoId) && videoId in reports)
      && (r.Ok? ==> r.status == StatusOK && r.body.videoId == videoId && Owns(videos, userId, r.body.videoId))
      && (r == Err(StatusNotFound, "Report not found") <==> Owns(videos, userId, videoId) && videoId !in reports)
      && (r.Err? ==> r.status == StatusNotFound)
  {
  }
}
