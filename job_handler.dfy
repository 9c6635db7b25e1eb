/**
 * `GetStatus` of backend/internal/api/job.go: a missing job is 404, a job
 * whose video belongs to someone else is 403, and otherwise the job is
 * returned. The owner is read from the preloaded video; when that video is
 * gone the preload leaves a zero-valued record, whose user id is 0.
 */
module JobHandler {
  import opened Records

  /** `job.Video.UserID` after `Preload("Video")`. */
  function PreloadedOwner(videos: map<nat, Video>, job: Job): nat {
    if job.videoId in videos then videos[job.videoId].userId else 0
  }

  function GetStatus(jobs: map<nat, Job>, videos: map<nat, Video>, userId: nat, jobId: nat): Reply<Job> {
    if jobId !in jobs then
      Err(StatusNotFound, "Job not found")
    else if PreloadedOwner(videos, jobs[jobId]) != userId then
      Err(StatusForbidden, "Access denied")
    else
      Ok(StatusOK, jobs[jobId])
  }

  /** The three-way decision, each outcome with its exact condition. */
  lemma GetStatusOutcomes(jobs: map<nat, Job>, videos: map<nat, Video>, userId: nat, jobId: nat)
    ensures var r := GetStatus(jobs, videos, userId, jobId);
      && (r == Err(StatusNotFound, "Job not found") <==> jobId !in jobs)
      && (r == Err(StatusForbidden, "Access denied") <==>
            jobId in jobs
            && ((jobs[jobId].videoId in videos && videos[jobs[jobId].videoId].userId != userId)
                || (jobs[jobId].videoId !in videos && userId != 0)))
      && (r.Ok? <==> jobId in jobs && PreloadedOwner(videos, jobs[jobId]) == userId)
      && (r.Ok? ==> r.status == StatusOK && r.body == jobs[jobId])
  {
  }

  /**
   * For every real user (ids start at 1) a job is returned only when its
   * video exists and belongs to that user; a job whose video is gone is
   * denied to all of them.
   */
  lemma OkMeansOwned(jobs: map<nat, Job>, videos: map<nat, Video>, userId: nat, jobId: nat)
    requires userId >= 1
    ensures GetStatus(jobs, videos, userId, jobId).Ok? ==>
      jobs[jobId].videoId in videos && videos[jobs[jobId].videoId].userId == userId
    ensures jobId in jobs && jobs[jobId].videoId !in videos ==>
      GetStatus(jobs, videos, userId, jobId) == Err(StatusForbidden, "Access denied")
  {
  }
}
