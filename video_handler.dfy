/**
 * `Upload` of backend/internal/api/video.go: the multipart files are
 * filtered (video extension, size limit), each admitted file is saved and
 * recorded, its job is created and pushed onto the job queue, and the
 * stored videos are returned in input order. Saving, the database inserts
 * and the clock are outside the model: what happened to the file at index
 * i arrives as `persist(i)`.
 */
module VideoHandler {
  import opened Wrappers
  import opened Records
  import VideoFormat

  /** A `*multipart.FileHeader`: the client's file name and the part's size. */
  datatype FileHeader = FileHeader(filename: string, size: int)

  /** How the per-file work after the filter ended. */
  datatype Persisted =
    | Stored(videoId: nat)   // saved, video row and job row inserted
    | SaveFailed             // c.SaveUploadedFile failed
    | VideoInsertFailed      // the video insert failed (the saved file is removed)
    | JobInsertFailed        // the job insert failed (the video row stays)

  /** The 201 body: `message`, `count` and `videos`. */
  datatype Uploaded = Uploaded(message: string, count: nat, videos: seq<Video>)

  /** The worker queue of backend/internal/worker/queue.go, as the ids pushed so far. */
  class JobQueue {
    var pushed: seq<nat>

    constructor ()
      ensures pushed == []
    {
      pushed := [];
    }

    method Push(videoId: nat)
      modifies this
      ensures pushed == old(pushed) + [videoId]
    {
      pushed := pushed + [videoId];
    }
  }

  /** The two checks at the top of the loop: a video extension and at most `maxFileSize` bytes. */
  predicate Admitted(f: FileHeader, maxFileSize: int) {
    VideoFormat.IsVideoFile(f.filename) && f.size <= maxFileSize
  }

  /** The record inserted for an admitted file. */
  function Record(f: FileHeader, id: nat, userId: nat): Video {
    Video(id, userId, f.filename, f.size, VideoPending)
  }

  /** One turn of the loop: the video list after looking at file f. */
  function Appended(earlier: seq<Video>, f: FileHeader, outcome: Persisted, userId: nat, maxFileSize: int): seq<Video> {
    if Admitted(f, maxFileSize) && outcome.Stored? then earlier + [Record(f, outcome.videoId, userId)] else earlier
  }

  /** The videos the loop has appended after the first n files. */
  function UploadedPrefix(files: seq<FileHeader>, n: nat, userId: nat, maxFileSize: int, persist: nat -> Persisted): seq<Video>
    requires n <= |files|
  {
    if n == 0 then []
    else Appended(UploadedPrefix(files, n - 1, userId, maxFileSize, persist), files[n - 1], persist(n - 1), userId, maxFileSize)
  }

  function Ids(vs: seq<Video>): (ids: seq<nat>)
    ensures |ids| == |vs| && forall i :: 0 <= i < |vs| ==> ids[i] == vs[i].id
  {
    if vs == [] then [] else Ids(vs[..|vs| - 1]) + [vs[|vs| - 1].id]
  }

  /** Pushing one more video's id extends the pushed ids by that video. */
  lemma PushedAppend(before: seq<nat>, vs: seq<Video>, v: Video)
    ensures before + Ids(vs) + [v.id] == before + Ids(vs + [v])
  {
    assert (vs + [v])[..|vs|] == vs;
  }

  /**
   * The handler's loop over the files: skip what the filter refuses or what
   * could not be stored, push each stored video's job and append the video.
   */
  method StoreAll(files: seq<FileHeader>, userId: nat, maxFileSize: int, persist: nat -> Persisted, jobs: JobQueue)
    returns (uploadedVideos: seq<Video>)
    modifies jobs
    ensures uploadedVideos == UploadedPrefix(files, |files|, userId, maxFileSize, persist)
    ensures jobs.pushed == old(jobs.pushed) + Ids(uploadedVideos)
  {
    ghost var before := jobs.pushed;
    uploadedVideos := [];
    var i := 0;
    while i < |files|
      invariant 0 <= i <= |files|
      invariant uploadedVideos == UploadedPrefix(files, i, userId, maxFileSize, persist)
      invariant jobs.pushed == before + Ids(uploadedVideos)
    {
      var file := files[i];
      var outcome := persist(i);
      ghost var next := Appended(uploadedVideos, file, outcome, userId, maxFileSize);
      assert next == UploadedPrefix(files, i + 1, userId, maxFileSize, persist);
      if Admitted(file, maxFileSize) && outcome.Stored? {
        var videoRecord := Record(file, outcome.videoId, userId);
        jobs.Push(videoRecord.id);
        PushedAppend(before, uploadedVideos, videoRecord);
        uploadedVideos := uploadedVideos + [videoRecord];
      }
      assert uploadedVideos == next;
      i := i + 1;
    }
  }

  /**
   * The handler. `form` is None when the multipart form does not parse and
   * otherwise holds the parts named "videos"; `mkdirOk` is whether the
   * upload directory could be created.
   */
  method Upload(form: Option<seq<FileHeader>>, mkdirOk: bool, userId: nat, maxFileSize: int,
                persist: nat -> Persisted, jobs: JobQueue) returns (reply: Reply<Uploaded>)
    modifies jobs
    ensures form.None? ==> reply == Err(StatusBadRequest, "Failed to parse form") && jobs.pushed == old(jobs.pushed)
    ensures form == Some([]) ==> reply == Err(StatusBadRequest, "No files provided") && jobs.pushed == old(jobs.pushed)
    ensures form.Some? && form.value != [] && !mkdirOk ==>
      reply == Err(StatusInternalServerError, "Failed to create upload directory") && jobs.pushed == old(jobs.pushed)
    ensures form.Some? && form.value != [] && mkdirOk ==>
      var vs := UploadedPrefix(form.value, |form.value|, userId, maxFileSize, persist);
      && jobs.pushed == old(jobs.pushed) + Ids(vs)
      && (vs == [] ==> reply == Err(StatusBadRequest, "No valid videos uploaded"))
      && (vs != [] ==> reply == Ok(StatusCreated, Uploaded("Videos uploaded successfully", |vs|, vs)))
  {
    if form.None? {
      return Err(StatusBadRequest, "Failed to parse form");
    }
    var files := form.value;
    if |files| == 0 {
      return Err(StatusBadRequest, "No files provided");
    }
    if !mkdirOk {
      return Err(StatusInternalServerError, "Failed to create upload directory");
    }
    var uploadedVideos := StoreAll(files, userId, maxFileSize, persist, jobs);
    if |uploadedVideos| == 0 {
      return Err(StatusBadRequest, "No valid videos uploaded");
    }
    reply := Ok(StatusCreated, Uploaded("Videos uploaded successfully", |uploadedVideos|, uploadedVideos));
  }

  /** The admitted files, in input order: the reference the upload result is compared with. */
  function AdmittedFiles(files: seq<FileHeader>, maxFileSize: int): seq<FileHeader> {
    if files == [] then []
    else
      var rest := AdmittedFiles(files[..|files| - 1], maxFileSize);
      var f := files[|files| - 1];
      if Admitted(f, maxFileSize) then rest + [f] else rest
  }

  /**
   * Every uploaded video is pending, belongs to the caller, and comes from
   * an admitted file at or before its place, with that file's name and
   * size; there are never more videos than files.
   */
  lemma {:induction false} UploadedAreAdmitted(files: seq<FileHeader>, n: nat, userId: nat, maxFileSize: int, persist: nat -> Persisted)
    requires n <= |files|
    ensures var vs := UploadedPrefix(files, n, userId, maxFileSize, persist);
      && |vs| <= n
      && forall v :: v in vs ==>
           v.status == VideoPending && v.userId == userId && v.fileSize <= maxFileSize
           && VideoFormat.IsVideoFile(v.originalFilename)
           && exists i :: 0 <= i < n && files[i].filename == v.originalFilename && files[i].size == v.fileSize
                          && persist(i) == Stored(v.id)
  {
    if n > 0 {
      UploadedAreAdmitted(files, n - 1, userId, maxFileSize, persist);
    }
  }

  /** The videos carry the names and sizes of the files, position by position. */
  predicate Matches(vs: seq<Video>, admitted: seq<FileHeader>) {
    && |vs| == |admitted|
    && forall k :: 0 <= k < |vs| ==> vs[k].originalFilename == admitted[k].filename && vs[k].fileSize == admitted[k].size
  }

  lemma MatchesSnoc(vs: seq<Video>, admitted: seq<FileHeader>, v: Video, f: FileHeader)
    requires Matches(vs, admitted) && v.originalFilename == f.filename && v.fileSize == f.size
    ensures Matches(vs + [v], admitted + [f])
  {
  }

  /**
   * When every save and insert succeeds, the reply lists exactly the
   * admitted files, in input order, with the ids the database gave them.
   */
  lemma {:induction false} AllStoredKeepsOrder(files: seq<FileHeader>, n: nat, userId: nat, maxFileSize: int, persist: nat -> Persisted)
    requires n <= |files|
    requires forall i :: 0 <= i < n ==> persist(i).Stored?
    ensures Matches(UploadedPrefix(files, n, userId, maxFileSize, persist), AdmittedFiles(files[..n], maxFileSize))
  {
    if n > 0 {
      AllStoredKeepsOrder(files, n - 1, userId, maxFileSize, persist);
      var f := files[n - 1];
      var vs0 := UploadedPrefix(files, n - 1, userId, maxFileSize, persist);
      var admitted0 := AdmittedFiles(files[..n - 1], maxFileSize);
      assert files[..n][..n - 1] == files[..n - 1];
      assert AdmittedFiles(files[..n], maxFileSize) == if Admitted(f, maxFileSize) then admitted0 + [f] else admitted0;
      if Admitted(f, maxFileSize) {
        MatchesSnoc(vs0, admitted0, Record(f, persist(n - 1).videoId, userId), f);
      }
    }
  }

  /** A video file of exactly the size limit passes the filter and is uploaded. */
  lemma SizeAtLimitUploaded(name: string, maxFileSize: int, userId: nat, persist: nat -> Persisted)
    requires VideoFormat.IsVideoFile(name) && persist(0).Stored?
    ensures UploadedPrefix([FileHeader(name, maxFileSize)], 1, userId, maxFileSize, persist)
      == [Video(persist(0).videoId, userId, name, maxFileSize, VideoPending)]
    ensures UploadedPrefix([FileHeader(name, maxFileSize + 1)], 1, userId, maxFileSize, persist) == []
  {
  }
}
