/**
 * The records the handlers read and return (backend/internal/models), with
 * only the fields the handlers' decisions touch, and the shape of a JSON
 * reply: a status code with a body, or a status code with an error message.
 */
module Records {

  datatype VideoStatus = VideoPending | VideoProcessing | VideoCompleted | VideoFailed

  datatype JobStatus = JobPending | JobProcessing | JobCompleted | JobFailed

  datatype Video = Video(id: nat, userId: nat, originalFilename: string, fileSize: int, status: VideoStatus)

  datatype Job = Job(id: nat, videoId: nat, status: JobStatus)

  datatype Report = Report(id: nat, videoId: nat, sentimentLabel: string, riskLevel: string)

  /** `c.JSON(status, body)` or `c.JSON(status, gin.H{"error": message})`. */
  datatype Reply<T> =
    | Ok(status: int, body: T)
    | Err(status: int, message: string)

  const StatusOK: int := 200
  const StatusCreated: int := 201
  const StatusBadRequest: int := 400
  const StatusForbidden: int := 403
  const StatusNotFound: int := 404
  const StatusInternalServerError: int := 500
}
