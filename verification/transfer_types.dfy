/** The records of the Storage Transfer API that the reconciler reads and
    builds (package storagetransfer/v1), and its own desired configuration.
    A Go pointer field that may be nil is an Option. */
module TransferTypes {
  import opened Wrappers
  import Text

  datatype Date = Date(year: int, month: int, day: int)

  datatype TimeOfDay = TimeOfDay(hours: int, minutes: int, seconds: int)

  datatype Schedule = Schedule(
    scheduleStartDate: Option<Date>,
    scheduleEndDate: Option<Date>,
    startTimeOfDay: Option<TimeOfDay>,
    repeatInterval: string)

  /** Include prefixes and the two age bounds, which the API carries as
      duration strings such as "432000s". */
  datatype ObjectConditions = ObjectConditions(
    includePrefixes: seq<string>,
    maxTimeElapsedSinceLastModification: string,
    minTimeElapsedSinceLastModification: string)

  datatype TransferOptions = TransferOptions(deleteObjectsFromSourceAfterTransfer: bool)

  /** Source and sink bucket names, with "" standing for an absent bucket. */
  datatype TransferSpec = TransferSpec(
    gcsDataSource: string,
    gcsDataSink: string,
    objectConditions: Option<ObjectConditions>,
    transferOptions: Option<TransferOptions>)

  datatype TransferJob = TransferJob(
    name: string,
    description: string,
    projectId: string,
    schedule: Option<Schedule>,
    transferSpec: Option<TransferSpec>,
    status: string)

  datatype UpdateTransferJobRequest = UpdateTransferJobRequest(projectId: string, transferJob: TransferJob)

  /** A time of day as the `-time HH:MM:SS` flag holds it (flagx.Time). */
  datatype FlagTime = FlagTime(hour: int, minute: int, second: int)
  {
    /** What parsing "HH:MM:SS" can produce. */
    predicate Valid()
    {
      0 <= hour < 24 && 0 <= minute < 60 && 0 <= second < 60
    }

    /** flagx.Time.String: zero-padded HH:MM:SS. */
    function String(): string
    {
      Text.Clock(hour, minute, second)
    }
  }

  /** The configuration fields of stctl's Command that the reconciler reads.
      Ages are time.Duration values, in nanoseconds. */
  datatype Config = Config(
    project: string,
    sourceBucket: string,
    targetBucket: string,
    prefixes: seq<string>,
    startTime: FlagTime,
    interval: string,
    minFileAge: int,
    maxFileAge: int,
    deleteAfterTransfer: bool)

  const Second := 1_000_000_000

  /** The largest time.Duration: durations are signed 64-bit nanosecond counts. */
  const MaxDuration := 0x7FFF_FFFF_FFFF_FFFF

  /** The most whole seconds a time.Duration holds: MaxDuration / Second. */
  const MaxSeconds := 9_223_372_036

  /** A job this system manages: it has a schedule and that schedule has no
      end date (one-shot jobs have one). */
  predicate Managed(job: TransferJob)
  {
    job.schedule.Some? && job.schedule.value.scheduleEndDate.None?
  }
}
