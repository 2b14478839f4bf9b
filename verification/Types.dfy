/** Entities shared by the daemon's components. */
module Types {

  datatype Option<+T> = None | Some(value: T)

  datatype JobState =
    | Queued
    | Running
    | Succeeded
    | Failed
    | TimedOut
    | Canceled
    | StartFailed

  datatype Privilege = Unset | User | Root | OtherPrivilege(name: string)

  datatype Mode = UnsetMode | Shell | ArgvMode | OtherMode(name: string)

  /** The decoded body of a run request. `waitSecSet` records whether the JSON
      object had a wait_sec key; it is not part of the encoded request. */
  datatype RunRequest = RunRequest(
    mode: Mode,
    cmd: string,
    argv: seq<string>,
    privilege: Privilege,
    root: Option<bool>,
    cwd: string,
    env: map<string, string>,
    stdin: string,
    timeoutSec: int,
    waitSec: int,
    killGraceSec: int,
    maxStdoutBytes: int,
    maxStderrBytes: int,
    maxStdoutLogBytes: int,
    maxStderrLogBytes: int,
    idempotencyKey: string,
    lockKey: string,
    waitSecSet: bool)

  datatype RunResult = RunResult(
    jobId: string,
    state: JobState,
    exitCode: int,
    timedOut: bool,
    finishedAt: int,
    error: string)

  datatype Metadata = Metadata(
    jobId: string,
    tokenId: string,
    privilege: Privilege,
    remote: string,
    lockKey: string,
    idempotencyKey: string,
    hash: string,
    createdAt: int)

  /** What a job directory holds besides its logs. */
  datatype JobDir = JobDir(meta: Option<Metadata>, result: Option<RunResult>)

  /** The limits and storage settings the job lifecycle reads. */
  datatype Config = Config(
    slots: nat,
    retentionDays: int,
    maxJobsRetained: int,
    maxTotalJobBytes: int)

  /** The clock value of Go's zero time, which marks metadata without a creation time. */
  const ZERO_TIME: int := -62_135_596_800_000_000_000

  /** A day in the clock's unit, nanoseconds. */
  const DAY: int := 86_400_000_000_000

  function Cutoff(cfg: Config, now: int): int {
    now - cfg.retentionDays * DAY
  }

  lemma SubsetSize<T>(a: set<T>, b: set<T>)
    requires a <= b
    ensures |a| <= |b|
  {
    assert b == a + (b - a);
  }
}
