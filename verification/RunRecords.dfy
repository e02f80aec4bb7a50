/**
  The typed record of one benchmark run: the fields its judgement reads. Floating-point fields are
  exact rationals.
  */
module RunRecords {
  import opened Arith
  import opened Slots
  import opened Histogram
  import opened Deliveries

  datatype Profile = Recorded | Smoke
  datatype ServerKind = Uring | Tokio | Mosquitto
  datatype RunKind = Throughput | Latency | Connections | Counted {
    /** The kinds the generator paces from a slot grid. */
    predicate IsOpenLoop() {
      Latency? || Counted?
    }
  }
  datatype SyscallMethod = Perf | Strace | NoCounter
  datatype CounterExit = Code(code: int) | Signal(signal: int)

  /** A rate whose divisor the record supplies: `x / 0` is infinite, `0 / 0` is not a number. */
  datatype Float = Finite(v: real) | Infinite | NaN

  datatype Counts = Counts(
    scheduled: Option<nat>,
    windowScheduled: Option<nat>,
    offered: nat,
    acked: Option<nat>,
    delivered: nat,
    dropped: Option<nat>,
    unresolved: nat,
    duplicates: nat,
    foreignPayloads: nat,
    latencyOverRange: nat,
    clockAnomalies: nat)

  datatype LatencySummary = LatencySummary(p50: nat, p99: nat, max: nat, histogram: Histogram)

  datatype Syscalls = Syscalls(
    method_: SyscallMethod,
    count: Option<nat>,
    perMsg: Option<real>,
    raw: Option<string>,
    enabledNs: Option<nat>,
    disabledNs: Option<nat>,
    exit: Option<CounterExit>)

  datatype DriverFds = DriverFds(ioUring: nat, eventpoll: nat)

  datatype GeneratorErrors = GeneratorErrors(
    connect: nat, protocol: nat, missedSlots: nat, stalled: nat, latenessOverRange: nat)

  datatype ConfigKey = ConfigKey(
    server: ServerKind, workers: u32, qos: Option<nat>, kind: RunKind, offeredRate: Option<u64>)

  /** Why a record is invalid: a reconciliation row, or a harness error quoted as it is (row 28). */
  datatype Reason = Row(row: nat) | HarnessError(text: string)

  datatype RunRecord = RunRecord(
    key: ConfigKey,
    repetition: u32,
    attempt: u32,
    warmupSecs: u64,
    windowSecs: u64,
    originNs: u64,
    window: Window,
    timeline: Timeline,
    cyclesInWindow: Option<nat>,
    counts: Counts,
    throughput: Option<real>,
    last10s: Option<real>,
    latencyNs: Option<LatencySummary>,
    lateness: Histogram,
    latenessP99Ns: Option<nat>,
    lastWriteStartNs: Option<nat>,
    connectionsPerSec: Option<Float>,
    errors: GeneratorErrors,
    syscalls: Syscalls,
    driver: Option<DriverFds>,
    harnessErrors: seq<string>,
    valid: bool,
    invalidReasons: seq<Reason>,
    cancelled: bool)

  /** Opens the harness error that names a child a run could not end. */
  const CLEANUP_SURVIVOR_PREFIX: string := "child survived cleanup: "

  /** Opens the harness error of a run that found its scratch directory taken. */
  const SCRATCH_REUSED_PREFIX: string := "scratch directory reused: "
}
