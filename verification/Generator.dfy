/** A latency run of the load generator: every connection to its end, and the report over them. */
module Generator {
  import opened Arith
  import opened Slots
  import opened Histogram
  import opened Payload
  import opened Pacer
  import opened Accounts
  import opened Connection

  /** How a connection's task ends: no session, aborted at the hard deadline, or by itself. */
  datatype ConnEnding = Refused | CutShort | Ended(completed: bool)

  /** What happened around a connection: its last clock reading, and what peer, runtime and id allocator did. */
  datatype Env = Env(lastReading: nat, refused: bool, aborted: bool, broken: bool, refusals: nat)

  /** What one connection leaves: how it ended, what it offered and when, why it missed slots, and its counters. */
  datatype ConnResult = ConnResult(
    ending: ConnEnding,
    sent: seq<nat>,            // slots offered, in order
    sends: seq<nat>,           // when their writes had completed, for those that did
    stamps: seq<Stamp>,
    lost: Losses,
    c: Counters,
    env: Env)

  datatype GenReport = GenReport(
    scheduled: Option<nat>,
    windowScheduled: Option<nat>,
    offered: nat,
    acked: Option<nat>,
    missedSlots: nat,
    connectErrors: nat,
    protocolErrors: nat,
    stalled: nat,
    latenessOverRange: nat,
    lastWriteStartNs: Option<nat>,
    cyclesInWindow: Option<nat>,
    lateness: Histogram)

  /** Slots accounted for: all of them, at most all when cut short, none without a session. */
  predicate SlotsSettled(ending: ConnEnding, accounted: nat, own: nat) {
    match ending
    case Ended(_) => accounted == own
    case CutShort => accounted <= own
    case Refused => accounted == 0
  }

  /** How a task ends follows from what was done to it. */
  function EndingOf(env: Env): ConnEnding {
    if env.refused then Refused else if env.aborted then CutShort else Ended(!env.broken)
  }

  /** What the connection's own steps guarantee of its result. */
  ghost predicate Settled(cfg: GenConfig, connId: u32, r: ConnResult)
    requires Accepts(cfg) && connId < cfg.connections
  {
    match r
    case ConnResult(ending, sent, sends, stamps, lost, c, env) =>
      && c.offered == |sent| && Increasing(sent) && Below(sent, Own(cfg, connId))
      && Stamped(cfg, connId, sent, stamps)
      && SlotsSettled(ending, c.offered + c.missed, Own(cfg, connId))
      && (cfg.qos == 1 ==> c.acked + c.stalled <= c.offered)
      && (cfg.qos == 1 && !ending.CutShort? ==> c.offered == c.acked + c.stalled)
      && (cfg.qos != 1 ==> c.acked == 0)
      && ending == EndingOf(env)
      && LossesOk(cfg, connId, lost, c.missed, Own(cfg, connId))
      && Happened(lost, env.lastReading, env.broken, env.refusals)
      && |sends| <= |sent| && (ending == Ended(true) ==> |sends| == |sent|)
      && LatenessOk(cfg, connId, sent[..|sends|], sends, c.lateness, c.latenessOver)
  }

  /** `run_latency_connection`; `None` for a panic, which fails the run. */
  method RunConnection(cfg: GenConfig, connId: u32, cell: WriteStartCell) returns (r: Option<ConnResult>)
    requires Accepts(cfg) && connId < cfg.connections
    requires cell.Valid() && cell.originNs == cfg.origin && cell.endNs == cfg.window.endNs
    modifies cell
    ensures r.Some? ==> Settled(cfg, connId, r.value)
    ensures r.None? ==> !DueTimesFit(cfg.connections, cfg.rate, cfg.origin, cfg.window)
    ensures r.Some? ==> cell.Valid() && old(cell.passed) <= cell.passed && (r.value.sent != [] ==> cell.passed != {})
  {
    var task := new Task();
    var opening := task.Open();
    match opening
    case OpenAborted =>
      return Some(Nothing(CutShort));
    case NoSession(byReply) =>
      return Some(Nothing(Refused).(c := NO_COUNTS.(protocolErrors := if byReply then 1 else 0)));
    case Opened =>
      r := RunSession(cfg, connId, cell, task);
  }

  /** An open session: pace, then tear down, unless the task is aborted on the way. */
  method RunSession(cfg: GenConfig, connId: u32, cell: WriteStartCell, task: Task) returns (r: Option<ConnResult>)
    requires Accepts(cfg) && connId < cfg.connections && !task.refused && !task.broken && !task.aborted
    requires cell.Valid() && cell.originNs == cfg.origin && cell.endNs == cfg.window.endNs
    modifies cell, task
    ensures r.Some? ==> Settled(cfg, connId, r.value)
    ensures r.None? ==> !DueTimesFit(cfg.connections, cfg.rate, cfg.origin, cfg.window)
    ensures r.Some? ==> cell.Valid() && old(cell.passed) <= cell.passed && (r.value.sent != [] ==> cell.passed != {})
  {
    var clock := new Clock();
    var conn := new Connection(cfg, connId, clock, cell, task);
    var result := conn.RunPacer();
    if result.Panicked? {
      return None;
    }
    var one := CloseSession(conn, result);
    r := Some(one);
  }

  /** What a session whose pacer has ended leaves: torn down, unless its task was aborted. */
  method CloseSession(conn: Connection, result: PacerResult) returns (r: ConnResult)
    requires conn.Valid() && conn.p.batch == [] && !result.Panicked? && !conn.task.refused
    requires !result.Aborted? ==> conn.p.nextSlotK == Own(conn.cfg, conn.connId)
    requires result.Finished? ==> conn.p.recorded == |conn.p.sent|
    requires !result.WriteFailed? || conn.cfg.qos == 1 ==> conn.c.stalled == 0
    requires (result.WriteFailed? <==> conn.task.broken) && (result.Aborted? <==> conn.task.aborted)
    modifies conn, conn.task, conn.ids, conn.ids.bits
    ensures Settled(conn.cfg, conn.connId, r) && r.sent == old(conn.p.sent)
  {
    var aborted := result.Aborted?;
    if !aborted {
      aborted := conn.Teardown();
    }
    var env := Env(conn.clock.now, false, aborted, result.WriteFailed?, conn.ids.refusals);
    r := SettleResult(conn.cfg, conn.connId, conn.p, conn.c, env, conn.ids.used, conn.submitted);
  }

  /** The result of a connection whose accounts hold. */
  function SettleResult(cfg: GenConfig, connId: u32, p: Progress, c: Counters, env: Env, ghost used: set<nat>,
                        ghost submitted: set<nat>)
    : (r: ConnResult)
    requires StateOk(cfg, connId, p, c, used, submitted)
    requires p.batch == [] && !env.refused && Happened(p.lost, env.lastReading, env.broken, env.refusals)
    requires !env.aborted ==> p.nextSlotK == Own(cfg, connId)
    requires !env.aborted && !env.broken ==> p.recorded == |p.sent|
    requires if cfg.qos == 1 then c.acked + c.stalled <= c.offered else c.acked == 0
    requires cfg.qos == 1 && !env.aborted ==> c.offered == c.acked + c.stalled
    ensures Settled(cfg, connId, r) && r.sent == p.sent
  {
    assert p.sent[..|p.sent|] == p.sent;
    ConnResult(EndingOf(env), p.sent, p.sends, p.stamps, p.lost, c, env)
  }

  /** The result of a task that offered nothing. */
  function Nothing(ending: ConnEnding): ConnResult {
    ConnResult(ending, [], [], [], START.lost, NO_COUNTS, Env(0, ending.Refused?, ending.CutShort?, false, 0))
  }

  ghost predicate AllSettled(cfg: GenConfig, rs: seq<ConnResult>) {
    Accepts(cfg) && |rs| <= cfg.connections && forall i | 0 <= i < |rs| :: Settled(cfg, i, rs[i])
  }

  /** The last write start lies inside the window, and is there once anything was offered. */
  ghost predicate StartsInWindow(cfg: GenConfig, rs: seq<ConnResult>, lastStart: nat) {
    lastStart < cfg.window.endNs && (Sum(Offered, rs) > 0 ==> cfg.origin <= lastStart)
  }

  /** The results of all connections, the shared write-start cell at the end, and the report over them. */
  datatype GenRun = GenRun(results: seq<ConnResult>, lastStart: nat, report: GenReport)

  /** Every connection of the run, and its report; `None` when a connection panics. */
  method RunGenerator(cfg: GenConfig) returns (r: Option<GenRun>)
    requires Accepts(cfg)
    ensures r.Some? ==> |r.value.results| == cfg.connections && AllSettled(cfg, r.value.results)
    ensures r.Some? ==> StartsInWindow(cfg, r.value.results, r.value.lastStart)
    ensures r.Some? ==> r.value.report == BuildReport(cfg, r.value.results, r.value.lastStart)
    ensures DueTimesFit(cfg.connections, cfg.rate, cfg.origin, cfg.window) ==> r.Some?
  {
    var cell := new WriteStartCell(cfg.origin, cfg.window.endNs);
    var rs: seq<ConnResult> := [];
    for connId := 0 to cfg.connections
      invariant |rs| == connId && AllSettled(cfg, rs)
      invariant cell.Valid() && cell.originNs == cfg.origin && cell.endNs == cfg.window.endNs
      invariant Sum(Offered, rs) > 0 ==> cell.passed != {}
    {
      var one := RunConnection(cfg, connId, cell);
      if one.None? {
        return None;
      }
      assert (rs + [one.value])[..connId] == rs;
      rs := rs + [one.value];
    }
    r := Some(GenRun(rs, cell.value, BuildReport(cfg, rs, cell.value)));
  }

  // ---------------------------------------------------------------- the report

  datatype Counter = Offered | Acked | Missed | ProtocolErrors | Stalled | LatenessOver

  function Read(f: Counter, c: Counters): nat {
    match f
    case Offered => c.offered
    case Acked => c.acked
    case Missed => c.missed
    case ProtocolErrors => c.protocolErrors
    case Stalled => c.stalled
    case LatenessOver => c.latenessOver
  }

  /** A shared counter holds the sum of what every connection added to it. */
  function Sum(f: Counter, rs: seq<ConnResult>): nat {
    if rs == [] then 0 else Sum(f, rs[..|rs| - 1]) + Read(f, rs[|rs| - 1].c)
  }

  /** Connections without a session; each is a connect error. */
  function RefusedCount(rs: seq<ConnResult>): nat {
    if rs == [] then 0 else RefusedCount(rs[..|rs| - 1]) + (if rs[|rs| - 1].ending.Refused? then 1 else 0)
  }

  /** Connections aborted at the hard deadline; each counts one stall. */
  function CutCount(rs: seq<ConnResult>): nat {
    if rs == [] then 0 else CutCount(rs[..|rs| - 1]) + (if rs[|rs| - 1].ending.CutShort? then 1 else 0)
  }

  function MergedLateness(rs: seq<ConnResult>): Histogram {
    if rs == [] then [] else Merge(MergedLateness(rs[..|rs| - 1]), rs[|rs| - 1].c.lateness)
  }

  /** `join_and_report` and `build_report` of a latency run, once every task has ended or was aborted. */
  function BuildReport(cfg: GenConfig, rs: seq<ConnResult>, lastStart: nat): GenReport {
    var counts := SlotCounts(cfg.rate, cfg.origin, cfg.window);
    GenReport(
      if counts.Some? then Some(counts.value.0) else None,
      if counts.Some? then Some(counts.value.1) else None,
      Sum(Offered, rs),
      if cfg.qos == 1 then Some(Sum(Acked, rs)) else None,
      Sum(Missed, rs),
      RefusedCount(rs),
      Sum(ProtocolErrors, rs),
      Sum(Stalled, rs) + CutCount(rs),
      Sum(LatenessOver, rs),
      if lastStart == 0 then None else Some(lastStart),
      None,
      MergedLateness(rs))
  }

  // ---------------------------------------------------------------- what the report adds up to

  lemma SettledPrefix(cfg: GenConfig, rs: seq<ConnResult>)
    requires AllSettled(cfg, rs) && rs != []
    ensures AllSettled(cfg, rs[..|rs| - 1]) && Settled(cfg, |rs| - 1, rs[|rs| - 1])
  {
    var before := rs[..|rs| - 1];
    forall i | 0 <= i < |before| ensures Settled(cfg, i, before[i]) { assert before[i] == rs[i]; }
  }

  /** Slots of the connections that ended by themselves, and of those cut short. */
  function EndedSlots(cfg: GenConfig, rs: seq<ConnResult>): nat
    requires cfg.connections >= 1 && |rs| <= cfg.connections
  {
    if rs == [] then 0
    else EndedSlots(cfg, rs[..|rs| - 1]) + (if rs[|rs| - 1].ending.Ended? then Own(cfg, |rs| - 1) else 0)
  }

  function CutSlots(cfg: GenConfig, rs: seq<ConnResult>): nat
    requires cfg.connections >= 1 && |rs| <= cfg.connections
  {
    if rs == [] then 0
    else CutSlots(cfg, rs[..|rs| - 1]) + (if rs[|rs| - 1].ending.CutShort? then Own(cfg, |rs| - 1) else 0)
  }

  /**
    Whatever opens, fails or is aborted: every slot of a connection that ended is offered or missed,
    and nothing beyond the slots of the connections that opened is.
    */
  lemma {:induction false} RunAccountsForOpenSlots(cfg: GenConfig, rs: seq<ConnResult>, lastStart: nat)
    requires AllSettled(cfg, rs)
    ensures var report := BuildReport(cfg, rs, lastStart);
            EndedSlots(cfg, rs) <= report.offered + report.missedSlots <= EndedSlots(cfg, rs) + CutSlots(cfg, rs)
  {
    if rs != [] {
      SettledPrefix(cfg, rs);
      RunAccountsForOpenSlots(cfg, rs[..|rs| - 1], lastStart);
    }
  }

  lemma {:induction false} AllEndedSlots(cfg: GenConfig, rs: seq<ConnResult>)
    requires Accepts(cfg) && |rs| <= cfg.connections && RefusedCount(rs) == 0 && CutCount(rs) == 0
    ensures EndedSlots(cfg, rs) == SumOwn(|rs|, cfg.connections, Scheduled(cfg)) && CutSlots(cfg, rs) == 0
  {
    if rs != [] { AllEndedSlots(cfg, rs[..|rs| - 1]); }
  }

  /**
    Offered and missed slots together are the whole schedule, unless a session was refused or a task
    aborted; a report without connect errors and stalls shows that neither happened.
    */
  lemma RunConservesSlots(cfg: GenConfig, rs: seq<ConnResult>, lastStart: nat)
    requires AllSettled(cfg, rs) && |rs| == cfg.connections
    ensures var report := BuildReport(cfg, rs, lastStart);
            && report.scheduled == Some(Scheduled(cfg)) && Scheduled(cfg) <= U64_MAX
            && (report.connectErrors == 0 && report.stalled == 0 ==> RefusedCount(rs) == 0 && CutCount(rs) == 0)
            && (RefusedCount(rs) == 0 && CutCount(rs) == 0 ==>
                  report.offered + report.missedSlots == Scheduled(cfg))
  {
    RunAccountsForOpenSlots(cfg, rs, lastStart);
    if RefusedCount(rs) == 0 && CutCount(rs) == 0 {
      AllEndedSlots(cfg, rs);
      OwnCountsPartition(cfg.connections, Scheduled(cfg));
    }
    SlotCountsAreLiteral(cfg.rate, cfg.origin, cfg.window);
  }

  /** Publishes of aborted connections that nobody counted as acknowledged or stalled. */
  function Leaked(rs: seq<ConnResult>): nat {
    if rs == [] then 0
    else
      var r := rs[|rs| - 1];
      Leaked(rs[..|rs| - 1]) + (if r.ending.CutShort? then SatSub(r.c.offered, r.c.acked + r.c.stalled) else 0)
  }

  lemma {:induction false} PublishesAddUp(cfg: GenConfig, rs: seq<ConnResult>)
    requires AllSettled(cfg, rs) && cfg.qos == 1
    ensures Sum(Offered, rs) == Sum(Acked, rs) + Sum(Stalled, rs) + Leaked(rs)
    ensures CutCount(rs) == 0 ==> Leaked(rs) == 0
  {
    if rs != [] {
      SettledPrefix(cfg, rs);
      PublishesAddUp(cfg, rs[..|rs| - 1]);
    }
  }

  /** Nothing kept a connection from sending: a session, whole writes, always a free id, a clock inside the window. */
  predicate Quiet(cfg: GenConfig, env: Env) {
    !env.refused && !env.aborted && !env.broken && env.refusals == 0 && env.lastReading < cfg.window.endNs
  }

  /** Then it misses nothing: every one of its slots is sent, in order. */
  lemma QuietConnection(cfg: GenConfig, connId: u32, r: ConnResult)
    requires Accepts(cfg) && connId < cfg.connections && Settled(cfg, connId, r) && Quiet(cfg, r.env)
    ensures r.ending == Ended(true) && r.c.missed == 0 && r.sent == Run(0, Own(cfg, connId))
  {
    FullIsRun(r.sent, Own(cfg, connId));
  }

  lemma {:induction false} QuietCounts(cfg: GenConfig, rs: seq<ConnResult>)
    requires AllSettled(cfg, rs) && forall i | 0 <= i < |rs| :: Quiet(cfg, rs[i].env)
    ensures Sum(Missed, rs) == 0 && RefusedCount(rs) == 0 && CutCount(rs) == 0
  {
    if rs != [] {
      SettledPrefix(cfg, rs);
      QuietCounts(cfg, rs[..|rs| - 1]);
      QuietConnection(cfg, |rs| - 1, rs[|rs| - 1]);
    }
  }

  /** Over a whole run: if nothing kept any connection from sending, the schedule is offered and no slot is missed. */
  lemma QuietRunMissesNothing(cfg: GenConfig, rs: seq<ConnResult>, lastStart: nat)
    requires AllSettled(cfg, rs) && |rs| == cfg.connections && forall i | 0 <= i < |rs| :: Quiet(cfg, rs[i].env)
    ensures var report := BuildReport(cfg, rs, lastStart);
            report.offered == Scheduled(cfg) && report.missedSlots == 0 && report.connectErrors == 0
    ensures forall i | 0 <= i < |rs| :: rs[i].sent == Run(0, Own(cfg, i))
  {
    QuietCounts(cfg, rs);
    RunConservesSlots(cfg, rs, lastStart);
    forall i | 0 <= i < |rs| ensures rs[i].sent == Run(0, Own(cfg, i)) { QuietConnection(cfg, i, rs[i]); }
  }

  /**
    QoS 1, for every run: the report's stalls stand for the stalled publishes and one per aborted task.
    So offered is acked plus stalled exactly when the aborted tasks leaked as many publishes as there
    are of them, and in particular when none was aborted.
    */
  lemma RunConservesPublishes(cfg: GenConfig, rs: seq<ConnResult>, lastStart: nat)
    requires AllSettled(cfg, rs) && cfg.qos == 1
    ensures var report := BuildReport(cfg, rs, lastStart);
            && report.acked.Some?
            && report.offered + CutCount(rs) == report.acked.value + report.stalled + Leaked(rs)
            && (report.offered == report.acked.value + report.stalled <==> Leaked(rs) == CutCount(rs))
            && (CutCount(rs) == 0 ==> report.offered == report.acked.value + report.stalled)
  {
    PublishesAddUp(cfg, rs);
  }

  function AllRefused(n: nat): (rs: seq<ConnResult>)
    ensures |rs| == n && forall i | 0 <= i < n :: rs[i] == Nothing(Refused)
  {
    if n == 0 then [] else AllRefused(n - 1) + [Nothing(Refused)]
  }

  lemma {:induction false} AllRefusedCounts(n: nat)
    ensures var rs := AllRefused(n);
            Sum(Offered, rs) == 0 && Sum(Acked, rs) == 0 && Sum(Stalled, rs) == 0 && CutCount(rs) == 0
  {
    if n > 0 {
      AllRefusedCounts(n - 1);
      assert AllRefused(n)[..n - 1] == AllRefused(n - 1);
    }
  }

  /** A run of `n` tasks that offered nothing: the last was aborted, the others found no session. */
  function OneAborted(n: nat): (rs: seq<ConnResult>)
    requires n >= 1
  {
    AllRefused(n - 1) + [Nothing(CutShort)]
  }

  lemma OneAbortedCounts(n: nat)
    requires n >= 1
    ensures var rs := OneAborted(n);
            Sum(Offered, rs) == 0 && Sum(Acked, rs) == 0 && Sum(Stalled, rs) == 0 && CutCount(rs) == 1
  {
    AllRefusedCounts(n - 1);
    assert OneAborted(n)[..n - 1] == AllRefused(n - 1);
  }

  lemma OneAbortedSettles(cfg: GenConfig)
    requires Accepts(cfg)
    ensures AllSettled(cfg, OneAborted(cfg.connections))
  {
    var rs := OneAborted(cfg.connections);
    forall i | 0 <= i < |rs| ensures Settled(cfg, i, rs[i]) {
      NothingSettles(cfg, i, rs[i].ending);
    }
  }

  lemma NothingSettles(cfg: GenConfig, connId: u32, ending: ConnEnding)
    requires Accepts(cfg) && connId < cfg.connections && !ending.Ended?
    ensures Settled(cfg, connId, Nothing(ending))
  {
    assert CountInWindow(cfg, connId, []) == 0;
  }

  /** Such a whole run, at every number of connections, reports one stall more than it has publishes. */
  lemma AbortBreaksIdentity(cfg: GenConfig, lastStart: nat) returns (rs: seq<ConnResult>)
    requires Accepts(cfg) && cfg.qos == 1
    ensures |rs| == cfg.connections && AllSettled(cfg, rs)
    ensures var report := BuildReport(cfg, rs, lastStart);
            report.acked.Some? && report.acked.value + report.stalled == report.offered + 1
  {
    rs := OneAborted(cfg.connections);
    OneAbortedCounts(cfg.connections);
    OneAbortedSettles(cfg);
  }
}
