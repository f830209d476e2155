/** The web run store: a locked state machine over persistent run records, with an in-flight cap. */
module RunStore {
  import opened Wrappers
  import opened Ordering

  datatype Status = Pending | Running | Completed | Failed | Unknown(name: string)

  datatype RunMeta = RunMeta(
    runId: string, query: string, status: Status, createdAt: int, completedAt: Option<int>, error: Option<string>)

  type Runs = map<string, RunMeta>

  /** What is on disk. */
  datatype Disk = Disk(runs: Runs, reports: map<string, string>)

  datatype RunError = CapacityExceeded | DirectoryExists | NoSuchRun | InvalidTransition(current: Status, target: Status)

  predicate InFlight(s: Status) { s == Pending || s == Running }

  predicate Terminal(s: Status) { s == Completed || s == Failed }

  /** `_VALID_TRANSITIONS` */
  predicate Allowed(current: Status, target: Status) {
    || (current == Pending && (target == Running || target == Failed))
    || (current == Running && (target == Completed || target == Failed))
  }

  function InFlightRuns(runs: Runs): set<string> {
    set id | id in runs && InFlight(runs[id].status)
  }

  /* ---------- one locked step ---------- */

  datatype Request =
    | Create(query: string, cap: Option<int>, id: string, now: int)
    | Update(runId: string, status: Status, error: Option<string>, report: Option<string>, at: int)

  /** Whether a request is refused, and why. */
  function Refused(disk: Disk, request: Request): Option<RunError> {
    match request
    case Create(_, cap, id, _) =>
      if cap.Some? && |InFlightRuns(disk.runs)| >= cap.value then Some(CapacityExceeded)
      else if id in disk.runs then Some(DirectoryExists)
      else None
    case Update(id, status, _, _, _) =>
      if id !in disk.runs then Some(NoSuchRun)
      else if !Allowed(disk.runs[id].status, status) then Some(InvalidTransition(disk.runs[id].status, status))
      else None
  }

  /** What a request that is not refused leaves on disk. */
  function Applied(disk: Disk, request: Request): Disk
    requires Refused(disk, request).None?
  {
    match request
    case Create(query, _, id, now) =>
      disk.(runs := disk.runs[id := RunMeta(id, query, Pending, now, None, None)])
    case Update(id, status, error, report, at) =>
      var meta := disk.runs[id];
      var completedAt := if Terminal(status) then Some(at) else meta.completedAt;
      Disk(disk.runs[id := meta.(status := status, error := error, completedAt := completedAt)],
           if report.Some? then disk.reports[id := report.value] else disk.reports)
  }

  /** The error a refused request raises, or its result. */
  function Answer<T>(refused: Option<RunError>, value: T): Result<T, RunError> {
    if refused.Some? then Failure(refused.value) else Success(value)
  }

  function After(disk: Disk, request: Request): Disk {
    if Refused(disk, request).Some? then disk else Applied(disk, request)
  }

  /** Startup reconciliation: whatever was in flight failed with the restart. */
  function Reconciled(runs: Runs, now: int): Runs {
    map id | id in runs :: if InFlight(runs[id].status) then Interrupted(runs[id], now) else runs[id]
  }

  function Interrupted(meta: RunMeta, now: int): RunMeta {
    meta.(status := Failed, error := Some("interrupted by restart"), completedAt := Some(now))
  }

  lemma CountNone(runs: Runs)
    ensures |InFlightRuns(runs) - runs.Keys| == 0
  {
    assert InFlightRuns(runs) - runs.Keys == {};
  }

  /** Looking at one more run counts it if it is in flight. */
  lemma CountOne(runs: Runs, pending: set<string>, id: string)
    requires pending <= runs.Keys && id in pending
    ensures |InFlightRuns(runs) - (pending - {id})| ==
            |InFlightRuns(runs) - pending| + (if InFlight(runs[id].status) then 1 else 0)
  {
    assert InFlightRuns(runs) - (pending - {id}) ==
           (InFlightRuns(runs) - pending) + (if InFlight(runs[id].status) then {id} else {});
  }

  lemma CountAll(runs: Runs)
    ensures InFlightRuns(runs) - {} == InFlightRuns(runs)
  {}

  /** Reconciliation on its way, with the runs in `pending` still to be looked at. */
  function Reconciling(runs: Runs, pending: set<string>, now: int): Runs {
    map id | id in runs :: if id !in pending && InFlight(runs[id].status) then Interrupted(runs[id], now) else runs[id]
  }

  lemma ReconcileStarts(runs: Runs, now: int)
    ensures Reconciling(runs, runs.Keys, now) == runs
  {}

  lemma ReconcileOne(runs: Runs, pending: set<string>, id: string, now: int)
    requires pending <= runs.Keys && id in pending
    ensures Reconciling(runs, pending, now).Keys == runs.Keys && Reconciling(runs, pending, now)[id] == runs[id]
    ensures Reconciling(runs, pending - {id}, now) ==
            if InFlight(runs[id].status) then Reconciling(runs, pending, now)[id := Interrupted(runs[id], now)]
            else Reconciling(runs, pending, now)
  {
    hide Interrupted;
  }

  lemma ReconcileDone(runs: Runs, now: int)
    ensures Reconciling(runs, {}, now) == Reconciled(runs, now)
  {}

  class RunStore {
    var runs: Runs
    var reports: map<string, string>

    function Contents(): Disk
      reads this
    {
      Disk(runs, reports)
    }

    constructor (disk: Disk)
      ensures Contents() == disk
    {
      runs, reports := disk.runs, disk.reports;
    }

    /** Counts over all runs, in whatever order the directory lists them. */
    method InFlightRunCount() returns (n: nat)
      ensures n == |InFlightRuns(runs)|
    {
      n := 0;
      var pending := runs.Keys;
      hide InFlightRuns, InFlight;
      CountNone(runs);
      while pending != {}
        invariant pending <= runs.Keys && n == |InFlightRuns(runs) - pending|
        decreases |pending|
      {
        var id :| id in pending;
        CountOne(runs, pending, id);
        pending := pending - {id};
        if InFlight(runs[id].status) {
          n := n + 1;
        }
      }
      CountAll(runs);
    }

    method CreateRun(query: string, cap: Option<int>, id: string, now: int) returns (r: Result<string, RunError>)
      modifies this
      ensures var request := Create(query, cap, id, now);
              && Contents() == After(old(Contents()), request)
              && r == Answer(Refused(old(Contents()), request), id)
    {
      if cap.Some? {
        var n := InFlightRunCount();
        if n >= cap.value {
          return Failure(CapacityExceeded);
        }
      }
      if id in runs {
        return Failure(DirectoryExists);
      }
      runs := runs[id := RunMeta(id, query, Pending, now, None, None)];
      r := Success(id);
    }

    method UpdateStatus(runId: string, status: Status, error: Option<string>, report: Option<string>, at: int)
      returns (r: Result<(), RunError>)
      modifies this
      ensures var request := Update(runId, status, error, report, at);
              && Contents() == After(old(Contents()), request)
              && r == Answer(Refused(old(Contents()), request), ())
    {
      if runId !in runs {
        return Failure(NoSuchRun);
      }
      var meta := runs[runId];
      if !Allowed(meta.status, status) {
        return Failure(InvalidTransition(meta.status, status));
      }
      var completedAt := meta.completedAt;
      if status == Completed || status == Failed {
        completedAt := Some(at);
      }
      runs := runs[runId := meta.(status := status, error := error, completedAt := completedAt)];
      if report.Some? {
        reports := reports[runId := report.value];
      }
      r := Success(());
    }

    /** Fails every run in flight, one after the other, and returns how many there were. */
    method ReconcileStaleRuns(now: int) returns (count: nat)
      modifies this
      ensures Contents() == Disk(Reconciled(old(runs), now), old(reports))
      ensures count == |InFlightRuns(old(runs))|
    {
      var pending := runs.Keys;
      ghost var start := runs;
      count := 0;
      hide Interrupted, Reconciling, Reconciled, InFlight, InFlightRuns;
      CountNone(start);
      ReconcileStarts(start, now);
      while pending != {}
        invariant pending <= start.Keys && runs == Reconciling(start, pending, now) && reports == old(reports)
        invariant count == |InFlightRuns(start) - pending|
        decreases |pending|
      {
        var id :| id in pending;
        CountOne(start, pending, id);
        ReconcileOne(start, pending, id, now);
        if InFlight(runs[id].status) {
          count := count + 1;
          runs := runs[id := Interrupted(runs[id], now)];
        }
        pending := pending - {id};
      }
      CountAll(start);
      ReconcileDone(start, now);
    }
  }

  /* ---------- what every step keeps ---------- */

  /** A record is legal after another: unchanged, or moved along an allowed transition. */
  ghost predicate LegalChange(before: RunMeta, after: RunMeta) {
    && after.runId == before.runId && after.query == before.query && after.createdAt == before.createdAt
    && (after == before || Allowed(before.status, after.status))
  }

  /** Runs never vanish and only move along allowed transitions; new runs start pending. */
  ghost predicate LegalStep(before: Runs, after: Runs) {
    && (forall id :: id in before ==> id in after && LegalChange(before[id], after[id]))
    && (forall id :: id in after && id !in before ==> after[id].status == Pending && after[id].completedAt == None)
  }

  lemma StepLegal(disk: Disk, request: Request)
    ensures LegalStep(disk.runs, After(disk, request).runs)
  {}

  /** `completed_at` is set exactly in terminal states. */
  ghost predicate Stamped(runs: Runs) {
    forall id :: id in runs ==> (runs[id].completedAt.Some? <==> Terminal(runs[id].status))
  }

  lemma StepStamped(disk: Disk, request: Request)
    requires Stamped(disk.runs)
    ensures Stamped(After(disk, request).runs)
  {}

  /** A step adds at most one run in flight, and only a creation below its cap does. */
  lemma StepCounts(disk: Disk, request: Request, limit: int)
    requires |InFlightRuns(disk.runs)| <= limit
    requires request.Create? ==> request.cap.Some? && request.cap.value <= limit
    ensures |InFlightRuns(After(disk, request).runs)| <= limit
  {
    var after := After(disk, request);
    if Refused(disk, request).None? {
      match request
      case Create(_, _, id, _) =>
        assert InFlightRuns(after.runs) == InFlightRuns(disk.runs) + {id};
      case Update(id, _, _, _, _) =>
        assert InFlightRuns(after.runs) <= InFlightRuns(disk.runs);
        CardinalityMonotone(InFlightRuns(after.runs), InFlightRuns(disk.runs));
    }
  }

  /* ---------- every interleaving ---------- */

  /** The disk after a sequence of locked steps, in the order they took the lock. */
  function AfterAll(disk: Disk, requests: seq<Request>): Disk {
    if requests == [] then disk else After(AfterAll(disk, requests[..|requests| - 1]), requests[|requests| - 1])
  }

  /** Every creator passes a cap of at most `limit`. */
  ghost predicate Capped(requests: seq<Request>, limit: int) {
    forall i :: 0 <= i < |requests| && requests[i].Create? ==> requests[i].cap.Some? && requests[i].cap.value <= limit
  }

  /** In every interleaving the runs in flight never exceed the cap. */
  lemma {:induction false} NeverOverCap(disk: Disk, requests: seq<Request>, limit: int)
    requires |InFlightRuns(disk.runs)| <= limit && Capped(requests, limit)
    ensures |InFlightRuns(AfterAll(disk, requests).runs)| <= limit
  {
    if requests != [] {
      hide After, InFlightRuns;
      NeverOverCap(disk, requests[..|requests| - 1], limit);
      StepCounts(AfterAll(disk, requests[..|requests| - 1]), requests[|requests| - 1], limit);
    }
  }

  /** In every interleaving completion times mark exactly the terminal runs. */
  lemma {:induction false} AlwaysStamped(disk: Disk, requests: seq<Request>)
    requires Stamped(disk.runs)
    ensures Stamped(AfterAll(disk, requests).runs)
  {
    if requests != [] {
      AlwaysStamped(disk, requests[..|requests| - 1]);
      StepStamped(AfterAll(disk, requests[..|requests| - 1]), requests[|requests| - 1]);
    }
  }

  /** A run that is completed or failed stays exactly as it is, whatever else happens. */
  lemma {:induction false} TerminalForever(disk: Disk, requests: seq<Request>, id: string)
    requires id in disk.runs && Terminal(disk.runs[id].status)
    ensures id in AfterAll(disk, requests).runs && AfterAll(disk, requests).runs[id] == disk.runs[id]
  {
    if requests != [] {
      var before := AfterAll(disk, requests[..|requests| - 1]);
      TerminalForever(disk, requests[..|requests| - 1], id);
      StepLegal(before, requests[|requests| - 1]);
    }
  }

  /** Reconciliation makes only legal transitions, leaves nothing in flight and stamps what it fails. */
  lemma ReconcileLegal(runs: Runs, now: int)
    ensures LegalStep(runs, Reconciled(runs, now)) && InFlightRuns(Reconciled(runs, now)) == {}
    ensures Stamped(runs) ==> Stamped(Reconciled(runs, now))
  {}

  /** After startup reconciliation the cap holds in every interleaving, whatever was on disk. */
  lemma CapAfterStartup(disk: Disk, now: int, requests: seq<Request>, limit: int)
    requires limit >= 0 && Capped(requests, limit)
    ensures |InFlightRuns(AfterAll(Disk(Reconciled(disk.runs, now), disk.reports), requests).runs)| <= limit
  {
    ReconcileLegal(disk.runs, now);
    NeverOverCap(Disk(Reconciled(disk.runs, now), disk.reports), requests, limit);
  }

  /* ---------- requests, case by case ---------- */

  /** The runs that count against the cap: those waiting or under way. */
  ghost function Busy(runs: Runs): set<string> {
    set id | id in runs && (runs[id].status == Pending || runs[id].status == Running)
  }

  lemma BusyCounts(runs: Runs)
    ensures |InFlightRuns(runs)| == |Busy(runs)|
  {
    assert InFlightRuns(runs) == Busy(runs);
  }

  /**
   A creation succeeds exactly below its cap and on a new id; it adds the run, pending and
   open, and changes nothing else. A refused one changes nothing.
   */
  lemma CreationExactly(disk: Disk, query: string, cap: Option<int>, id: string, now: int)
    ensures var request := Create(query, cap, id, now);
            var full := cap.Some? && |Busy(disk.runs)| >= cap.value;
            && Refused(disk, request) ==
               (if full then Some(CapacityExceeded) else if id in disk.runs then Some(DirectoryExists) else None)
            && After(disk, request) ==
               if full || id in disk.runs then disk
               else Disk(disk.runs[id := RunMeta(id, query, Pending, now, None, None)], disk.reports)
  {
    BusyCounts(disk.runs);
  }

  ghost predicate MayBecome(current: Status, target: Status) {
    (current, target) in {(Pending, Running), (Pending, Failed), (Running, Completed), (Running, Failed)}
  }

  /**
   An update succeeds exactly on a known run that may take the new status; it stores the
   status and the error, the time of completion if the run is now over, and a report if
   there is one, and changes nothing else.
   */
  lemma UpdateExactly(disk: Disk, id: string, status: Status, error: Option<string>, report: Option<string>, at: int)
    ensures var request := Update(id, status, error, report, at);
            if id !in disk.runs then Refused(disk, request) == Some(NoSuchRun) && After(disk, request) == disk
            else if !MayBecome(disk.runs[id].status, status) then
              && Refused(disk, request) == Some(InvalidTransition(disk.runs[id].status, status))
              && After(disk, request) == disk
            else
              var meta, after := disk.runs[id], After(disk, request);
              && Refused(disk, request) == None
              && after.runs.Keys == disk.runs.Keys && (forall other :: other in disk.runs && other != id ==>
                                                         after.runs[other] == disk.runs[other])
              && after.runs[id] == RunMeta(meta.runId, meta.query, status, meta.createdAt,
                                           if status == Running then meta.completedAt else Some(at), error)
              && (forall other :: other != id ==> (other in after.reports <==> other in disk.reports)
                                                  && (other in disk.reports ==> after.reports[other] == disk.reports[other]))
              && (report.Some? ==> id in after.reports && after.reports[id] == report.value)
              && (report.None? ==> after.reports == disk.reports)
  {}

  /** What every answer to a request says: the error of the refusal, or the value. */
  lemma AnswerExactly<T>(refused: Option<RunError>, value: T)
    ensures refused.None? ==> Answer(refused, value) == Success(value)
    ensures refused.Some? ==> Answer(refused, value) == Failure(refused.value)
  {}

  /** After a restart the runs that were busy have failed with the restart's message and time; the others are as they were. */
  lemma RestartExactly(runs: Runs, now: int, id: string)
    ensures id in Reconciled(runs, now) <==> id in runs
    ensures id in runs ==>
      Reconciled(runs, now)[id] ==
        if id in Busy(runs) then
          RunMeta(runs[id].runId, runs[id].query, Failed, runs[id].createdAt, Some(now), Some("interrupted by restart"))
        else runs[id]
  {}
}
