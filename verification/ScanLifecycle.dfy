/** The scan status machine: the ten statuses, the transition table, and how long a walk
    through the table can be. */
module ScanLifecycle {

  datatype ScanStatus =
    | Created
    | Queued
    | Collecting
    | Collected
    | Ingesting
    | InventoryReady
    | Evaluating
    | Completed
    | CompletedWithErrors
    | Failed

  const TERMINAL_STATUSES: set<ScanStatus> := {Completed, CompletedWithErrors, Failed}

  /** ALLOWED_TRANSITIONS; a status without an entry has no successors. */
  function AllowedTransitions(current: ScanStatus): set<ScanStatus> {
    match current
    case Created => {Queued, Failed}
    case Queued => {Collecting, Failed}
    case Collecting => {Collected, CompletedWithErrors, Failed}
    case Collected => {Ingesting, Failed}
    case Ingesting => {InventoryReady, CompletedWithErrors, Failed}
    case InventoryReady => {Evaluating, Failed}
    case CompletedWithErrors => {Evaluating, Failed}
    case Evaluating => {Completed, CompletedWithErrors, Failed}
    case Completed => {}
    case Failed => {}
  }

  /** The check made by assert_transition: true when it returns, false when it raises. */
  predicate Allowed(current: ScanStatus, target: ScanStatus) {
    target in AllowedTransitions(current)
  }

  /** A sequence of statuses in which every consecutive pair is an edge of the table. */
  ghost predicate IsWalk(path: seq<ScanStatus>) {
    forall i | 0 < i < |path| :: Allowed(path[i - 1], path[i])
  }

  /** How many steps of a walk re-open a COMPLETED_WITH_ERRORS scan. */
  ghost function Reevaluations(path: seq<ScanStatus>): nat {
    if |path| < 2 then 0
    else Reevaluations(path[..|path| - 1]) + if Reopens(path[|path| - 2], path[|path| - 1]) then 1 else 0
  }

  predicate Reopens(current: ScanStatus, target: ScanStatus) {
    current == CompletedWithErrors && target == Evaluating
  }

  /** Every edge lowers the rank, except re-opening, which raises it by one. */
  ghost function Rank(status: ScanStatus): nat {
    match status
    case Created => 8
    case Queued => 7
    case Collecting => 6
    case Collected => 5
    case Ingesting => 4
    case InventoryReady => 3
    case Evaluating => 2
    case CompletedWithErrors => 1
    case Completed => 0
    case Failed => 0
  }

  lemma {:induction false} WalkLowersRank(path: seq<ScanStatus>)
    requires path != [] && IsWalk(path)
    ensures |path| - 1 <= Rank(path[0]) - Rank(path[|path| - 1]) + 2 * Reevaluations(path)
  {
    if |path| > 1 {
      WalkLowersRank(path[..|path| - 1]);
    }
  }

  /** Every walk from CREATED has at most eight steps plus two for each re-evaluation. */
  lemma WalkBound(path: seq<ScanStatus>)
    requires path != [] && path[0] == Created && IsWalk(path)
    ensures |path| - 1 <= 8 + 2 * Reevaluations(path)
  {
    WalkLowersRank(path);
  }

  /** The walk that re-evaluates a scan n times. */
  ghost function LongWalk(n: nat): (path: seq<ScanStatus>)
    ensures path != [] && path[|path| - 1] == CompletedWithErrors
  {
    if n == 0 then
      [Created, Queued, Collecting, Collected, Ingesting, InventoryReady, Evaluating, CompletedWithErrors]
    else
      LongWalk(n - 1) + [Evaluating, CompletedWithErrors]
  }

  lemma {:induction false} NoReopening(path: seq<ScanStatus>)
    requires forall i | 0 < i < |path| :: !Reopens(path[i - 1], path[i])
    ensures Reevaluations(path) == 0
  {
    if |path| > 1 {
      NoReopening(path[..|path| - 1]);
    }
  }

  lemma {:induction false} LongWalkIsWalk(n: nat)
    ensures IsWalk(LongWalk(n)) && LongWalk(n)[0] == Created
    ensures |LongWalk(n)| == 8 + 2 * n && Reevaluations(LongWalk(n)) == n
  {
    var path := LongWalk(n);
    if n == 0 {
      NoReopening(path);
    } else {
      LongWalkIsWalk(n - 1);
      var shorter := LongWalk(n - 1);
      assert path[..|path| - 1] == shorter + [Evaluating];
      assert (shorter + [Evaluating])[..|shorter|] == shorter;
    }
  }

  /** The bound is met: for every n some walk re-evaluates n times and has 8 + 2n steps. */
  lemma WalkBoundIsTight(n: nat)
    ensures exists path ::
      && path != [] && path[0] == Created && IsWalk(path)
      && Reevaluations(path) == n && |path| - 1 == 8 + 2 * n
  {
    LongWalkIsWalk(n);
    var path := LongWalk(n) + [Failed];
    assert path[..|path| - 1] == LongWalk(n);
    assert Reevaluations(path) == n;
  }

  /** COMPLETED and FAILED are exactly the statuses with no successor: the third terminal
      status, COMPLETED_WITH_ERRORS, can be left again. */
  lemma DeadEnds(status: ScanStatus)
    ensures (forall target :: !Allowed(status, target)) <==> status == Completed || status == Failed
    ensures status in TERMINAL_STATUSES && (exists target :: Allowed(status, target)) <==> status == CompletedWithErrors
  {
    if status.Created? {
      assert Allowed(status, Queued);
    } else if !status.Completed? && !status.Failed? {
      assert Allowed(status, Failed);
    }
  }

  /** Where a scan may have come from: the table read backwards. */
  lemma Predecessors(current: ScanStatus)
    ensures !Allowed(current, Created)
    ensures Allowed(current, Queued) <==> current == Created
    ensures Allowed(current, Collecting) <==> current == Queued
    ensures Allowed(current, Collected) <==> current == Collecting
    ensures Allowed(current, Ingesting) <==> current == Collected
    ensures Allowed(current, InventoryReady) <==> current == Ingesting
    ensures Allowed(current, Evaluating) <==> current in {InventoryReady, CompletedWithErrors}
    ensures Allowed(current, Completed) <==> current == Evaluating
    ensures Allowed(current, CompletedWithErrors) <==> current in {Collecting, Ingesting, Evaluating}
    ensures Allowed(current, Failed) <==> current !in {Completed, Failed}
  {
  }
}
