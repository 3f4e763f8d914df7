/** The P2P escrow order: an append-only status log and its guards (rampp2p/validators.py). */
module OrderStatus {
  import opened Prelude

  datatype Status =
    | Submitted | Confirmed | EscrowPending | Escrowed | PaidPending | Paid
    | Appealed | ReleasePending | Released | RefundPending | Refunded | Canceled

  datatype ValidationError =
    | NoStatus
    | DuplicateStatus
    | ReleaseOfRefunded
    | RefundOfReleased
    | CompletedOrder
    | InvalidChange(from: Status, to: Status)
    | PreviouslyPaid(to: Status)

  function Last(log: seq<Status>): Status
    requires log != []
  {
    log[|log| - 1]
  }

  /** The transition table of the escrow protocol. */
  predicate MayMove(current: Status, wasPaid: bool, next: Status) {
    match current
    case Submitted => next == Confirmed || next == Canceled
    case Confirmed => next == EscrowPending || next == Canceled
    case EscrowPending => next == Escrowed || next == Canceled
    case Escrowed => next == PaidPending || next == Appealed
    case PaidPending => next == Paid || next == Appealed
    case Paid => next == Released || next == Appealed
    case Appealed => next == ReleasePending || (next == RefundPending && !wasPaid)
    case ReleasePending => next == Released || next == Refunded
    case RefundPending => next == Released || next == Refunded
    case Released => false
    case Refunded => false
    case Canceled => true
  }

  ghost predicate MayFollow(log: seq<Status>, next: Status) {
    log != [] && MayMove(Last(log), Paid in log, next)
  }

  ghost predicate ExclusiveOk(log: seq<Status>, next: Status) {
    (next == Released ==> Refunded !in log) && (next == Refunded ==> Released !in log)
  }

  /** The status rows of one order, oldest first. */
  class StatusLog {
    var log: seq<Status>

    constructor ()
      ensures log == [Submitted]
    {
      log := [Submitted];
    }

    method CountOf(status: Status) returns (count: nat)
      ensures count > 0 <==> status in log
      ensures count == multiset(log)[status]
    {
      count := 0;
      for i := 0 to |log|
        invariant count == multiset(log[..i])[status]
      {
        assert log[..i + 1] == log[..i] + [log[i]];
        if log[i] == status {
          count := count + 1;
        }
      }
      assert log[..|log|] == log;
    }

    method ValidateStatusInstCount(status: Status) returns (r: Outcome<ValidationError>)
      ensures r == if status in log then Fail(DuplicateStatus) else Pass
    {
      var count := CountOf(status);
      if count > 0 {
        return Fail(DuplicateStatus);
      }
      return Pass;
    }

    method ValidateExclusiveStats(status: Status) returns (r: Outcome<ValidationError>)
      ensures r.Pass? <==> ExclusiveOk(log, status)
      ensures r.Fail? ==> r.error == if status == Released then ReleaseOfRefunded else RefundOfReleased
    {
      if status == Released {
        var count := CountOf(Refunded);
        if count > 0 {
          return Fail(ReleaseOfRefunded);
        }
      }
      if status == Refunded {
        var count := CountOf(Released);
        if count > 0 {
          return Fail(RefundOfReleased);
        }
      }
      return Pass;
    }

    /** The branch-by-branch guard accepts exactly the moves of the transition table. */
    method ValidateStatusProgression(status: Status) returns (r: Outcome<ValidationError>)
      ensures r.Pass? <==> MayFollow(log, status)
      ensures r == Fail(NoStatus) <==> log == []
      ensures r == Fail(CompletedOrder) <==> log != [] && Last(log) in {Released, Refunded}
      ensures r == Fail(PreviouslyPaid(status)) <==>
                log != [] && Last(log) == Appealed && Paid in log && status != ReleasePending
      ensures r.Fail? && r.error.InvalidChange? ==> log != [] && r.error == InvalidChange(Last(log), status)
    {
      if log == [] {
        return Fail(NoStatus);
      }
      var current := log[|log| - 1];
      if current == Released || current == Refunded {
        return Fail(CompletedOrder);
      }
      var invalid := false;
      var error := InvalidChange(current, status);
      if current == Submitted && status != Confirmed && status != Canceled {
        invalid := true;
      }
      if current == Confirmed && status != EscrowPending && status != Canceled {
        invalid := true;
      }
      if current == EscrowPending && status != Escrowed && status != Canceled {
        invalid := true;
      }
      if current == Escrowed && status != PaidPending && status != Appealed {
        invalid := true;
      }
      if current == PaidPending && status != Paid && status != Appealed {
        invalid := true;
      }
      if current == Paid && status != Released && status != Appealed {
        invalid := true;
      }
      if current == Appealed {
        var paidCount := CountOf(Paid);
        if paidCount > 0 {
          if status != ReleasePending {
            invalid := true;
            error := PreviouslyPaid(status);
          }
        } else if status != ReleasePending && status != RefundPending {
          invalid := true;
        }
      }
      if current == ReleasePending && status != Released && status != Refunded {
        invalid := true;
      }
      if current == RefundPending && status != Released && status != Refunded {
        invalid := true;
      }
      return if invalid then Fail(error) else Pass;
    }

    /** A guarded append: the duplicate check, then the progression check, then the new row. */
    method UpdateStatus(status: Status) returns (r: Outcome<ValidationError>)
      modifies this
      ensures r.Pass? <==> status !in old(log) && MayFollow(old(log), status)
      ensures log == if r.Pass? then old(log) + [status] else old(log)
      ensures old(Guarded(log)) ==> Guarded(log)
      ensures old(Guarded(log)) && old(Distinct(log)) ==> Distinct(log) && |log| <= 10
    {
      ghost var before := log;
      r := ValidateStatusInstCount(status);
      if r.Pass? {
        r := ValidateStatusProgression(status);
      }
      if r.Pass? {
        log := log + [status];
        if Guarded(before) {
          GuardedAppend(before, status);
        }
      }
      if Guarded(log) && Distinct(log) {
        AtMostTenStatuses(log);
      }
    }
  }

  /** A history that starts at SUBMITTED and grew by moves the progression guard accepts. */
  ghost predicate Guarded(log: seq<Status>) {
    && log != [] && log[0] == Submitted
    && forall i | 0 < i < |log| :: GuardedAt(log, i)
  }

  ghost predicate GuardedAt(log: seq<Status>, i: nat)
    requires i < |log|
  {
    MayFollow(log[..i], log[i])
  }

  ghost predicate Distinct(log: seq<Status>) {
    forall i, j | 0 <= i < j < |log| :: log[i] != log[j]
  }

  lemma GuardedAppend(log: seq<Status>, next: Status)
    requires Guarded(log)
    ensures Guarded(log + [next]) <==> MayFollow(log, next)
  {
    var longer := log + [next];
    assert longer[..|log|] == log;
    forall i: nat | 0 < i < |log|
      ensures GuardedAt(longer, i)
    {
      assert longer[..i] == log[..i];
      assert GuardedAt(log, i);
    }
    assert GuardedAt(longer, |log|) <==> MayFollow(log, next);
  }

  /** One guarded step, in terms of positions in the history. */
  lemma StepAt(log: seq<Status>, i: nat)
    requires Guarded(log) && 0 < i < |log|
    ensures MayMove(log[i - 1], Paid in log[..i], log[i])
  {
    assert GuardedAt(log, i);
    assert Last(log[..i]) == log[i - 1];
  }

  /** RELEASED and REFUNDED can only be the last status. */
  lemma CompletedOnlyLast(log: seq<Status>, i: nat)
    requires Guarded(log) && i + 1 < |log|
    ensures log[i] != Released && log[i] != Refunded
  {
    StepAt(log, i + 1);
  }

  lemma NeverReleasedAndRefunded(log: seq<Status>)
    requires Guarded(log)
    ensures !(Released in log && Refunded in log)
  {
    forall i | 0 <= i < |log| - 1
      ensures log[i] != Released && log[i] != Refunded
    {
      CompletedOnlyLast(log, i);
    }
  }

  /** The exclusivity check never rejects a move that the progression guard accepts. */
  lemma ExclusivityIsImplied(log: seq<Status>, next: Status)
    requires Guarded(log) && MayFollow(log, next)
    ensures ExclusiveOk(log, next)
  {
    GuardedAppend(log, next);
    NeverReleasedAndRefunded(log + [next]);
    assert next in log + [next];
    assert forall s | s in log :: s in log + [next];
  }

  const ANY_STATUS: set<Status> := {
    Submitted, Confirmed, EscrowPending, Escrowed, PaidPending, Paid,
    Appealed, ReleasePending, Released, RefundPending, Refunded, Canceled}

  lemma {:induction false} DistinctSize(log: seq<Status>)
    requires Distinct(log)
    ensures |set s | s in log| == |log|
  {
    if log != [] {
      var front := log[..|log| - 1];
      DistinctSize(front);
      assert (set s | s in log) == (set s | s in front) + {Last(log)};
    }
  }

  /** Position of a status in the escrow protocol. */
  function Stage(status: Status): nat {
    match status
    case Submitted => 0
    case Confirmed => 1
    case EscrowPending => 2
    case Escrowed => 3
    case PaidPending => 4
    case Paid => 5
    case Appealed => 6
    case ReleasePending => 7
    case RefundPending => 7
    case Released => 8
    case Refunded => 8
    case Canceled => 0
  }

  ghost predicate AvoidsCancel(log: seq<Status>) {
    Canceled !in log
  }

  lemma MovesGoForward(current: Status, wasPaid: bool, next: Status)
    requires MayMove(current, wasPaid, next) && current != Canceled && next != Canceled
    ensures Stage(current) < Stage(next)
    ensures Stage(next) > 3 ==> Stage(current) >= 3
  {
    match current {
      case Submitted =>
      case Confirmed =>
      case EscrowPending =>
      case Escrowed =>
      case PaidPending =>
      case Paid =>
      case Appealed =>
      case ReleasePending =>
      case RefundPending =>
      case Released =>
      case Refunded =>
    }
  }

  /** Without CANCELED every step moves the protocol forward. */
  lemma {:induction false} StagesIncrease(log: seq<Status>, i: nat, j: nat)
    requires Guarded(log) && AvoidsCancel(log) && i < j < |log|
    ensures Stage(log[i]) + (j - i) <= Stage(log[j])
  {
    StepAt(log, j);
    assert log[j - 1] in log && log[j] in log;
    MovesGoForward(log[j - 1], Paid in log[..j], log[j]);
    if i < j - 1 {
      StagesIncrease(log, i, j - 1);
    }
  }

  /** At most nine statuses, even when no duplicate check is made. */
  lemma AtMostNineStatuses(log: seq<Status>)
    requires Guarded(log) && AvoidsCancel(log)
    ensures |log| <= 9 && Distinct(log)
  {
    if |log| > 1 {
      StagesIncrease(log, 0, |log| - 1);
    }
    forall i, j | 0 <= i < j < |log|
      ensures log[i] != log[j]
    {
      StagesIncrease(log, i, j);
    }
  }

  /** A status past the escrow stage was preceded by ESCROWED. */
  lemma {:induction false} EscrowedFirst(log: seq<Status>, i: nat)
    requires Guarded(log) && AvoidsCancel(log) && i < |log| && Stage(log[i]) >= 3
    ensures Escrowed in log[..i + 1]
  {
    assert i > 0;
    StepAt(log, i);
    assert log[i - 1] in log && log[i] in log;
    if log[i] != Escrowed {
      MovesGoForward(log[i - 1], Paid in log[..i], log[i]);
      EscrowedFirst(log, i - 1);
      assert log[..i] <= log[..i + 1];
    } else {
      assert log[..i + 1][i] == Escrowed;
    }
  }

  /** Either end of an order that was not canceled comes after ESCROWED. */
  lemma EscrowBeforeEnd(log: seq<Status>, i: nat)
    requires Guarded(log) && AvoidsCancel(log) && i < |log| && log[i] in {Released, Refunded}
    ensures Escrowed in log[..i]
  {
    StepAt(log, i);
    assert log[i - 1] in log;
    EscrowedFirst(log, i - 1);
  }

  /** A refund of an order that was not canceled comes after an appeal. */
  lemma AppealBeforeRefund(log: seq<Status>, i: nat)
    requires Guarded(log) && AvoidsCancel(log) && i < |log| && log[i] == Refunded
    ensures Appealed in log[..i]
  {
    StepAt(log, i);
    assert log[i - 1] in log;
    StepAt(log, i - 1);
    assert log[i - 2] in log;
    assert log[..i][i - 2] == Appealed;
  }

  predicate IsClosing(status: Status) {
    status == Appealed || status == ReleasePending || status == Released || status == Refunded
  }

  lemma ClosingMoves(current: Status, next: Status)
    requires IsClosing(current) && MayMove(current, true, next)
    ensures IsClosing(next)
  {
  }

  /** After PAID only an appeal, its release and the two ends can come, canceled order or not. */
  lemma {:induction false} AfterPaid(log: seq<Status>, i: nat, j: nat)
    requires Guarded(log) && i < j < |log| && log[i] == Paid
    ensures IsClosing(log[j])
  {
    StepAt(log, j);
    assert log[..j][i] == Paid;
    if i < j - 1 {
      AfterPaid(log, i, j - 1);
      ClosingMoves(log[j - 1], log[j]);
    }
  }

  /** PAID and REFUND_PENDING exclude each other in every guarded history. */
  lemma PaidExcludesRefundPending(log: seq<Status>)
    requires Guarded(log)
    ensures !(Paid in log && RefundPending in log)
  {
    forall i, j | 0 <= i < |log| && 0 <= j < |log| && log[i] == Paid
      ensures log[j] != RefundPending
    {
      if i < j {
        AfterPaid(log, i, j);
      } else if j < i {
        StepAt(log, j + 1);
        if j + 1 < i {
          CompletedOnlyLast(log, j + 1);
        }
      }
    }
  }

  // ---------- With CANCELED ----------

  /** CANCELED is not terminal: a canceled order may be refunded without ever being escrowed. */
  lemma CanceledOrderCanBeRefunded()
    ensures var log := [Submitted, Canceled, Refunded];
            Guarded(log) && Distinct(log) && Escrowed !in log && Appealed !in log
  {
    var log := [Submitted, Canceled, Refunded];
    assert log[..1] == [Submitted];
    assert log[..2] == [Submitted, Canceled];
  }

  predicate IsAfterAppeal(status: Status) {
    status == ReleasePending || status == RefundPending || status == Released || status == Refunded
  }

  lemma {:induction false} AfterAppealed(log: seq<Status>, i: nat, j: nat)
    requires Guarded(log) && i < j < |log| && log[i] == Appealed
    ensures IsAfterAppeal(log[j])
  {
    StepAt(log, j);
    if i < j - 1 {
      AfterAppealed(log, i, j - 1);
    }
  }

  /** A refund comes after an appeal exactly when the order was not canceled in the two steps
      before it. */
  lemma RefundAppealedExactlyUnlessJustCanceled(log: seq<Status>, i: nat)
    requires Guarded(log) && i < |log| && log[i] == Refunded
    ensures i >= 2
    ensures Appealed in log[..i] <==> log[i - 1] != Canceled && log[i - 2] != Canceled
  {
    StepAt(log, i);
    StepAt(log, i - 1);
    if log[i - 1] != Canceled && log[i - 2] != Canceled {
      assert log[..i][i - 2] == Appealed;
    }
    forall k | 0 <= k < i && log[k] == Appealed
      ensures log[i - 1] != Canceled && log[i - 2] != Canceled
    {
      if k < i - 1 {
        AfterAppealed(log, k, i - 1);
      }
      if k < i - 2 {
        AfterAppealed(log, k, i - 2);
      }
    }
  }

  /** Right after position k, CANCELED was left for a status past the escrow stage. */
  ghost predicate SkipsEscrow(log: seq<Status>, k: nat)
    requires k + 1 < |log|
  {
    log[k] == Canceled && Stage(log[k + 1]) > 3
  }

  lemma MoveFromEscrowOn(current: Status, wasPaid: bool, next: Status)
    requires MayMove(current, wasPaid, next) && Stage(current) >= 3
    ensures Stage(next) > Stage(current)
  {
  }

  /** From the escrow stage on, every step moves forward and CANCELED is out of reach. */
  lemma {:induction false} StagesIncreaseFromEscrow(log: seq<Status>, i: nat, j: nat)
    requires Guarded(log) && i < j < |log| && Stage(log[i]) >= 3
    ensures Stage(log[i]) + (j - i) <= Stage(log[j])
  {
    StepAt(log, j);
    if i < j - 1 {
      StagesIncreaseFromEscrow(log, i, j - 1);
    }
    MoveFromEscrowOn(log[j - 1], Paid in log[..j], log[j]);
  }

  lemma {:induction false} EscrowedUnlessSkipped(log: seq<Status>, i: nat)
    requires Guarded(log) && i < |log| && Stage(log[i]) > 3
    requires forall k: nat | k < i :: !SkipsEscrow(log, k)
    ensures Escrowed in log[..i]
  {
    StepAt(log, i);
    assert !SkipsEscrow(log, i - 1);
    if log[i - 1] == Escrowed {
      assert log[..i][i - 1] == Escrowed;
    } else {
      EscrowedUnlessSkipped(log, i - 1);
      assert log[..i - 1] <= log[..i];
    }
  }

  lemma NotEscrowedWhenSkipped(log: seq<Status>, i: nat, k: nat, e: nat)
    requires Guarded(log) && k < i < |log| && SkipsEscrow(log, k)
    requires e < i
    ensures log[e] != Escrowed
  {
    if e < k && Stage(log[e]) >= 3 {
      StagesIncreaseFromEscrow(log, e, k);
    }
    if k + 1 < e {
      StagesIncreaseFromEscrow(log, k + 1, e);
    }
  }

  /** Both ends, and every other status past the escrow stage, come after ESCROWED exactly when
      no step from CANCELED jumped over it. */
  lemma EscrowedExactlyUnlessSkipped(log: seq<Status>, i: nat)
    requires Guarded(log) && i < |log| && Stage(log[i]) > 3
    ensures Escrowed in log[..i] <==> forall k: nat | k < i :: !SkipsEscrow(log, k)
  {
    if forall k: nat | k < i :: !SkipsEscrow(log, k) {
      EscrowedUnlessSkipped(log, i);
    } else {
      var k: nat :| k < i && SkipsEscrow(log, k);
      forall e: nat | e < i
        ensures log[e] != Escrowed
      {
        NotEscrowedWhenSkipped(log, i, k, e);
      }
    }
  }

  /** RELEASE_PENDING and REFUND_PENDING exclude each other, canceled before or not. */
  lemma NeverBothPending(log: seq<Status>)
    requires Guarded(log)
    ensures !(ReleasePending in log && RefundPending in log)
  {
    forall i, j | 0 <= i < |log| && 0 <= j < |log| && log[i] == ReleasePending
      ensures log[j] != RefundPending
    {
      if i < j {
        StagesIncreaseFromEscrow(log, i, j);
      } else if j < i && Stage(log[j]) >= 3 {
        StagesIncreaseFromEscrow(log, j, i);
      }
    }
  }

  /** With both guards a history has at most ten statuses, canceled or not. */
  lemma AtMostTenStatuses(log: seq<Status>)
    requires Guarded(log) && Distinct(log)
    ensures |log| <= 10
  {
    var seen := set s | s in log;
    DistinctSize(log);
    NeverReleasedAndRefunded(log);
    NeverBothPending(log);
    var end := if Released in log then Refunded else Released;
    var pending := if ReleasePending in log then RefundPending else ReleasePending;
    assert seen <= ANY_STATUS - {end, pending};
    SubsetSize(seen, ANY_STATUS - {end, pending});
  }

  lemma GuardedPrefix(log: seq<Status>, n: nat)
    requires 0 < n < |log| && Guarded(log[..n]) && MayFollow(log[..n], log[n])
    ensures Guarded(log[..n + 1])
  {
    assert log[..n + 1] == log[..n] + [log[n]];
    GuardedAppend(log[..n], log[n]);
  }

  /** Ten are reached, by an order that is canceled and then goes all the way. */
  lemma TenStatusesReached()
    ensures var log := [Submitted, Canceled, Confirmed, EscrowPending, Escrowed, PaidPending, Paid, Appealed,
                        ReleasePending, Released];
            Guarded(log) && Distinct(log) && |log| == 10
  {
    var log := [Submitted, Canceled, Confirmed, EscrowPending, Escrowed, PaidPending, Paid, Appealed,
                ReleasePending, Released];
    for n := 1 to 10
      invariant Guarded(log[..n])
    {
      assert Last(log[..n]) == log[n - 1];
      GuardedPrefix(log, n);
    }
    assert log[..10] == log;
  }

  function Cancellations(n: nat): (log: seq<Status>)
    ensures |log| == n && forall i | 0 <= i < n :: log[i] == Canceled
  {
    seq(n, _ => Canceled)
  }

  /** The progression guard alone lets the history grow by n more statuses. */
  ghost predicate CanGrowBy(log: seq<Status>, n: nat) {
    exists more: seq<Status> :: |more| == n && Guarded(log + more)
  }

  lemma {:induction false} CancellationsFollow(log: seq<Status>, n: nat)
    requires Guarded(log) && MayMove(Last(log), Paid in log, Canceled)
    ensures Guarded(log + Cancellations(n))
  {
    if n == 0 {
      assert log + Cancellations(0) == log;
    } else {
      var shorter := log + Cancellations(n - 1);
      CancellationsFollow(log, n - 1);
      assert log + Cancellations(n) == shorter + [Canceled];
      GuardedAppend(shorter, Canceled);
    }
  }

  lemma GrowthEndsFromEscrow(log: seq<Status>, more: seq<Status>)
    requires log != [] && Guarded(log + more) && Stage(Last(log)) >= 3
    ensures |more| <= 8 - Stage(Last(log))
  {
    if more != [] {
      StagesIncreaseFromEscrow(log + more, |log| - 1, |log + more| - 1);
    }
  }

  /** Without the duplicate check a history can grow without bound exactly while it may still be
      canceled; otherwise at most five statuses can follow. */
  lemma UnboundedExactlyWhileCancelable(log: seq<Status>)
    requires Guarded(log)
    ensures (forall n: nat :: CanGrowBy(log, n)) <==> Last(log) in {Submitted, Confirmed, EscrowPending, Canceled}
    ensures CanGrowBy(log, 6) <==> forall n: nat :: CanGrowBy(log, n)
  {
    if MayMove(Last(log), Paid in log, Canceled) {
      forall n: nat
        ensures CanGrowBy(log, n)
      {
        CancellationsFollow(log, n);
      }
      assert CanGrowBy(log, 6);
    } else {
      forall more: seq<Status> | |more| == 6
        ensures !Guarded(log + more)
      {
        if Guarded(log + more) {
          GrowthEndsFromEscrow(log, more);
        }
      }
      assert !CanGrowBy(log, 6);
    }
  }

  // ---------- What can follow ----------

  const OPENING: seq<Status> := [Submitted, Confirmed, EscrowPending, Escrowed]

  /** Statuses one after the other, as they may follow a history. */
  datatype Course = Over | Then(status: Status, rest: Course)

  function Statuses(course: Course): seq<Status> {
    match course
    case Over => []
    case Then(status, rest) => [status] + Statuses(rest)
  }

  function CourseOf(statuses: seq<Status>): Course {
    if statuses == [] then Over else Then(statuses[0], CourseOf(statuses[1..]))
  }

  lemma {:induction false} StatusesOfCourse(statuses: seq<Status>)
    ensures Statuses(CourseOf(statuses)) == statuses
  {
    if statuses != [] {
      StatusesOfCourse(statuses[1..]);
    }
  }

  predicate IsEnd(status: Status) {
    status == Released || status == Refunded
  }

  /** The course leads from a status to an end without CANCELED, by the table. */
  predicate RunsToEnd(current: Status, wasPaid: bool, course: Course)
    decreases course
  {
    match course
    case Over => IsEnd(current)
    case Then(next, rest) =>
      next != Canceled && MayMove(current, wasPaid, next) && RunsToEnd(next, wasPaid || next == Paid, rest)
  }

  lemma NotGuardedStays(log: seq<Status>, more: seq<Status>)
    requires log != [] && !Guarded(log)
    ensures !Guarded(log + more)
  {
    var longer := log + more;
    if log[0] == Submitted {
      var i: nat :| 0 < i < |log| && !GuardedAt(log, i);
      assert longer[..i] == log[..i] && !GuardedAt(longer, i);
    }
  }

  /** A guarded history that goes on with a course is guarded and over, without another CANCELED,
      exactly when the course runs to an end. */
  lemma {:induction false} CourseOfHistory(log: seq<Status>, course: Course)
    requires Guarded(log)
    ensures var whole := log + Statuses(course);
            Guarded(whole) && Canceled !in Statuses(course) && IsEnd(Last(whole)) <==>
              RunsToEnd(Last(log), Paid in log, course)
    decreases course
  {
    match course {
      case Over =>
        assert log + Statuses(course) == log;
      case Then(next, rest) =>
        var longer := log + [next];
        assert log + Statuses(course) == longer + Statuses(rest);
        assert Paid in longer <==> Paid in log || next == Paid;
        assert Canceled in Statuses(course) <==> next == Canceled || Canceled in Statuses(rest);
        GuardedAppend(log, next);
        if Guarded(longer) {
          CourseOfHistory(longer, rest);
        } else {
          NotGuardedStays(longer, Statuses(rest));
        }
    }
  }

  // The ways in which an order that was not canceled can go from a status to its end.

  predicate EndsPending(course: Course) {
    course == Then(Released, Over) || course == Then(Refunded, Over)
  }

  predicate EndsAppealed(wasPaid: bool, course: Course) {
    course.Then? && EndsPending(course.rest)
    && (course.status == ReleasePending || (course.status == RefundPending && !wasPaid))
  }

  predicate EndsPaid(course: Course) {
    course == Then(Released, Over) || (course.Then? && course.status == Appealed && EndsAppealed(true, course.rest))
  }

  predicate EndsPaidPending(course: Course) {
    course.Then?
    && ((course.status == Paid && EndsPaid(course.rest))
        || (course.status == Appealed && EndsAppealed(false, course.rest)))
  }

  /** Paid and released; or appealed before, between or after the two payment statuses, and then
      released or refunded, where only an unpaid order may go through REFUND_PENDING. */
  predicate EndsEscrowed(course: Course) {
    course.Then?
    && ((course.status == PaidPending && EndsPaidPending(course.rest))
        || (course.status == Appealed && EndsAppealed(false, course.rest)))
  }

  lemma CoursesToEnd(course: Course, wasPaid: bool)
    ensures RunsToEnd(Released, wasPaid, course) <==> course.Over?
    ensures RunsToEnd(Refunded, wasPaid, course) <==> course.Over?
    ensures RunsToEnd(ReleasePending, wasPaid, course) <==> EndsPending(course)
    ensures RunsToEnd(RefundPending, wasPaid, course) <==> EndsPending(course)
  {
    if course.Then? {
      assert RunsToEnd(Released, wasPaid, course.rest) <==> course.rest.Over?;
      assert RunsToEnd(Refunded, wasPaid, course.rest) <==> course.rest.Over?;
    }
  }

  lemma CoursesFromAppealed(course: Course, wasPaid: bool)
    ensures RunsToEnd(Appealed, wasPaid, course) <==> EndsAppealed(wasPaid, course)
  {
    if course.Then? {
      CoursesToEnd(course.rest, wasPaid);
    }
  }

  lemma CoursesFromPaid(course: Course)
    ensures RunsToEnd(Paid, true, course) <==> EndsPaid(course)
  {
    if course.Then? {
      CoursesToEnd(course.rest, true);
      CoursesFromAppealed(course.rest, true);
    }
  }

  lemma CoursesFromPaidPending(course: Course)
    ensures RunsToEnd(PaidPending, false, course) <==> EndsPaidPending(course)
  {
    if course.Then? {
      CoursesFromPaid(course.rest);
      CoursesFromAppealed(course.rest, false);
    }
  }

  lemma CoursesFromEscrowed(course: Course)
    ensures RunsToEnd(Escrowed, false, course) <==> EndsEscrowed(course)
  {
    if course.Then? {
      CoursesFromPaidPending(course.rest);
      CoursesFromAppealed(course.rest, false);
    }
  }

  lemma CoursesFromConfirmed(course: Course)
    ensures RunsToEnd(Confirmed, false, course) <==>
              && course.Then? && course.status == EscrowPending
              && course.rest.Then? && course.rest.status == Escrowed && EndsEscrowed(course.rest.rest)
  {
    if course.Then? && course.rest.Then? {
      CoursesFromEscrowed(course.rest.rest);
    }
  }

  lemma CoursesFromSubmitted(course: Course)
    ensures RunsToEnd(Submitted, false, course) <==>
              && course.Then? && course.status == Confirmed
              && RunsToEnd(Confirmed, false, course.rest)
  {
  }

  function ThroughEscrow(ending: Course): Course {
    Then(Confirmed, Then(EscrowPending, Then(Escrowed, ending)))
  }

  lemma StatusesThroughEscrow(ending: Course)
    ensures [Submitted] + Statuses(ThroughEscrow(ending)) == OPENING + Statuses(ending)
  {
    assert Statuses(Then(Escrowed, ending)) == [Escrowed] + Statuses(ending);
    assert Statuses(Then(EscrowPending, Then(Escrowed, ending))) == [EscrowPending] + Statuses(Then(Escrowed, ending));
  }

  ghost predicate IsComplete(log: seq<Status>) {
    Guarded(log) && AvoidsCancel(log) && IsEnd(Last(log))
  }

  lemma CompleteTakesCourse(log: seq<Status>) returns (ending: Course)
    requires IsComplete(log)
    ensures EndsEscrowed(ending) && log == OPENING + Statuses(ending)
  {
    var course := CourseOf(log[1..]);
    StatusesOfCourse(log[1..]);
    assert log == [Submitted] + Statuses(course);
    assert Canceled !in Statuses(course);
    CourseOfHistory([Submitted], course);
    CoursesFromSubmitted(course);
    CoursesFromConfirmed(course.rest);
    ending := course.rest.rest.rest;
    assert course == ThroughEscrow(ending);
    StatusesThroughEscrow(ending);
  }

  lemma CourseCompletes(ending: Course)
    requires EndsEscrowed(ending)
    ensures IsComplete(OPENING + Statuses(ending))
  {
    var course := ThroughEscrow(ending);
    StatusesThroughEscrow(ending);
    CoursesFromSubmitted(course);
    CoursesFromConfirmed(course.rest);
    CourseOfHistory([Submitted], course);
  }

  /** An order that was not canceled is over exactly when it was confirmed, went through escrow, and
      then took one of the courses above. */
  lemma CompleteHistoriesExactly(log: seq<Status>)
    ensures IsComplete(log) <==> exists ending :: EndsEscrowed(ending) && log == OPENING + Statuses(ending)
  {
    if IsComplete(log) {
      var ending := CompleteTakesCourse(log);
    }
    forall ending | EndsEscrowed(ending)
      ensures IsComplete(OPENING + Statuses(ending))
    {
      CourseCompletes(ending);
    }
  }

  /** A way to the end from each status that is none. */
  function WayOut(status: Status): Course
    requires !IsEnd(status)
    decreases 8 - Stage(status)
  {
    match status
    case Submitted => Then(Confirmed, WayOut(Confirmed))
    case Confirmed => Then(EscrowPending, WayOut(EscrowPending))
    case EscrowPending => Then(Escrowed, WayOut(Escrowed))
    case Escrowed => Then(PaidPending, WayOut(PaidPending))
    case PaidPending => Then(Paid, WayOut(Paid))
    case Paid => Then(Released, Over)
    case Appealed => Then(ReleasePending, WayOut(ReleasePending))
    case ReleasePending => Then(Released, Over)
    case RefundPending => Then(Refunded, Over)
    case Canceled => Then(Released, Over)
  }

  lemma WayOutRunsToEnd(status: Status, wasPaid: bool)
    requires !IsEnd(status)
    ensures RunsToEnd(status, wasPaid, WayOut(status))
    decreases 8 - Stage(status)
  {
    match status {
      case Submitted => WayOutRunsToEnd(Confirmed, wasPaid);
      case Confirmed => WayOutRunsToEnd(EscrowPending, wasPaid);
      case EscrowPending => WayOutRunsToEnd(Escrowed, wasPaid);
      case Escrowed => WayOutRunsToEnd(PaidPending, wasPaid);
      case PaidPending => WayOutRunsToEnd(Paid, true);
      case Appealed => WayOutRunsToEnd(ReleasePending, wasPaid);
      case Paid =>
        CoursesToEnd(Over, wasPaid);
      case ReleasePending =>
        CoursesToEnd(WayOut(status), wasPaid);
      case RefundPending =>
        CoursesToEnd(WayOut(status), wasPaid);
      case Canceled =>
        CoursesToEnd(Over, wasPaid);
    }
  }

  /** Every history that is not over can still come to an end. */
  lemma EveryOrderCanEnd(log: seq<Status>)
    requires Guarded(log) && !IsEnd(Last(log))
    ensures var whole := log + Statuses(WayOut(Last(log)));
            Guarded(whole) && IsEnd(Last(whole))
  {
    WayOutRunsToEnd(Last(log), Paid in log);
    CourseOfHistory(log, WayOut(Last(log)));
  }
}
