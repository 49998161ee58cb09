/** The snapshot validator (internal/state/invariants.go). */
module Snapshot {
  import opened Conditions

  datatype AttemptSnapshot = AttemptSnapshot(uid: int, ordinal: int, jobRefUid: int, terminal: bool)

  datatype Violation = SeveralActive | OrdinalsOutOfOrder | ForeignAttempt

  ghost predicate SingleActive(atts: seq<AttemptSnapshot>) {
    forall i, j | 0 <= i < j < |atts| :: atts[i].terminal || atts[j].terminal
  }

  ghost predicate Increasing(atts: seq<AttemptSnapshot>) {
    forall i, j | 0 <= i < j < |atts| :: atts[i].ordinal < atts[j].ordinal
  }

  ghost predicate OwnAttempts(jobUid: int, atts: seq<AttemptSnapshot>) {
    forall i | 0 <= i < |atts| :: atts[i].jobRefUid == jobUid
  }

  /** The validator accepts exactly the snapshots in which any two attempts are ordered and not both active,
      and every attempt is the job's own; otherwise it names the first rule broken, in this order. */
  method ValidateSnapshot(jobUid: int, atts: seq<AttemptSnapshot>) returns (err: Option<Violation>)
    ensures err == (if !SingleActive(atts) then Some(SeveralActive)
                    else if !Increasing(atts) then Some(OrdinalsOutOfOrder)
                    else if !OwnAttempts(jobUid, atts) then Some(ForeignAttempt)
                    else None)
  {
    var activeCount := 0;
    for i := 0 to |atts|
      invariant 0 <= activeCount
      invariant activeCount == 0 ==> forall k | 0 <= k < i :: atts[k].terminal
      invariant activeCount == 1 ==> exists a | 0 <= a < i ::
                  !atts[a].terminal && forall k | 0 <= k < i && k != a :: atts[k].terminal
      invariant activeCount > 1 ==> !SingleActive(atts)
    {
      if !atts[i].terminal {
        activeCount := activeCount + 1;
      }
    }
    if activeCount > 1 {
      return Some(SeveralActive);
    }
    var i := 1;
    while i < |atts|
      invariant 1 <= i
      invariant forall j, k | 0 <= j < k < |atts| && k < i :: atts[j].ordinal < atts[k].ordinal
    {
      if atts[i].ordinal <= atts[i - 1].ordinal {
        return Some(OrdinalsOutOfOrder);
      }
      i := i + 1;
    }
    for i := 0 to |atts|
      invariant forall k | 0 <= k < i :: atts[k].jobRefUid == jobUid
    {
      if atts[i].jobRefUid != jobUid {
        return Some(ForeignAttempt);
      }
    }
    return None;
  }
}
