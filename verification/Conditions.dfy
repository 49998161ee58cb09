/** Status conditions of jobs and attempts (internal/state/job.go, internal/state/attempt.go).
    A status holds a list of conditions; setting one replaces the entry of its type or appends it, so a
    list behaves as a map from condition types. Both views are given, with the laws that connect them. */
module Conditions {

  datatype Option<+T> = None | Some(value: T)

  datatype CondType = Scheduled | Running | Complete | Failed | PodCreated

  datatype Reason =
    | AttemptCreated | PodRunning | Retrying | Succeeded | RetriesExhausted
    | OwnershipViolation | Cancelled | PodMade | PodSucceeded | AttemptFailed

  datatype Condition = Condition(ctype: CondType, status: bool, reason: Reason)

  // ----- the map view -----

  type Conds = map<CondType, Condition>

  function Set(conds: Conds, c: Condition): Conds {
    conds[c.ctype := c]
  }

  predicate IsTrue(conds: Conds, t: CondType) {
    t in conds && conds[t].status
  }

  predicate Terminal(conds: Conds) {
    IsTrue(conds, Complete) || IsTrue(conds, Failed)
  }

  /** TrySetJobTerminal: refused once a terminal condition is True. */
  function TrySetTerminal(conds: Conds, c: Condition): (Conds, bool) {
    if Terminal(conds) then (conds, false) else (Set(conds, c), true)
  }

  // ----- the list that is stored -----

  ghost predicate UniqueTypes(list: seq<Condition>) {
    forall i, j | 0 <= i < j < |list| :: list[i].ctype != list[j].ctype
  }

  function AsConds(list: seq<Condition>): Conds {
    if list == [] then map[] else AsConds(list[1..])[list[0].ctype := list[0]]
  }

  /** In a list with one entry per type, an entry is what the map holds for its type, and there is no other. */
  lemma {:induction false} AsCondsEntry(list: seq<Condition>, t: CondType)
    requires UniqueTypes(list)
    ensures t in AsConds(list) ==> AsConds(list)[t].ctype == t && AsConds(list)[t] in list
    ensures t !in AsConds(list) ==> forall i | 0 <= i < |list| :: list[i].ctype != t
    ensures forall i | 0 <= i < |list| && list[i].ctype == t :: t in AsConds(list) && AsConds(list)[t] == list[i]
  {
    if list != [] {
      AsCondsEntry(list[1..], t);
    }
  }

  /** apimeta.SetStatusCondition on the stored list: change the entry of this type where it is, or append one. */
  method SetStatusCondition(list: seq<Condition>, c: Condition) returns (r: seq<Condition>)
    requires UniqueTypes(list)
    ensures UniqueTypes(r)
    ensures AsConds(r) == Set(AsConds(list), c)
  {
    for i := 0 to |list|
      invariant forall k | 0 <= k < i :: list[k].ctype != c.ctype
    {
      if list[i].ctype == c.ctype {
        r := list[i := c];
        assert r[i] == c;
        forall d: Condition | d.ctype != c.ctype ensures d in r <==> d in list {
          assert forall k | 0 <= k < |list| && k != i :: r[k] == list[k];
        }
        SetInList(list, r, c);
        return;
      }
    }
    r := list + [c];
    SetInList(list, r, c);
  }

  lemma SetInList(list: seq<Condition>, r: seq<Condition>, c: Condition)
    requires UniqueTypes(list) && UniqueTypes(r)
    requires c in r
    requires forall d: Condition | d.ctype != c.ctype :: d in r <==> d in list
    ensures AsConds(r) == Set(AsConds(list), c)
  {
    forall t ensures t in AsConds(r) <==> t in Set(AsConds(list), c)
      ensures t in AsConds(r) ==> AsConds(r)[t] == Set(AsConds(list), c)[t]
    {
      AsCondsEntry(list, t);
      AsCondsEntry(r, t);
    }
  }

  /** IsJobTerminal and IsAttemptTerminal: one scan over the list. */
  method IsTerminal(list: seq<Condition>) returns (terminal: bool)
    requires UniqueTypes(list)
    ensures terminal <==> Terminal(AsConds(list))
  {
    AsCondsEntry(list, Complete);
    AsCondsEntry(list, Failed);
    for i := 0 to |list|
      invariant forall k | 0 <= k < i :: !(list[k].status && list[k].ctype in {Complete, Failed})
    {
      if !list[i].status {
        continue;
      }
      if list[i].ctype == Complete || list[i].ctype == Failed {
        return true;
      }
    }
    return false;
  }

  /** IsAttemptSucceeded. */
  method IsSucceeded(list: seq<Condition>) returns (succeeded: bool)
    requires UniqueTypes(list)
    ensures succeeded <==> IsTrue(AsConds(list), Complete)
  {
    AsCondsEntry(list, Complete);
    for i := 0 to |list|
      invariant forall k | 0 <= k < i :: !(list[k].status && list[k].ctype == Complete)
    {
      if list[i].status && list[i].ctype == Complete {
        return true;
      }
    }
    return false;
  }

  /** The stored list after any sequence of terminal and other updates. */
  function SetAll(conds: Conds, updates: seq<Condition>): Conds
    decreases |updates|
  {
    if updates == [] then conds
    else
      var c := updates[0];
      SetAll(if c.ctype in {Complete, Failed} then TrySetTerminal(conds, c).0 else Set(conds, c), updates[1..])
  }

  /** Whatever order terminal and other conditions are offered in: never both verdicts, and the first one stays. */
  lemma {:induction false} FirstVerdictWins(conds: Conds, updates: seq<Condition>)
    requires !(IsTrue(conds, Complete) && IsTrue(conds, Failed))
    ensures var r := SetAll(conds, updates);
            && !(IsTrue(r, Complete) && IsTrue(r, Failed))
            && (Terminal(conds) ==> forall t | t in {Complete, Failed} ::
                  (t in r <==> t in conds) && (t in conds ==> r[t] == conds[t]))
    decreases |updates|
  {
    if updates != [] {
      var c := updates[0];
      FirstVerdictWins(if c.ctype in {Complete, Failed} then TrySetTerminal(conds, c).0 else Set(conds, c), updates[1..]);
    }
  }
}
