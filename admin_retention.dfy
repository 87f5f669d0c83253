// `retention-rules-apply`: marking every pending workspace retention rule
// applied.
module AdminRetention {

  datatype RuleStatus = RuleActive | RuleInactive | RuleApplied | RulePending

  /** A workspace retention rule: when it falls due, as a timestamp. */
  datatype RetentionRule = RetentionRule(workflowId: string, status: RuleStatus, applyOn: int)

  /** The filter of `retention-rules-apply`: active, and due strictly before now. */
  predicate Pending(r: RetentionRule, now: int)
  {
    r.status == RuleActive && r.applyOn < now
  }

  /** The positions of the pending rules from `from` on, in table order. */
  function PendingIndices(rules: seq<RetentionRule>, now: int, from: nat): (r: seq<nat>)
    requires from <= |rules|
    ensures forall k :: k in r <==> from <= k < |rules| && Pending(rules[k], now)
    ensures r == [] <==> forall k :: from <= k < |rules| ==> !Pending(rules[k], now)
    decreases |rules| - from
  {
    if from == |rules| then []
    else if Pending(rules[from], now) then [from] + PendingIndices(rules, now, from + 1)
    else PendingIndices(rules, now, from + 1)
  }

  predicate Increasing(r: seq<nat>)
  {
    forall i, j :: 0 <= i < j < |r| ==> r[i] < r[j]
  }

  /** The query lists each pending rule once, in table order. */
  lemma {:induction false} PendingIndicesIncrease(rules: seq<RetentionRule>, now: int, from: nat)
    requires from <= |rules|
    ensures Increasing(PendingIndices(rules, now, from))
    decreases |rules| - from
  {
    if from < |rules| {
      PendingIndicesIncrease(rules, now, from + 1);
      if Pending(rules[from], now) {
        ConsIncreasing(from, PendingIndices(rules, now, from + 1));
      }
    }
  }

  lemma ConsIncreasing(x: nat, rest: seq<nat>)
    requires Increasing(rest) && forall k :: k in rest ==> x < k
    ensures Increasing([x] + rest)
  {
    var r := [x] + rest;
    forall i, j | 0 <= i < j < |r|
      ensures r[i] < r[j]
    {
      assert r[j] == rest[j - 1] && rest[j - 1] in rest;
      if i > 0 {
        assert r[i] == rest[i - 1];
      }
    }
  }

  function Mark(r: RetentionRule): RetentionRule
  {
    r.(status := RuleApplied)
  }

  /** The rules after every pending one is marked applied. */
  function AfterApply(rules: seq<RetentionRule>, now: int): (r: seq<RetentionRule>)
    ensures |r| == |rules|
  {
    seq(|rules|, k requires 0 <= k < |rules| => if Pending(rules[k], now) then Mark(rules[k]) else rules[k])
  }

  /** The rules after the ones at `ks` are marked applied, one after the other. */
  function MarkAll(rules: seq<RetentionRule>, ks: seq<nat>): (r: seq<RetentionRule>)
    requires forall j :: 0 <= j < |ks| ==> ks[j] < |rules|
    ensures |r| == |rules|
  {
    if ks == [] then rules
    else
      var m := MarkAll(rules, ks[..|ks| - 1]);
      m[ks[|ks| - 1] := Mark(m[ks[|ks| - 1]])]
  }

  /** Marking touches exactly the listed rules; marking one twice is marking it once. */
  lemma {:induction false} MarkAllAt(rules: seq<RetentionRule>, ks: seq<nat>, k: nat)
    requires forall j :: 0 <= j < |ks| ==> ks[j] < |rules|
    requires k < |rules|
    ensures MarkAll(rules, ks)[k] == if k in ks then Mark(rules[k]) else rules[k]
  {
    if ks != [] {
      var init := ks[..|ks| - 1];
      MarkAllAt(rules, init, k);
      assert ks == init + [ks[|ks| - 1]];
    }
  }

  /** Marking the pending rules is applying the rules. */
  lemma MarkPending(rules: seq<RetentionRule>, now: int)
    ensures var due := PendingIndices(rules, now, 0);
      (forall j :: 0 <= j < |due| ==> due[j] < |rules|) && MarkAll(rules, due) == AfterApply(rules, now)
  {
    var due := PendingIndices(rules, now, 0);
    assert forall j :: 0 <= j < |due| ==> due[j] in due;
    forall k | 0 <= k < |rules|
      ensures MarkAll(rules, due)[k] == AfterApply(rules, now)[k]
    {
      MarkAllAt(rules, due, k);
    }
  }

  /** The administrator's view of the workspace retention rules table. */
  class RuleTable {
    var rules: seq<RetentionRule>

    constructor (rules: seq<RetentionRule>)
      ensures this.rules == rules
    {
      this.rules := rules;
    }

    /**
     * `retention-rules-apply` at time `now`: each pending rule, in order, is
     * applied (its workspace is cleaned, which is not modelled here) and marked
     * applied; `applied` lists the rules in the order they were applied.
     */
    method RetentionRulesApply(now: int) returns (applied: seq<nat>, nothingToDo: bool)
      modifies this
      ensures applied == PendingIndices(old(rules), now, 0)
      ensures nothingToDo <==> forall k :: 0 <= k < |old(rules)| ==> !Pending(old(rules)[k], now)
      ensures rules == AfterApply(old(rules), now)
    {
      ghost var before := rules;
      var due := PendingIndices(rules, now, 0);
      MarkPending(rules, now);
      nothingToDo := due == [];
      applied := [];
      var i := 0;
      while i < |due|
        invariant 0 <= i <= |due|
        invariant applied == due[..i]
        invariant rules == MarkAll(before, due[..i])
      {
        var k := due[i];
        MarkAllSnoc(before, due, i);
        rules := rules[k := Mark(rules[k])];
        applied := applied + [k];
        i := i + 1;
      }
      assert due[..i] == due;
    }
  }

  lemma MarkAllSnoc(rules: seq<RetentionRule>, ks: seq<nat>, i: nat)
    requires forall j :: 0 <= j < |ks| ==> ks[j] < |rules|
    requires i < |ks|
    ensures var m := MarkAll(rules, ks[..i]); MarkAll(rules, ks[..i + 1]) == m[ks[i] := Mark(m[ks[i]])]
  {
    assert ks[..i + 1][..i] == ks[..i];
  }

  /**
   * Applying leaves the rules that are not pending as they are and marks the
   * pending ones applied, keeping everything else about them.
   */
  lemma AfterApplyEffect(rules: seq<RetentionRule>, now: int, k: nat)
    requires k < |rules|
    ensures Pending(rules[k], now) ==> AfterApply(rules, now)[k].status == RuleApplied
    ensures !Pending(rules[k], now) ==> AfterApply(rules, now)[k] == rules[k]
    ensures AfterApply(rules, now)[k].workflowId == rules[k].workflowId
    ensures AfterApply(rules, now)[k].applyOn == rules[k].applyOn
  {
  }

  /** Applying the rules a second time at the same moment applies nothing and changes nothing. */
  lemma NothingDueTwice(rules: seq<RetentionRule>, now: int)
    ensures PendingIndices(AfterApply(rules, now), now, 0) == []
    ensures AfterApply(AfterApply(rules, now), now) == AfterApply(rules, now)
  {
    var after := AfterApply(rules, now);
    assert forall k :: 0 <= k < |after| ==> !Pending(after[k], now);
  }
}
