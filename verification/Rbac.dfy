/** Batch permission checks: filtering discovered targets, and the two-round answer to many checks. */
module Rbac {
  import opened Common
  import opened ListQuery

  datatype UserCanTarget = UserCanTarget(verb: string, group: string, resource: string, namespace: string)

  /** What a batch call answers; a target without an entry is denied. */
  type Decisions = map<UserCanTarget, bool>

  predicate Decided(decisions: Decisions, t: UserCanTarget) {
    t in decisions && decisions[t]
  }

  // ----- filtering targets -----

  /** The user may get the target's resources; version and name play no part. */
  predicate Permitted(decisions: Decisions, t: ResourceTarget) {
    Decided(decisions, UserCanTarget("get", t.group, t.resource, t.namespace))
  }

  function PermittedTargets(targets: seq<ResourceTarget>, decisions: Decisions): (allowed: seq<ResourceTarget>)
    ensures forall t :: t in allowed <==>
      t in targets && Decided(decisions, UserCanTarget("get", t.group, t.resource, t.namespace))
  {
    if targets == [] then []
    else (if Permitted(decisions, targets[0]) then [targets[0]] else []) + PermittedTargets(targets[1..], decisions)
  }

  /** Filtering keeps the order and the multiplicity of the targets. */
  lemma {:induction false} PermittedInOrder(a: seq<ResourceTarget>, b: seq<ResourceTarget>, decisions: Decisions)
    ensures PermittedTargets(a + b, decisions) == PermittedTargets(a, decisions) + PermittedTargets(b, decisions)
  {
    hide Permitted;
    if a == [] {
      assert a + b == b;
    } else {
      var head := if Permitted(decisions, a[0]) then [a[0]] else [];
      assert (a + b)[1..] == a[1..] + b;
      PermittedInOrder(a[1..], b, decisions);
      Regroup3(head, PermittedTargets(a[1..], decisions), PermittedTargets(b, decisions));
    }
  }

  lemma NonePermitted(decisions: Decisions)
    ensures PermittedTargets([], decisions) == []
  {
  }

  /** One check for each target, in order. */
  function AskedFor(targets: seq<ResourceTarget>): (ucts: seq<UserCanTarget>)
    ensures |ucts| == |targets|
    ensures forall i :: 0 <= i < |targets| ==>
      ucts[i] == UserCanTarget("get", targets[i].group, targets[i].resource, targets[i].namespace)
  {
    if targets == [] then []
    else
      [UserCanTarget("get", targets[0].group, targets[0].resource, targets[0].namespace)] + AskedFor(targets[1..])
  }

  method BuildUserCanTargets(targets: seq<ResourceTarget>) returns (ucts: seq<UserCanTarget>)
    ensures |ucts| == |targets|
    ensures forall i :: 0 <= i < |targets| ==>
      ucts[i].verb == "get" && ucts[i].group == targets[i].group && ucts[i].resource == targets[i].resource &&
      ucts[i].namespace == targets[i].namespace
  {
    ucts := [];
    for i := 0 to |targets|
      invariant |ucts| == i
      invariant forall j :: 0 <= j < i ==>
        ucts[j] == UserCanTarget("get", targets[j].group, targets[j].resource, targets[j].namespace)
    {
      ucts := ucts + [UserCanTarget("get", targets[i].group, targets[i].resource, targets[i].namespace)];
    }
  }

  method FilterByDecisions(targets: seq<ResourceTarget>, ucts: seq<UserCanTarget>, decisions: Decisions)
    returns (allowed: seq<ResourceTarget>)
    requires ucts == AskedFor(targets)
    ensures allowed == PermittedTargets(targets, decisions)
    ensures forall t :: t in allowed <==>
      var uct := UserCanTarget("get", t.group, t.resource, t.namespace);
      t in targets && uct in decisions && decisions[uct]
  {
    hide PermittedTargets;
    allowed := [];
    NonePermitted(decisions);
    for i := 0 to |targets|
      invariant allowed == PermittedTargets(targets[..i], decisions)
    {
      KeepNext(targets, i, decisions);
      if ucts[i] in decisions && decisions[ucts[i]] {
        allowed := allowed + [targets[i]];
      }
    }
    assert targets[..|targets|] == targets;
  }

  /** One more target is appended when it is permitted, and leaves the others as they are. */
  lemma KeepNext(targets: seq<ResourceTarget>, i: nat, decisions: Decisions)
    requires i < |targets|
    ensures var t, kept := targets[i], PermittedTargets(targets[..i], decisions);
      PermittedTargets(targets[..i + 1], decisions)
      == if Decided(decisions, UserCanTarget("get", t.group, t.resource, t.namespace)) then kept + [t] else kept
  {
    assert targets[..i + 1] == targets[..i] + [targets[i]];
    PermittedInOrder(targets[..i], [targets[i]], decisions);
    assert [targets[i]][1..] == [];
  }

  /** Keeps the targets that the user may get; asked is the batch asked for, and no call is made for no targets. */
  method FilterAllowed(targets: seq<ResourceTarget>, userCan: seq<UserCanTarget> -> Decisions)
    returns (allowed: seq<ResourceTarget>, asked: seq<UserCanTarget>)
    ensures allowed == PermittedTargets(targets, userCan(asked))
    ensures |asked| == |targets|
    ensures forall i :: 0 <= i < |targets| ==>
      asked[i] == UserCanTarget("get", targets[i].group, targets[i].resource, targets[i].namespace)
    ensures forall t :: t in allowed <==>
      var uct := UserCanTarget("get", t.group, t.resource, t.namespace);
      t in targets && uct in userCan(asked) && userCan(asked)[uct]
  {
    if |targets| == 0 {
      return [], [];
    }
    asked := BuildUserCanTargets(targets);
    assert asked == AskedFor(targets);
    allowed := FilterByDecisions(targets, asked, userCan(asked));
  }

  // ----- many checks in two rounds -----

  /** The distinct cluster-wide checks, in the order in which they first occur. */
  function DistinctForms(checks: seq<UserCanTarget>): (forms: seq<UserCanTarget>)
    ensures forall f :: f in forms <==>
      exists i :: 0 <= i < |checks| && f == UserCanTarget(checks[i].verb, checks[i].group, checks[i].resource, "")
  {
    if checks == [] then []
    else
      var c := checks[|checks| - 1];
      var earlier := DistinctForms(checks[..|checks| - 1]);
      assert checks == checks[..|checks| - 1] + [c];
      var last := UserCanTarget(c.verb, c.group, c.resource, "");
      if last in earlier then earlier else earlier + [last]
  }

  lemma {:induction false} FormsOnce(checks: seq<UserCanTarget>)
    ensures forall i, j :: 0 <= i < j < |DistinctForms(checks)| ==> DistinctForms(checks)[i] != DistinctForms(checks)[j]
  {
    if checks != [] {
      FormsOnce(checks[..|checks| - 1]);
    }
  }

  /** What is asked for the first checks comes first, whatever checks follow. */
  lemma {:induction false} FormsInOrder(a: seq<UserCanTarget>, b: seq<UserCanTarget>)
    ensures DistinctForms(a) <= DistinctForms(a + b)
    decreases |b|
  {
    if b == [] {
      assert a + b == a;
    } else {
      assert (a + b)[..|a + b| - 1] == a + b[..|b| - 1];
      FormsInOrder(a, b[..|b| - 1]);
    }
  }

  /** Namespaced, and not allowed cluster-wide. */
  predicate NeedsSecondRound(c: UserCanTarget, first: Decisions) {
    !Decided(first, UserCanTarget(c.verb, c.group, c.resource, "")) && c.namespace != ""
  }

  function PendingIndexes(checks: seq<UserCanTarget>, first: Decisions): (idx: seq<nat>)
    ensures forall j :: 0 <= j < |idx| ==> idx[j] < |checks|
  {
    if checks == [] then []
    else
      var n := |checks| - 1;
      PendingIndexes(checks[..n], first) + if NeedsSecondRound(checks[n], first) then [n] else []
  }

  /** Increasing, and exactly the positions of the namespaced checks that are not allowed cluster-wide. */
  lemma {:induction false} PendingIndexesExact(checks: seq<UserCanTarget>, first: Decisions)
    ensures var idx := PendingIndexes(checks, first);
      (forall i, j :: 0 <= i < j < |idx| ==> idx[i] < idx[j]) &&
      (forall i :: i in idx <==>
        0 <= i < |checks| && checks[i].namespace != "" &&
        !Decided(first, UserCanTarget(checks[i].verb, checks[i].group, checks[i].resource, "")))
  {
    if checks != [] {
      PendingIndexesExact(checks[..|checks| - 1], first);
    }
  }

  function Pick(checks: seq<UserCanTarget>, idx: seq<nat>): (picked: seq<UserCanTarget>)
    requires forall j :: 0 <= j < |idx| ==> idx[j] < |checks|
    ensures |picked| == |idx| && forall j :: 0 <= j < |idx| ==> picked[j] == checks[idx[j]]
  {
    if idx == [] then [] else [checks[idx[0]]] + Pick(checks, idx[1..])
  }

  function Pending(checks: seq<UserCanTarget>, first: Decisions): seq<UserCanTarget> {
    Pick(checks, PendingIndexes(checks, first))
  }

  /** Answers, for each check, whether the user may perform it. userCan is given the number of the call, so that the
      two rounds may disagree; asked holds the batches asked for. */
  method CanI(checks: seq<UserCanTarget>, userCan: (nat, seq<UserCanTarget>) -> Decisions)
    returns (allowed: array<bool>, asked: seq<seq<UserCanTarget>>)
    ensures fresh(allowed) && allowed.Length == |checks|
    ensures |asked| <= 2 && (asked == [] <==> checks == [])
    ensures checks != [] ==>
      (forall f :: f in asked[0] <==>
        exists i :: 0 <= i < |checks| && f == UserCanTarget(checks[i].verb, checks[i].group, checks[i].resource, "")) &&
      (forall i, j :: 0 <= i < j < |asked[0]| ==> asked[0][i] != asked[0][j])
    ensures |asked| == 2 <==>
      exists i :: 0 <= i < |checks| && checks[i].namespace != "" &&
        !Decided(userCan(0, asked[0]), UserCanTarget(checks[i].verb, checks[i].group, checks[i].resource, ""))
    ensures |asked| == 2 ==> asked[1] == Pending(checks, userCan(0, asked[0]))
    ensures forall i :: 0 <= i < |checks| ==>
      (allowed[i] <==>
        Decided(userCan(0, asked[0]), UserCanTarget(checks[i].verb, checks[i].group, checks[i].resource, "")) ||
        (checks[i].namespace != "" && |asked| == 2 && Decided(userCan(1, asked[1]), checks[i])))
  {
    hide DistinctForms, Pending, PendingIndexes;
    allowed := new bool[|checks|](_ => false);
    asked := [];
    if |checks| == 0 {
      return;
    }
    var clusterWide := FirstBatch(checks);
    FormsOnce(checks);
    asked := asked + [clusterWide];
    var clusterDecisions := userCan(0, clusterWide);

    var pending, pendingIdx := MarkClusterWide(checks, clusterDecisions, allowed);
    PendingCount(checks, clusterDecisions);
    if |pending| == 0 {
      return;
    }
    asked := asked + [pending];
    var decisions := userCan(1, pending);
    Scatter(checks, clusterDecisions, pending, pendingIdx, decisions, allowed);
  }

  lemma PendingCount(checks: seq<UserCanTarget>, first: Decisions)
    ensures Pending(checks, first) == [] <==>
      forall i :: 0 <= i < |checks| ==>
        checks[i].namespace == "" ||
        Decided(first, UserCanTarget(checks[i].verb, checks[i].group, checks[i].resource, ""))
  {
    PendingIndexesExact(checks, first);
    var idx := PendingIndexes(checks, first);
    assert |Pending(checks, first)| == |idx|;
    if idx != [] {
      assert idx[0] in idx;
    }
  }

  /** The second loop: what the cluster-wide decisions settle is written, the rest is collected. */
  method MarkClusterWide(checks: seq<UserCanTarget>, first: Decisions, allowed: array<bool>)
    returns (pending: seq<UserCanTarget>, pendingIdx: seq<nat>)
    requires allowed.Length == |checks| && forall i :: 0 <= i < |checks| ==> !allowed[i]
    modifies allowed
    ensures pendingIdx == PendingIndexes(checks, first) && pending == Pending(checks, first)
    ensures forall i :: 0 <= i < |checks| ==>
      allowed[i] == Decided(first, UserCanTarget(checks[i].verb, checks[i].group, checks[i].resource, ""))
  {
    pending, pendingIdx := [], [];
    for i := 0 to |checks|
      invariant pendingIdx == PendingIndexes(checks[..i], first)
      invariant |pending| == |pendingIdx| && forall j :: 0 <= j < |pending| ==> pending[j] == checks[pendingIdx[j]]
      invariant forall j :: 0 <= j < |checks| ==>
        allowed[j] ==
          (j < i && Decided(first, UserCanTarget(checks[j].verb, checks[j].group, checks[j].resource, "")))
    {
      assert checks[..i + 1][..i] == checks[..i];
      var c := checks[i];
      if Decided(first, UserCanTarget(c.verb, c.group, c.resource, "")) {
        allowed[i] := true;
      } else if c.namespace != "" {
        pending, pendingIdx := pending + [c], pendingIdx + [i];
      }
    }
    assert checks[..|checks|] == checks;
  }

  /** The last loop: each second-round decision goes back to the position that asked for it. */
  method Scatter(checks: seq<UserCanTarget>, first: Decisions, pending: seq<UserCanTarget>, pendingIdx: seq<nat>,
                 second: Decisions, allowed: array<bool>)
    requires allowed.Length == |checks|
    requires pendingIdx == PendingIndexes(checks, first) && pending == Pending(checks, first)
    requires forall i :: 0 <= i < |checks| ==>
      allowed[i] == Decided(first, UserCanTarget(checks[i].verb, checks[i].group, checks[i].resource, ""))
    modifies allowed
    ensures forall i :: 0 <= i < |checks| ==>
      (allowed[i] <==>
        Decided(first, UserCanTarget(checks[i].verb, checks[i].group, checks[i].resource, "")) ||
        (checks[i].namespace != "" && Decided(second, checks[i])))
  {
    ghost var before := allowed[..];
    PendingIndexesExact(checks, first);
    hide PendingIndexes, Pick, Decided;
    ScatterLoop(checks, pending, pendingIdx, second, allowed);
    ScatterMeans(checks, first, second, pendingIdx, before, allowed[..]);
  }

  method ScatterLoop(checks: seq<UserCanTarget>, pending: seq<UserCanTarget>, pendingIdx: seq<nat>,
                     second: Decisions, allowed: array<bool>)
    requires allowed.Length == |checks| && |pending| == |pendingIdx|
    requires forall k :: 0 <= k < |pendingIdx| ==> pendingIdx[k] < |checks| && pending[k] == checks[pendingIdx[k]]
    requires forall i, j :: 0 <= i < j < |pendingIdx| ==> pendingIdx[i] < pendingIdx[j]
    modifies allowed
    ensures forall k :: 0 <= k < |pendingIdx| ==> allowed[pendingIdx[k]] == Decided(second, checks[pendingIdx[k]])
    ensures forall i :: 0 <= i < |checks| && i !in pendingIdx ==> allowed[i] == old(allowed[i])
  {
    hide Decided;
    for j := 0 to |pending|
      invariant forall k :: 0 <= k < j ==> allowed[pendingIdx[k]] == Decided(second, checks[pendingIdx[k]])
      invariant forall i :: 0 <= i < |checks| && i !in pendingIdx ==> allowed[i] == old(allowed[i])
    {
      allowed[pendingIdx[j]] := Decided(second, pending[j]);
    }
  }

  lemma ScatterMeans(checks: seq<UserCanTarget>, first: Decisions, second: Decisions, idx: seq<nat>,
                     before: seq<bool>, after: seq<bool>)
    requires |before| == |after| == |checks| && idx == PendingIndexes(checks, first)
    requires forall i :: 0 <= i < |checks| ==>
      before[i] == Decided(first, UserCanTarget(checks[i].verb, checks[i].group, checks[i].resource, ""))
    requires forall k :: 0 <= k < |idx| ==> after[idx[k]] == Decided(second, checks[idx[k]])
    requires forall i :: 0 <= i < |checks| && i !in idx ==> after[i] == before[i]
    ensures forall i :: 0 <= i < |checks| ==>
      (after[i] <==>
        Decided(first, UserCanTarget(checks[i].verb, checks[i].group, checks[i].resource, "")) ||
        (checks[i].namespace != "" && Decided(second, checks[i])))
  {
    PendingIndexesExact(checks, first);
    hide PendingIndexes, Decided;
    forall i | 0 <= i < |checks|
      ensures after[i] <==>
        Decided(first, UserCanTarget(checks[i].verb, checks[i].group, checks[i].resource, "")) ||
        (checks[i].namespace != "" && Decided(second, checks[i]))
    {
      if i in idx {
        var k :| 0 <= k < |idx| && idx[k] == i;
      }
    }
  }

  /** The first loop: one cluster-wide check for each verb and resource. */
  method FirstBatch(checks: seq<UserCanTarget>) returns (clusterWide: seq<UserCanTarget>)
    ensures clusterWide == DistinctForms(checks)
    ensures forall f :: f in clusterWide <==>
      exists i :: 0 <= i < |checks| && f == UserCanTarget(checks[i].verb, checks[i].group, checks[i].resource, "")
  {
    var seen: map<UserCanTarget, bool> := map[];
    clusterWide := [];
    for i := 0 to |checks|
      invariant clusterWide == DistinctForms(checks[..i])
      invariant forall f :: f in seen <==> f in clusterWide
    {
      assert checks[..i + 1][..i] == checks[..i];
      var cw := UserCanTarget(checks[i].verb, checks[i].group, checks[i].resource, "");
      if cw !in seen {
        seen := seen[cw := true];
        clusterWide := clusterWide + [cw];
      }
    }
    assert checks[..|checks|] == checks;
  }

  // ----- agreement with a per-check rule -----

  /** Permission in all namespaces includes permission in each. */
  ghost predicate Monotone(can: UserCanTarget -> bool) {
    forall v, g, r, n :: can(UserCanTarget(v, g, r, "")) ==> can(UserCanTarget(v, g, r, n))
  }

  /** The batch answer of a service that decides every target by the rule can. */
  function DecisionsBy(can: UserCanTarget -> bool, batch: seq<UserCanTarget>): Decisions {
    map t | t in batch :: can(t)
  }

  /** Answer i of CanI when both rounds decide by the rule can. */
  predicate AnswerBy(can: UserCanTarget -> bool, checks: seq<UserCanTarget>, i: nat)
    requires i < |checks|
  {
    var first := DecisionsBy(can, DistinctForms(checks));
    var second := DecisionsBy(can, Pending(checks, first));
    Decided(first, UserCanTarget(checks[i].verb, checks[i].group, checks[i].resource, "")) ||
    (checks[i].namespace != "" && Decided(second, checks[i]))
  }

  ghost predicate AgreesOn(can: UserCanTarget -> bool, checks: seq<UserCanTarget>) {
    forall i :: 0 <= i < |checks| ==> AnswerBy(can, checks, i) == can(checks[i])
  }

  lemma AnswerByRule(can: UserCanTarget -> bool, checks: seq<UserCanTarget>, i: nat)
    requires i < |checks|
    ensures AnswerBy(can, checks, i) <==>
      can(UserCanTarget(checks[i].verb, checks[i].group, checks[i].resource, "")) ||
      (checks[i].namespace != "" && can(checks[i]))
  {
    var c, forms := checks[i], DistinctForms(checks);
    var first := DecisionsBy(can, forms);
    assert UserCanTarget(c.verb, c.group, c.resource, "") in forms;
    PendingIndexesExact(checks, first);
    var idx := PendingIndexes(checks, first);
    if i in idx {
      var j :| 0 <= j < |idx| && idx[j] == i;
      assert Pending(checks, first)[j] == c;
    }
  }

  /** Every batch is answered as the rule says exactly when cluster-wide permission includes each namespace. */
  lemma BatchAgreesExactly(can: UserCanTarget -> bool)
    ensures (forall checks: seq<UserCanTarget> :: AgreesOn(can, checks)) <==>
      forall v, g, r, n :: can(UserCanTarget(v, g, r, "")) ==> can(UserCanTarget(v, g, r, n))
  {
    hide AnswerBy;
    if Monotone(can) {
      forall checks: seq<UserCanTarget>
        ensures AgreesOn(can, checks)
      {
        forall i | 0 <= i < |checks|
          ensures AnswerBy(can, checks, i) == can(checks[i])
        {
          var c := checks[i];
          AnswerByRule(can, checks, i);
          assert c == UserCanTarget(c.verb, c.group, c.resource, c.namespace);
        }
      }
    } else {
      var v, g, r, n :| can(UserCanTarget(v, g, r, "")) && !can(UserCanTarget(v, g, r, n));
      var checks := [UserCanTarget(v, g, r, n)];
      AnswerByRule(can, checks, 0);
      assert AnswerBy(can, checks, 0) != can(checks[0]);
      assert !AgreesOn(can, checks);
    }
  }
}
