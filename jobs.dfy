/**
 * The jobs package: a job set (jobs/JobSet.java) holds the reward actions
 * read from one configuration node, and a job may carry a requirement that
 * the job command checks before a switch.
 */
module Jobs {
  import opened Optional

  /** A key of a configuration node's children map, which need not be a string. */
  datatype Key = StringKey(name: string) | OtherKey

  /**
   * The node one action is loaded from. `JobAction.loadConfigNode` is not
   * part of this model; its node is kept whole inside the action.
   */
  datatype ActionNode = ActionNode(settings: map<string, string>)

  /**
   * A job action: the event name ("break", "place", ...), the target id and
   * its settings. The target id is the key the action's node sits under.
   */
  datatype JobAction = JobAction(action: string, targetId: string, node: ActionNode)

  /** The children of an action's node: target id to the node of that target. */
  type TargetsNode = seq<(Key, Option<ActionNode>)>

  /** The children of a job set's node: action name to its targets. */
  type SetNode = seq<(Key, Option<TargetsNode>)>

  /** The actions one action entry contributes: string-keyed, present and valid ones, in order. */
  function TargetActions(actionStr: string, targets: TargetsNode, isValid: JobAction -> bool): (r: seq<JobAction>)
    ensures forall a :: a in r ==> isValid(a) && a.action == actionStr
    ensures forall a :: a in r ==>
      exists j :: 0 <= j < |targets| && targets[j] == (StringKey(a.targetId), Some(a.node))
  {
    if targets == [] then []
    else
      var last := targets[|targets| - 1];
      var prefix := TargetActions(actionStr, targets[..|targets| - 1], isValid);
      assert forall j :: 0 <= j < |targets| - 1 ==> targets[..|targets| - 1][j] == targets[j];
      if last.0.StringKey? && last.1.Some? && isValid(JobAction(actionStr, last.0.name, last.1.value))
      then prefix + [JobAction(actionStr, last.0.name, last.1.value)]
      else prefix
  }

  /** The actions the constructor collects from a whole set node. */
  function SetActions(node: SetNode, isValid: JobAction -> bool): (r: seq<JobAction>)
    ensures forall a :: a in r ==> isValid(a)
    ensures forall a :: a in r ==>
      exists i :: 0 <= i < |node| && node[i].0 == StringKey(a.action) && node[i].1.Some? &&
        exists j :: 0 <= j < |node[i].1.value| && node[i].1.value[j] == (StringKey(a.targetId), Some(a.node))
  {
    if node == [] then []
    else
      var last := node[|node| - 1];
      var prefix := SetActions(node[..|node| - 1], isValid);
      assert forall i :: 0 <= i < |node| - 1 ==> node[..|node| - 1][i] == node[i];
      if last.0.StringKey? && last.1.Some? then prefix + TargetActions(last.0.name, last.1.value, isValid)
      else prefix
  }

  lemma {:induction false} TargetActionsComplete(actionStr: string, targets: TargetsNode, isValid: JobAction -> bool, j: nat)
    requires j < |targets| && targets[j].0.StringKey? && targets[j].1.Some?
    requires isValid(JobAction(actionStr, targets[j].0.name, targets[j].1.value))
    ensures JobAction(actionStr, targets[j].0.name, targets[j].1.value) in TargetActions(actionStr, targets, isValid)
  {
    if j < |targets| - 1 {
      TargetActionsComplete(actionStr, targets[..|targets| - 1], isValid, j);
    }
  }

  /**
   * Every valid action under a string action key and a string target key,
   * both with a node, is collected.
   */
  lemma {:induction false} SetActionsComplete(node: SetNode, isValid: JobAction -> bool, i: nat, j: nat)
    requires i < |node| && node[i].0.StringKey? && node[i].1.Some?
    requires var targets := node[i].1.value;
      j < |targets| && targets[j].0.StringKey? && targets[j].1.Some? &&
      isValid(JobAction(node[i].0.name, targets[j].0.name, targets[j].1.value))
    ensures var targets := node[i].1.value;
      JobAction(node[i].0.name, targets[j].0.name, targets[j].1.value) in SetActions(node, isValid)
  {
    if i < |node| - 1 {
      SetActionsComplete(node[..|node| - 1], isValid, i, j);
    } else {
      TargetActionsComplete(node[i].0.name, node[i].1.value, isValid, j);
    }
  }

  predicate Matches(a: JobAction, action: string, targetId: string) {
    a.action == action && a.targetId == targetId
  }

  /** The index of the first action in list order that matches both fields. */
  function FirstMatch(actions: seq<JobAction>, action: string, targetId: string): (r: Option<nat>)
    ensures r.Some? ==> r.value < |actions| && Matches(actions[r.value], action, targetId)
    ensures r.Some? ==> forall k :: 0 <= k < r.value ==> !Matches(actions[k], action, targetId)
    ensures r.None? <==> forall k :: 0 <= k < |actions| ==> !Matches(actions[k], action, targetId)
  {
    if actions == [] then None
    else if Matches(actions[0], action, targetId) then Some(0)
    else
      match FirstMatch(actions[1..], action, targetId)
      case None => None
      case Some(k) => Some(k + 1)
  }

  class JobSet {
    var actions: seq<JobAction>

    /**
     * Walks the node's children and, for string keys with a node, their
     * children in turn, keeping each loaded action that `isValid` accepts.
     */
    constructor (node: SetNode, isValid: JobAction -> bool)
      ensures actions == SetActions(node, isValid)
    {
      actions := [];
      new;
      var i := 0;
      while i < |node|
        invariant 0 <= i <= |node|
        invariant actions == SetActions(node[..i], isValid)
      {
        assert node[..i + 1][..i] == node[..i];
        var (actionStr, targetNode) := node[i];
        if actionStr.StringKey? && targetNode.Some? {
          var targets := targetNode.value;
          ghost var before := actions;
          var j := 0;
          while j < |targets|
            invariant 0 <= j <= |targets|
            invariant actions == before + TargetActions(actionStr.name, targets[..j], isValid)
          {
            assert targets[..j + 1][..j] == targets[..j];
            var (targetId, actionNode) := targets[j];
            if targetId.StringKey? && actionNode.Some? {
              var a := JobAction(actionStr.name, targetId.name, actionNode.value);
              if isValid(a) {
                actions := actions + [a];
              }
            }
            j := j + 1;
          }
          assert targets[..|targets|] == targets;
        }
        i := i + 1;
      }
      assert node[..|node|] == node;
    }

    /** `getActionFor`: the first action, in list order, with this action name and target id. */
    function GetActionFor(action: string, targetId: string): (r: Option<JobAction>)
      reads this
      ensures r.Some? ==> r.value in actions && Matches(r.value, action, targetId)
      ensures r.None? <==> forall a :: a in actions ==> !Matches(a, action, targetId)
      ensures r.Some? ==> exists k :: 0 <= k < |actions| && actions[k] == r.value &&
                                      (forall j :: 0 <= j < k ==> !Matches(actions[j], action, targetId))
    {
      match FirstMatch(actions, action, targetId)
      case None => None
      case Some(k) => Some(actions[k])
    }
  }

  /** `JobBasedRequirement`: an optional permission and an optional minimum level in another job. */
  datatype JobBasedRequirement = JobBasedRequirement(
    requiredPermission: Option<string>,
    requiredJob: Option<string>,
    requiredJobLevel: int)

  /** A job as the job command sees it: its optional requirement. */
  datatype Job = Job(requirement: Option<JobBasedRequirement>)
}
