/**
 * The node half of the validator, stated as functions: what `validate_nodes`
 * decides about one node given the ids accepted so far, and what a whole pass
 * over the `nodes` array accumulates. The imperative loop in
 * KGDataValidator.ValidateNodes is proved to compute exactly this.
 */
module NodeRules {
  import opened Wrappers
  import opened JsonValue
  import opened Diagnostics

  /** Longer ids and names are reported as warnings, never rejected. */
  const MaxIdLength: nat := 100
  const MaxNameLength: nat := 200

  /** An object with a string `id` and a string `name`: the node reaches the duplicate-id check. */
  predicate HasIdAndName(node: Json)
  {
    node.JObject? && HasString(node.fields, "id") && HasString(node.fields, "name")
  }

  /** A node that passes every check except, possibly, the duplicate-id one. */
  predicate WellFormedNode(node: Json)
  {
    HasIdAndName(node) &&
    OptionalString(node.fields, "type") && OptionalString(node.fields, "description")
  }

  function NodeId(node: Json): string
    requires WellFormedNode(node)
  {
    node.fields["id"].str
  }

  /** The ids of all well-formed nodes of `nodes`, duplicates or not. */
  function WellFormedIds(nodes: seq<Json>): set<string>
  {
    set i | 0 <= i < |nodes| && WellFormedNode(nodes[i]) :: NodeId(nodes[i])
  }

  /**
   * The error recorded for node `i`, given the set `accepted` of ids accepted
   * before it, or None when the node is valid. The checks run in the source's
   * order, so the first failing one names the error.
   */
  function NodeError(i: nat, node: Json, accepted: set<string>): (e: Option<Error>)
    ensures e == None <==> WellFormedNode(node) && NodeId(node) !in accepted
    ensures e.Some? && e.value.DuplicateNodeId? <==>
              HasIdAndName(node) && node.fields["id"].str in accepted
    ensures e.Some? && e.value.DuplicateNodeId? ==> e.value.id == node.fields["id"].str
    ensures e.Some? && !e.value.DuplicateNodeId? ==> IsNodeError(e.value) && e.value.index == i
  {
    if !node.JObject? then Some(NodeNotObject(i))
    else if "id" !in node.fields then Some(NodeMissingId(i))
    else if "name" !in node.fields then Some(NodeMissingName(i))
    else if !node.fields["id"].JString? then Some(NodeIdNotString(i))
    else if !node.fields["name"].JString? then Some(NodeNameNotString(i))
    else if node.fields["id"].str in accepted then Some(DuplicateNodeId(node.fields["id"].str))
    else if "type" in node.fields && !node.fields["type"].JString? then Some(NodeTypeNotString(i))
    else if "description" in node.fields && !node.fields["description"].JString? then
      Some(NodeDescriptionNotString(i))
    else None
  }

  /** The node got past the duplicate-id check, where the length warnings are issued. */
  predicate ReachesLengthChecks(node: Json, accepted: set<string>)
  {
    HasIdAndName(node) && node.fields["id"].str !in accepted
  }

  /**
   * The warnings issued for one node: an over-long id and an over-long name,
   * checked before the optional fields, so a node later rejected for its `type`
   * or `description` still warns.
   */
  function NodeWarnings(node: Json, accepted: set<string>): (ws: seq<Warning>)
    ensures !ReachesLengthChecks(node, accepted) ==> ws == []
    ensures forall w | w in ws ::
              (w.NodeIdTooLong? && |w.id| > MaxIdLength) || (w.NodeNameTooLong? && |w.name| > MaxNameLength)
    ensures ReachesLengthChecks(node, accepted) && |node.fields["id"].str| > MaxIdLength ==>
              NodeIdTooLong(node.fields["id"].str) in ws
    ensures ReachesLengthChecks(node, accepted) && |node.fields["name"].str| > MaxNameLength ==>
              NodeNameTooLong(node.fields["name"].str) in ws
    ensures ReachesLengthChecks(node, accepted) ==>
              |ws| == (if |node.fields["id"].str| > MaxIdLength then 1 else 0) +
                      (if |node.fields["name"].str| > MaxNameLength then 1 else 0)
  {
    if !ReachesLengthChecks(node, accepted) then []
    else
      var id, name := node.fields["id"].str, node.fields["name"].str;
      (if |id| > MaxIdLength then [NodeIdTooLong(id)] else []) +
      (if |name| > MaxNameLength then [NodeNameTooLong(name)] else [])
  }

  /** Every warning issued for a node is about that node's own id or name. */
  lemma NodeWarningsOwn(node: Json, accepted: set<string>)
    requires ReachesLengthChecks(node, accepted)
    ensures forall w | w in NodeWarnings(node, accepted) ::
              w == NodeIdTooLong(node.fields["id"].str) || w == NodeNameTooLong(node.fields["name"].str)
  {
  }

  /** What a pass over some nodes accumulates: `node_ids`, the errors and warnings it appends, and the counts. */
  datatype NodeTally = NodeTally(accepted: set<string>, errors: seq<Error>, warnings: seq<Warning>, valid: nat, invalid: nat)

  /** One iteration of the loop of `validate_nodes`: node `i` checked against the tally so far. */
  function NodeStep(t: NodeTally, i: nat, node: Json): NodeTally
  {
    var e := NodeError(i, node, t.accepted);
    NodeTally(if e == None then t.accepted + {NodeId(node)} else t.accepted,
              t.errors + ErrorList(e),
              t.warnings + NodeWarnings(node, t.accepted),
              if e == None then t.valid + 1 else t.valid,
              if e == None then t.invalid else t.invalid + 1)
  }

  /** The loop of `validate_nodes` over `nodes`, in order, starting from tally `start`. */
  function NodesFrom(start: NodeTally, nodes: seq<Json>): NodeTally
  {
    if nodes == [] then start
    else NodeStep(NodesFrom(start, nodes[..|nodes| - 1]), |nodes| - 1, nodes[|nodes| - 1])
  }

  /** What one pass over `nodes` accumulates on its own, from an empty id set. */
  function NodePass(nodes: seq<Json>): NodeTally
  {
    NodesFrom(NodeTally({}, [], [], 0, 0), nodes)
  }

  lemma NodesFromExtend(start: NodeTally, nodes: seq<Json>, i: nat)
    requires i < |nodes|
    ensures NodesFrom(start, nodes[..i + 1]) == NodeStep(NodesFrom(start, nodes[..i]), i, nodes[i])
  {
    assert nodes[..i + 1][..i] == nodes[..i];
  }

  /** A tally `t` placed after earlier errors, warnings and counts. */
  function Shifted(t: NodeTally, errors: seq<Error>, warnings: seq<Warning>, valid: nat, invalid: nat): NodeTally
  {
    NodeTally(t.accepted, errors + t.errors, warnings + t.warnings, valid + t.valid, invalid + t.invalid)
  }

  lemma NodeStepShifted(t: NodeTally, errors: seq<Error>, warnings: seq<Warning>, valid: nat, invalid: nat, i: nat, node: Json)
    ensures NodeStep(Shifted(t, errors, warnings, valid, invalid), i, node) ==
            Shifted(NodeStep(t, i, node), errors, warnings, valid, invalid)
  {
    var e := NodeError(i, node, t.accepted);
    assert errors + t.errors + ErrorList(e) == errors + (t.errors + ErrorList(e));
    assert warnings + t.warnings + NodeWarnings(node, t.accepted) ==
           warnings + (t.warnings + NodeWarnings(node, t.accepted));
  }

  /** A pass that starts from earlier errors, warnings and counts only appends to them. */
  lemma {:induction false} NodesFromShift(errors: seq<Error>, warnings: seq<Warning>, valid: nat, invalid: nat, nodes: seq<Json>)
    ensures NodesFrom(NodeTally({}, errors, warnings, valid, invalid), nodes) ==
            Shifted(NodePass(nodes), errors, warnings, valid, invalid)
  {
    if nodes != [] {
      var n := |nodes| - 1;
      NodesFromShift(errors, warnings, valid, invalid, nodes[..n]);
      NodeStepShifted(NodePass(nodes[..n]), errors, warnings, valid, invalid, n, nodes[n]);
    }
  }

  /**
   * Conservation: every node is counted once, as valid or invalid; each invalid
   * node appends exactly one node error; each valid node adds a new id.
   */
  lemma {:induction false} NodePassCounts(nodes: seq<Json>)
    ensures NodePass(nodes).valid + NodePass(nodes).invalid == |nodes|
    ensures |NodePass(nodes).errors| == NodePass(nodes).invalid
    ensures |NodePass(nodes).accepted| == NodePass(nodes).valid
    ensures forall e | e in NodePass(nodes).errors :: IsNodeError(e)
  {
    if nodes != [] {
      NodePassCounts(nodes[..|nodes| - 1]);
    }
  }

  lemma WellFormedIdsSnoc(nodes: seq<Json>)
    requires nodes != []
    ensures var n := |nodes| - 1;
            WellFormedIds(nodes) ==
            WellFormedIds(nodes[..n]) + (if WellFormedNode(nodes[n]) then {NodeId(nodes[n])} else {})
  {
    var n := |nodes| - 1;
    var prefix := nodes[..n];
    forall x | x in WellFormedIds(nodes)
      ensures x in WellFormedIds(prefix) + (if WellFormedNode(nodes[n]) then {NodeId(nodes[n])} else {})
    {
      var i :| 0 <= i < |nodes| && WellFormedNode(nodes[i]) && NodeId(nodes[i]) == x;
      if i < n {
        assert prefix[i] == nodes[i];
      }
    }
    forall x | x in WellFormedIds(prefix)
      ensures x in WellFormedIds(nodes)
    {
      var i :| 0 <= i < |prefix| && WellFormedNode(prefix[i]) && NodeId(prefix[i]) == x;
      assert nodes[i] == prefix[i];
    }
  }

  /**
   * The returned id set holds exactly the ids of the well-formed nodes: a node
   * rejected for any reason other than a duplicate id reserves nothing, and
   * every well-formed node's id ends up accepted (by it or by an earlier node).
   */
  lemma {:induction false} NodePassAccepted(nodes: seq<Json>)
    ensures NodePass(nodes).accepted == WellFormedIds(nodes)
  {
    if nodes != [] {
      NodePassAccepted(nodes[..|nodes| - 1]);
      WellFormedIdsSnoc(nodes);
    }
  }

  /**
   * Node `i` is accepted iff it is well-formed and no earlier WELL-FORMED node
   * has the same id; warnings (over-long id or name) play no part.
   */
  lemma FirstOccurrenceAccepted(nodes: seq<Json>, i: nat)
    requires i < |nodes|
    ensures NodeError(i, nodes[i], NodePass(nodes[..i]).accepted) == None <==>
              WellFormedNode(nodes[i]) &&
              forall j | 0 <= j < i && WellFormedNode(nodes[j]) :: NodeId(nodes[j]) != NodeId(nodes[i])
  {
    var prefix := nodes[..i];
    NodePassAccepted(prefix);
    if WellFormedNode(nodes[i]) {
      if NodeId(nodes[i]) in WellFormedIds(prefix) {
        var j :| 0 <= j < |prefix| && WellFormedNode(prefix[j]) && NodeId(prefix[j]) == NodeId(nodes[i]);
        assert prefix[j] == nodes[j];
      } else {
        forall j | 0 <= j < i && WellFormedNode(nodes[j])
          ensures NodeId(nodes[j]) != NodeId(nodes[i])
        {
          assert prefix[j] == nodes[j];
        }
      }
    }
  }

  /** Every node well-formed, ids pairwise distinct. */
  predicate CleanNodes(nodes: seq<Json>)
  {
    (forall i | 0 <= i < |nodes| :: WellFormedNode(nodes[i])) &&
    (forall i, j | 0 <= i < j < |nodes| :: NodeId(nodes[i]) != NodeId(nodes[j]))
  }

  lemma CleanNodesSnoc(nodes: seq<Json>)
    requires nodes != []
    ensures var n := |nodes| - 1;
            CleanNodes(nodes) <==>
            CleanNodes(nodes[..n]) && WellFormedNode(nodes[n]) && NodeId(nodes[n]) !in WellFormedIds(nodes[..n])
  {
    var n := |nodes| - 1;
    var prefix := nodes[..n];
    assert forall i | 0 <= i < n :: prefix[i] == nodes[i];
    if CleanNodes(prefix) && WellFormedNode(nodes[n]) && NodeId(nodes[n]) !in WellFormedIds(prefix) {
      forall i, j | 0 <= i < j < |nodes| ensures NodeId(nodes[i]) != NodeId(nodes[j]) {
        if j == n {
          assert NodeId(prefix[i]) in WellFormedIds(prefix);
        }
      }
    }
  }

  /** The node pass records no error iff every node is well-formed and no id repeats. */
  lemma {:induction false} NodePassClean(nodes: seq<Json>)
    ensures NodePass(nodes).errors == [] <==> CleanNodes(nodes)
  {
    if nodes != [] {
      var n := |nodes| - 1;
      NodePassClean(nodes[..n]);
      NodePassAccepted(nodes[..n]);
      CleanNodesSnoc(nodes);
    }
  }
}

/** Concrete runs of the node pass that pin down the order of the checks. */
module NodeScenarios {
  import opened Wrappers
  import opened JsonValue
  import opened Diagnostics
  import opened NodeRules

  /**
   * A node rejected for a non-string `type` does not reserve its id: a later
   * node with the same id is accepted, and no duplicate is reported.
   */
  lemma RejectedNodeReservesNoId()
    ensures var bad := JObject(map["id" := JString("a"), "name" := JString("A"), "type" := JNumber("1")]);
            var good := JObject(map["id" := JString("a"), "name" := JString("A")]);
            var p := NodePass([bad, good]);
            p.accepted == {"a"} && p.valid == 1 && p.invalid == 1 && p.errors == [NodeTypeNotString(0)]
  {
    var bad := JObject(map["id" := JString("a"), "name" := JString("A"), "type" := JNumber("1")]);
    var good := JObject(map["id" := JString("a"), "name" := JString("A")]);
    var empty := NodeTally({}, [], [], 0, 0);
    var t1 := NodeTally({}, [NodeTypeNotString(0)], [], 0, 1);
    NodesFromExtend(empty, [bad, good], 0);
    NodesFromExtend(empty, [bad, good], 1);
    assert [bad, good][..0] == [] && [bad, good][..2] == [bad, good];
    BadTypeStep();
    GoodStep();
  }

  /** The first node of `RejectedNodeReservesNoId`: rejected for its `type`, with no warning. */
  lemma BadTypeStep()
    ensures var bad := JObject(map["id" := JString("a"), "name" := JString("A"), "type" := JNumber("1")]);
            NodeStep(NodeTally({}, [], [], 0, 0), 0, bad) == NodeTally({}, [NodeTypeNotString(0)], [], 0, 1)
  {
    var bad := JObject(map["id" := JString("a"), "name" := JString("A"), "type" := JNumber("1")]);
    assert NodeError(0, bad, {}) == Some(NodeTypeNotString(0));
    assert NodeWarnings(bad, {}) == [];
  }

  /** The second node of `RejectedNodeReservesNoId`: its id is still free, so it is accepted. */
  lemma GoodStep()
    ensures var good := JObject(map["id" := JString("a"), "name" := JString("A")]);
            NodeStep(NodeTally({}, [NodeTypeNotString(0)], [], 0, 1), 1, good) ==
            NodeTally({"a"}, [NodeTypeNotString(0)], [], 1, 1)
  {
    var good := JObject(map["id" := JString("a"), "name" := JString("A")]);
    assert WellFormedNode(good) && NodeId(good) == "a";
    assert NodeError(1, good, {}) == None;
    assert NodeWarnings(good, {}) == [];
  }

  /** A repeated id is rejected even when the repeat is otherwise malformed in its optional fields. */
  lemma DuplicateCheckedBeforeOptionalFields()
    ensures var first := JObject(map["id" := JString("a"), "name" := JString("A")]);
            var second := JObject(map["id" := JString("a"), "name" := JString("B"), "description" := JNull]);
            NodePass([first, second]).errors == [DuplicateNodeId("a")]
  {
    var first := JObject(map["id" := JString("a"), "name" := JString("A")]);
    var second := JObject(map["id" := JString("a"), "name" := JString("B"), "description" := JNull]);
    var empty := NodeTally({}, [], [], 0, 0);
    NodesFromExtend(empty, [first, second], 0);
    NodesFromExtend(empty, [first, second], 1);
    assert [first, second][..0] == [] && [first, second][..2] == [first, second];
    assert WellFormedNode(first) && NodeId(first) == "a";
    assert NodeError(0, first, {}) == None;
    assert HasIdAndName(second) && second.fields["id"].str == "a";
    assert NodeError(1, second, {"a"}) == Some(DuplicateNodeId("a"));
  }
}
