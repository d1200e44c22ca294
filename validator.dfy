/**
 * KGDataValidator: the pre-import checker for a knowledge-graph fragment. It
 * keeps an error list, a warning list and node/link counters, which
 * `validate_data`, `validate_nodes` and `validate_links` update in place.
 */
module Validation {
  import opened Wrappers
  import opened JsonValue
  import opened Diagnostics
  import opened NodeRules
  import opened LinkRules

  /** The validator's whole state: `errors`, `warnings` and `stats`. */
  datatype Snapshot = Snapshot(errors: seq<Error>, warnings: seq<Warning>, nodeStats: Counters, linkStats: Counters)

  /** The state of a freshly constructed validator. */
  const Initial := Snapshot([], [], Zero, Zero)

  /**
   * The structural checks of `validate_data`: the `nodes` and `links` arrays,
   * or the one error the first failing check records.
   */
  function Structure(data: Json): (r: Result<(seq<Json>, seq<Json>), Error>)
    ensures r.Success? <==>
              data.JObject? && "nodes" in data.fields && "links" in data.fields &&
              data.fields["nodes"].JArray? && data.fields["links"].JArray?
    ensures r.Success? ==> r.value == (data.fields["nodes"].items, data.fields["links"].items)
    ensures !data.JObject? ==> r == Failure(DataNotObject)
    ensures r.Failure? ==> r.error in {DataNotObject, MissingNodesOrLinks, NodesOrLinksNotArrays}
  {
    if !data.JObject? then Failure(DataNotObject)
    else if "nodes" !in data.fields || "links" !in data.fields then Failure(MissingNodesOrLinks)
    else if !data.fields["nodes"].JArray? || !data.fields["links"].JArray? then Failure(NodesOrLinksNotArrays)
    else Success((data.fields["nodes"].items, data.fields["links"].items))
  }

  /**
   * The state after `validate_data(data)` from state `s`. The totals are
   * assigned, while the valid/invalid counts are added to.
   */
  function AfterValidate(s: Snapshot, data: Json): Snapshot
  {
    match Structure(data)
    case Failure(e) => s.(errors := s.errors + [e])
    case Success((nodes, links)) =>
      var np := NodePass(nodes);
      var lp := LinkPass(links, np.accepted);
      Snapshot(s.errors + np.errors + lp.errors,
               s.warnings + np.warnings + lp.warnings,
               Counters(|nodes|, s.nodeStats.valid + np.valid, s.nodeStats.invalid + np.invalid),
               Counters(|links|, s.linkStats.valid + lp.valid, s.linkStats.invalid + lp.invalid))
  }

  /**
   * A fragment safe to import: an object whose `nodes` and `links` are arrays,
   * every node well-formed with a distinct id, every link well-formed with both
   * endpoints among those ids.
   */
  predicate Acceptable(data: Json)
  {
    Structure(data).Success? &&
    var (nodes, links) := Structure(data).value;
    CleanNodes(nodes) &&
    forall j | 0 <= j < |links| :: WellFormedLink(links[j], WellFormedIds(nodes))
  }

  /**
   * On a fresh validator called once, every counter is conserved, the totals
   * are the array lengths, and there is one error per invalid record (plus the
   * one structural error when the document is malformed).
   */
  lemma FreshRunConservation(data: Json)
    ensures var r := AfterValidate(Initial, data);
            r.nodeStats.valid + r.nodeStats.invalid == r.nodeStats.total &&
            r.linkStats.valid + r.linkStats.invalid == r.linkStats.total &&
            |r.errors| == r.nodeStats.invalid + r.linkStats.invalid + (if Structure(data).Failure? then 1 else 0)
    ensures Structure(data).Success? ==>
              AfterValidate(Initial, data).nodeStats.total == |Structure(data).value.0| &&
              AfterValidate(Initial, data).linkStats.total == |Structure(data).value.1|
    ensures Structure(data).Failure? ==>
              AfterValidate(Initial, data) == Initial.(errors := [Structure(data).error])
  {
    if Structure(data).Success? {
      var (nodes, links) := Structure(data).value;
      NodePassCounts(nodes);
      LinkPassCounts(links, NodePass(nodes).accepted);
    }
  }

  /** On a fresh validator, `validate_data` ends with no error iff the fragment is acceptable. */
  lemma FreshRunAcceptsIff(data: Json)
    ensures AfterValidate(Initial, data).errors == [] <==> Acceptable(data)
  {
    if Structure(data).Success? {
      var (nodes, links) := Structure(data).value;
      NodePassClean(nodes);
      NodePassAccepted(nodes);
      LinkPassClean(links, NodePass(nodes).accepted);
    }
  }

  class KGDataValidator {
    var errors: seq<Error>
    var warnings: seq<Warning>
    var nodeStats: Counters
    var linkStats: Counters

    function State(): Snapshot
      reads this
    {
      Snapshot(errors, warnings, nodeStats, linkStats)
    }

    constructor ()
      ensures State() == Initial
    {
      errors := [];
      warnings := [];
      nodeStats := Zero;
      linkStats := Zero;
    }

    /**
     * Check the document's structure, then its nodes, then its links against
     * the accepted node ids. True iff the error list (including errors from
     * earlier calls) is empty.
     */
    method ValidateData(data: Json) returns (ok: bool)
      modifies this
      ensures State() == AfterValidate(old(State()), data)
      ensures ok <==> errors == []
      ensures Structure(data).Failure? ==>
                errors == old(errors) + [Structure(data).error] &&
                warnings == old(warnings) && nodeStats == old(nodeStats) && linkStats == old(linkStats)
    {
      if !data.JObject? {
        errors := errors + [DataNotObject];
        return false;
      }
      if "nodes" !in data.fields || "links" !in data.fields {
        errors := errors + [MissingNodesOrLinks];
        return false;
      }
      if !data.fields["nodes"].JArray? || !data.fields["links"].JArray? {
        errors := errors + [NodesOrLinksNotArrays];
        return false;
      }
      var nodes, links := data.fields["nodes"].items, data.fields["links"].items;
      assert Structure(data) == Success((nodes, links));
      var nodeIds := ValidateNodes(nodes);
      ValidateLinks(links, nodeIds);
      ok := |errors| == 0;
    }

    /** The node-pass view of this validator, with `ids` as the accepted set. */
    function NodeView(ids: set<string>): NodeTally
      reads this
    {
      NodeTally(ids, errors, warnings, nodeStats.valid, nodeStats.invalid)
    }

    /** Check each node in order and return the set of accepted ids. */
    method ValidateNodes(nodes: seq<Json>) returns (nodeIds: set<string>)
      modifies this
      ensures nodeIds == NodePass(nodes).accepted
      ensures errors == old(errors) + NodePass(nodes).errors
      ensures warnings == old(warnings) + NodePass(nodes).warnings
      ensures nodeStats == Counters(|nodes|, old(nodeStats.valid) + NodePass(nodes).valid,
                                    old(nodeStats.invalid) + NodePass(nodes).invalid)
      ensures linkStats == old(linkStats)
    {
      nodeIds := {};
      nodeStats := nodeStats.(total := |nodes|);
      ghost var start := NodeView(nodeIds);
      for i := 0 to |nodes|
        invariant NodeView(nodeIds) == NodesFrom(start, nodes[..i])
        invariant nodeStats.total == |nodes|
        invariant linkStats == old(linkStats)
      {
        NodesFromExtend(start, nodes, i);
        nodeIds := ValidateNode(i, nodes[i], nodeIds);
      }
      assert nodes[..|nodes|] == nodes;
      NodesFromShift(old(errors), old(warnings), old(nodeStats.valid), old(nodeStats.invalid), nodes);
    }

    /**
     * One iteration of the node loop: check node `i` against the ids accepted
     * so far, record its error or count it valid, and return the grown id set.
     */
    method ValidateNode(i: nat, node: Json, nodeIds: set<string>) returns (newIds: set<string>)
      modifies this
      ensures NodeView(newIds) == NodeStep(old(NodeView(nodeIds)), i, node)
      ensures nodeStats.total == old(nodeStats.total) && linkStats == old(linkStats)
    {
      newIds := nodeIds;
      if !node.JObject? {
        errors := errors + [NodeNotObject(i)];
        nodeStats := nodeStats.(invalid := nodeStats.invalid + 1);
        return;
      }
      if "id" !in node.fields {
        errors := errors + [NodeMissingId(i)];
        nodeStats := nodeStats.(invalid := nodeStats.invalid + 1);
        return;
      }
      if "name" !in node.fields {
        errors := errors + [NodeMissingName(i)];
        nodeStats := nodeStats.(invalid := nodeStats.invalid + 1);
        return;
      }
      var nodeId, nodeName := node.fields["id"], node.fields["name"];
      if !nodeId.JString? {
        errors := errors + [NodeIdNotString(i)];
        nodeStats := nodeStats.(invalid := nodeStats.invalid + 1);
        return;
      }
      if !nodeName.JString? {
        errors := errors + [NodeNameNotString(i)];
        nodeStats := nodeStats.(invalid := nodeStats.invalid + 1);
        return;
      }
      if nodeId.str in nodeIds {
        errors := errors + [DuplicateNodeId(nodeId.str)];
        nodeStats := nodeStats.(invalid := nodeStats.invalid + 1);
        return;
      }
      if |nodeId.str| > MaxIdLength {
        warnings := warnings + [NodeIdTooLong(nodeId.str)];
      }
      if |nodeName.str| > MaxNameLength {
        warnings := warnings + [NodeNameTooLong(nodeName.str)];
      }
      if "type" in node.fields && !node.fields["type"].JString? {
        errors := errors + [NodeTypeNotString(i)];
        nodeStats := nodeStats.(invalid := nodeStats.invalid + 1);
        return;
      }
      if "description" in node.fields && !node.fields["description"].JString? {
        errors := errors + [NodeDescriptionNotString(i)];
        nodeStats := nodeStats.(invalid := nodeStats.invalid + 1);
        return;
      }
      newIds := nodeIds + {nodeId.str};
      nodeStats := nodeStats.(valid := nodeStats.valid + 1);
    }

    /** The link-pass view of this validator, with `seen` as `link_set`. */
    function LinkView(seen: set<LinkKey>): LinkTally
      reads this
    {
      LinkTally(seen, errors, warnings, linkStats.valid, linkStats.invalid)
    }

    /** Check each link in order against the accepted node ids. */
    method ValidateLinks(links: seq<Json>, nodeIds: set<string>)
      modifies this
      ensures errors == old(errors) + LinkPass(links, nodeIds).errors
      ensures warnings == old(warnings) + LinkPass(links, nodeIds).warnings
      ensures linkStats == Counters(|links|, old(linkStats.valid) + LinkPass(links, nodeIds).valid,
                                    old(linkStats.invalid) + LinkPass(links, nodeIds).invalid)
      ensures nodeStats == old(nodeStats)
    {
      linkStats := linkStats.(total := |links|);
      var linkSet: set<LinkKey> := {};
      ghost var start := LinkView(linkSet);
      for i := 0 to |links|
        invariant LinkView(linkSet) == LinksFrom(start, links[..i], nodeIds)
        invariant linkStats.total == |links|
        invariant nodeStats == old(nodeStats)
      {
        LinksFromExtend(start, links, nodeIds, i);
        linkSet := ValidateLink(i, links[i], nodeIds, linkSet);
      }
      assert links[..|links|] == links;
      LinksFromShift(old(errors), old(warnings), old(linkStats.valid), old(linkStats.invalid), links, nodeIds);
    }

    /**
     * One iteration of the link loop: check link `i` against the node ids,
     * warn about a self-loop or a repeated triple, record its error or count it
     * valid, and return the grown triple set.
     */
    method ValidateLink(i: nat, link: Json, nodeIds: set<string>, linkSet: set<LinkKey>) returns (newSet: set<LinkKey>)
      modifies this
      ensures LinkView(newSet) == LinkStep(old(LinkView(linkSet)), i, link, nodeIds)
      ensures linkStats.total == old(linkStats.total) && nodeStats == old(nodeStats)
    {
      newSet := linkSet;
      if !link.JObject? {
        errors := errors + [LinkNotObject(i)];
        linkStats := linkStats.(invalid := linkStats.invalid + 1);
        return;
      }
      if "source" !in link.fields {
        errors := errors + [LinkMissingSource(i)];
        linkStats := linkStats.(invalid := linkStats.invalid + 1);
        return;
      }
      if "target" !in link.fields {
        errors := errors + [LinkMissingTarget(i)];
        linkStats := linkStats.(invalid := linkStats.invalid + 1);
        return;
      }
      if "type" !in link.fields {
        errors := errors + [LinkMissingType(i)];
        linkStats := linkStats.(invalid := linkStats.invalid + 1);
        return;
      }
      var source, target, relType := link.fields["source"], link.fields["target"], link.fields["type"];
      if !source.JString? {
        errors := errors + [LinkSourceNotString(i)];
        linkStats := linkStats.(invalid := linkStats.invalid + 1);
        return;
      }
      if !target.JString? {
        errors := errors + [LinkTargetNotString(i)];
        linkStats := linkStats.(invalid := linkStats.invalid + 1);
        return;
      }
      if !relType.JString? {
        errors := errors + [LinkTypeNotString(i)];
        linkStats := linkStats.(invalid := linkStats.invalid + 1);
        return;
      }
      if source.str !in nodeIds {
        errors := errors + [UnknownSource(i, source.str)];
        linkStats := linkStats.(invalid := linkStats.invalid + 1);
        return;
      }
      if target.str !in nodeIds {
        errors := errors + [UnknownTarget(i, target.str)];
        linkStats := linkStats.(invalid := linkStats.invalid + 1);
        return;
      }
      newSet := CheckKnownLink(i, link, nodeIds, linkSet);
    }

    /**
     * The rest of the loop body once both endpoints are known: the self-loop
     * and duplicate warnings, the triple entering `link_set` before the
     * `description` check, and the verdict.
     */
    method CheckKnownLink(i: nat, link: Json, nodeIds: set<string>, linkSet: set<LinkKey>) returns (newSet: set<LinkKey>)
      requires KnownEndpoints(link, nodeIds)
      modifies this
      ensures LinkView(newSet) == LinkStep(old(LinkView(linkSet)), i, link, nodeIds)
      ensures linkStats.total == old(linkStats.total) && nodeStats == old(nodeStats)
    {
      newSet := linkSet;
      var source, target, relType := link.fields["source"].str, link.fields["target"].str, link.fields["type"].str;
      if source == target {
        warnings := warnings + [SelfLoop(i, source)];
      }
      var linkKey := LinkKey(source, target, relType);
      if linkKey in linkSet {
        warnings := warnings + [DuplicateLink(source, relType, target)];
      } else {
        newSet := linkSet + {linkKey};
      }
      if "description" in link.fields && !link.fields["description"].JString? {
        errors := errors + [LinkDescriptionNotString(i)];
        linkStats := linkStats.(invalid := linkStats.invalid + 1);
        return;
      }
      linkStats := linkStats.(valid := linkStats.valid + 1);
    }

    /**
     * The outcome of `print_report`: failure iff any error was recorded;
     * warnings alone change only the printed summary, not the outcome.
     */
    method ReportOutcome() returns (passed: bool)
      ensures passed <==> errors == []
    {
      if |errors| > 0 {
        passed := false;
      } else {
        passed := true;
      }
    }
  }

  /**
   * The exit decision of `main` once the file has been read and decoded: a
   * fresh validator checks the document (the report it then prints does not
   * affect the decision); the exit status is 0 iff the fragment is acceptable,
   * and the reported counters are conserved.
   */
  method CheckDecoded(data: Json) returns (exitCode: int, report: Snapshot)
    ensures exitCode == 0 || exitCode == 1
    ensures exitCode == 0 <==> Acceptable(data)
    ensures report.nodeStats.valid + report.nodeStats.invalid == report.nodeStats.total
    ensures report.linkStats.valid + report.linkStats.invalid == report.linkStats.total
    ensures |report.errors| == report.nodeStats.invalid + report.linkStats.invalid + (if Structure(data).Failure? then 1 else 0)
  {
    var validator := new KGDataValidator();
    var ok := validator.ValidateData(data);
    report := validator.State();
    FreshRunConservation(data);
    FreshRunAcceptsIff(data);
    if ok {
      exitCode := if validator.errors != [] then 1 else 0;
    } else {
      exitCode := 1;
    }
  }
}
