/**
 * What the validator records: one error per rejected record (or per structural
 * failure of the document), warnings that never reject anything, and the
 * per-category counters of `self.stats`.
 */
module Diagnostics {
  import opened Wrappers

  /** The entries of `self.errors`, by kind, with the index or value the message names. */
  datatype Error =
    // the document as a whole
    | DataNotObject
    | MissingNodesOrLinks
    | NodesOrLinksNotArrays
    // node i
    | NodeNotObject(index: nat)
    | NodeMissingId(index: nat)
    | NodeMissingName(index: nat)
    | NodeIdNotString(index: nat)
    | NodeNameNotString(index: nat)
    | DuplicateNodeId(id: string)
    | NodeTypeNotString(index: nat)
    | NodeDescriptionNotString(index: nat)
    // link i
    | LinkNotObject(index: nat)
    | LinkMissingSource(index: nat)
    | LinkMissingTarget(index: nat)
    | LinkMissingType(index: nat)
    | LinkSourceNotString(index: nat)
    | LinkTargetNotString(index: nat)
    | LinkTypeNotString(index: nat)
    | UnknownSource(index: nat, source: string)
    | UnknownTarget(index: nat, target: string)
    | LinkDescriptionNotString(index: nat)

  /** The errors `validate_nodes` records; all but the duplicate-id one name the node's index. */
  predicate IsNodeError(e: Error)
  {
    e.NodeNotObject? || e.NodeMissingId? || e.NodeMissingName? || e.NodeIdNotString? ||
    e.NodeNameNotString? || e.DuplicateNodeId? || e.NodeTypeNotString? || e.NodeDescriptionNotString?
  }

  /** The errors `validate_links` records; every one names the link's index. */
  predicate IsLinkError(e: Error)
  {
    e.LinkNotObject? || e.LinkMissingSource? || e.LinkMissingTarget? || e.LinkMissingType? ||
    e.LinkSourceNotString? || e.LinkTargetNotString? || e.LinkTypeNotString? ||
    e.UnknownSource? || e.UnknownTarget? || e.LinkDescriptionNotString?
  }

  /** What one check appends to `self.errors`: its error, if any. */
  function ErrorList(e: Option<Error>): seq<Error>
  {
    if e.Some? then [e.value] else []
  }

  /** The entries of `self.warnings`. */
  datatype Warning =
    | NodeIdTooLong(id: string)
    | NodeNameTooLong(name: string)
    | SelfLoop(index: nat, node: string)
    | DuplicateLink(source: string, relType: string, target: string)

  /** One category of `self.stats`: `{"total", "valid", "invalid"}`. */
  datatype Counters = Counters(total: nat, valid: nat, invalid: nat)

  const Zero := Counters(0, 0, 0)
}
