/**
 * The link half of the validator, stated as functions: what `validate_links`
 * decides about one link given the accepted node ids, which warnings it issues
 * given the `(source, target, type)` triples seen so far, and what a whole pass
 * over the `links` array accumulates. KGDataValidator.ValidateLinks is proved
 * to compute exactly this.
 */
module LinkRules {
  import opened Wrappers
  import opened JsonValue
  import opened Diagnostics

  /** The element of `link_set`: `(source, target, rel_type)`. */
  datatype LinkKey = LinkKey(source: string, target: string, relType: string)

  /** An object whose `source`, `target` and `type` are all strings. */
  predicate StringFields(link: Json)
  {
    link.JObject? &&
    HasString(link.fields, "source") && HasString(link.fields, "target") && HasString(link.fields, "type")
  }

  function KeyOf(link: Json): LinkKey
    requires StringFields(link)
  {
    LinkKey(link.fields["source"].str, link.fields["target"].str, link.fields["type"].str)
  }

  /** Both endpoints are accepted node ids: the link reaches the self-loop and duplicate checks. */
  predicate KnownEndpoints(link: Json, nodeIds: set<string>)
  {
    StringFields(link) && KeyOf(link).source in nodeIds && KeyOf(link).target in nodeIds
  }

  /** A link that `validate_links` counts as valid. */
  predicate WellFormedLink(link: Json, nodeIds: set<string>)
  {
    KnownEndpoints(link, nodeIds) && OptionalString(link.fields, "description")
  }

  /**
   * The error recorded for link `i`, or None when the link is valid. It does
   * not depend on the triples seen before: a self-loop or a repeated triple
   * never makes a link invalid.
   */
  function LinkError(i: nat, link: Json, nodeIds: set<string>): (e: Option<Error>)
    ensures e == None <==> WellFormedLink(link, nodeIds)
    ensures e.Some? ==> IsLinkError(e.value) && e.value.index == i
    ensures e.Some? && e.value.UnknownSource? ==> StringFields(link) && e.value.source !in nodeIds
    ensures e.Some? && e.value.UnknownTarget? ==> StringFields(link) && e.value.target !in nodeIds
    ensures KnownEndpoints(link, nodeIds) && e.Some? ==> e.value == LinkDescriptionNotString(i)
  {
    if !link.JObject? then Some(LinkNotObject(i))
    else if "source" !in link.fields then Some(LinkMissingSource(i))
    else if "target" !in link.fields then Some(LinkMissingTarget(i))
    else if "type" !in link.fields then Some(LinkMissingType(i))
    else if !link.fields["source"].JString? then Some(LinkSourceNotString(i))
    else if !link.fields["target"].JString? then Some(LinkTargetNotString(i))
    else if !link.fields["type"].JString? then Some(LinkTypeNotString(i))
    else if link.fields["source"].str !in nodeIds then Some(UnknownSource(i, link.fields["source"].str))
    else if link.fields["target"].str !in nodeIds then Some(UnknownTarget(i, link.fields["target"].str))
    else if "description" in link.fields && !link.fields["description"].JString? then
      Some(LinkDescriptionNotString(i))
    else None
  }

  /**
   * The endpoint errors name the link's own endpoints: an unknown `source` is
   * reported first, and an unknown `target` only once the source is known.
   */
  lemma LinkErrorEndpoint(i: nat, link: Json, nodeIds: set<string>)
    requires StringFields(link)
    ensures LinkError(i, link, nodeIds) == Some(UnknownSource(i, KeyOf(link).source)) <==>
              KeyOf(link).source !in nodeIds
    ensures LinkError(i, link, nodeIds) == Some(UnknownTarget(i, KeyOf(link).target)) <==>
              KeyOf(link).source in nodeIds && KeyOf(link).target !in nodeIds
    ensures LinkError(i, link, nodeIds).Some? && LinkError(i, link, nodeIds).value.UnknownSource? ==>
              KeyOf(link).source !in nodeIds
    ensures LinkError(i, link, nodeIds).Some? && LinkError(i, link, nodeIds).value.UnknownTarget? ==>
              KeyOf(link).source in nodeIds && KeyOf(link).target !in nodeIds
  {
  }

  /**
   * The warnings issued for link `i`, given the triples `seen` before it: a
   * self-loop, and a triple already seen. Only links with known endpoints get
   * this far.
   */
  function LinkWarnings(i: nat, link: Json, nodeIds: set<string>, seen: set<LinkKey>): (ws: seq<Warning>)
    ensures !KnownEndpoints(link, nodeIds) ==> ws == []
    ensures KnownEndpoints(link, nodeIds) ==>
              (SelfLoop(i, KeyOf(link).source) in ws <==> KeyOf(link).source == KeyOf(link).target)
    ensures KnownEndpoints(link, nodeIds) ==>
              (DuplicateLink(KeyOf(link).source, KeyOf(link).relType, KeyOf(link).target) in ws <==> KeyOf(link) in seen)
    ensures KnownEndpoints(link, nodeIds) ==>
              |ws| == (if KeyOf(link).source == KeyOf(link).target then 1 else 0) + (if KeyOf(link) in seen then 1 else 0)
  {
    if !KnownEndpoints(link, nodeIds) then []
    else
      var key := KeyOf(link);
      (if key.source == key.target then [SelfLoop(i, key.source)] else []) +
      (if key in seen then [DuplicateLink(key.source, key.relType, key.target)] else [])
  }

  /** Every warning issued for a link is its own self-loop or its own repeated triple. */
  lemma LinkWarningsOwn(i: nat, link: Json, nodeIds: set<string>, seen: set<LinkKey>)
    requires KnownEndpoints(link, nodeIds)
    ensures forall w | w in LinkWarnings(i, link, nodeIds, seen) ::
              w == SelfLoop(i, KeyOf(link).source) ||
              w == DuplicateLink(KeyOf(link).source, KeyOf(link).relType, KeyOf(link).target)
  {
  }

  /** What a pass over some links accumulates: `link_set`, the errors and warnings it appends, and the counts. */
  datatype LinkTally = LinkTally(seen: set<LinkKey>, errors: seq<Error>, warnings: seq<Warning>, valid: nat, invalid: nat)

  /**
   * One iteration of the loop of `validate_links`. A link's triple joins `seen`
   * as soon as its endpoints are known, before its `description` is checked.
   */
  function LinkStep(t: LinkTally, i: nat, link: Json, nodeIds: set<string>): LinkTally
  {
    var e := LinkError(i, link, nodeIds);
    LinkTally(if KnownEndpoints(link, nodeIds) then t.seen + {KeyOf(link)} else t.seen,
              t.errors + ErrorList(e),
              t.warnings + LinkWarnings(i, link, nodeIds, t.seen),
              if e == None then t.valid + 1 else t.valid,
              if e == None then t.invalid else t.invalid + 1)
  }

  /** The loop of `validate_links` over `links`, in order, starting from tally `start`. */
  function LinksFrom(start: LinkTally, links: seq<Json>, nodeIds: set<string>): LinkTally
  {
    if links == [] then start
    else LinkStep(LinksFrom(start, links[..|links| - 1], nodeIds), |links| - 1, links[|links| - 1], nodeIds)
  }

  /** What one pass over `links` accumulates on its own, from an empty triple set. */
  function LinkPass(links: seq<Json>, nodeIds: set<string>): LinkTally
  {
    LinksFrom(LinkTally({}, [], [], 0, 0), links, nodeIds)
  }

  lemma LinksFromExtend(start: LinkTally, links: seq<Json>, nodeIds: set<string>, i: nat)
    requires i < |links|
    ensures LinksFrom(start, links[..i + 1], nodeIds) == LinkStep(LinksFrom(start, links[..i], nodeIds), i, links[i], nodeIds)
  {
    assert links[..i + 1][..i] == links[..i];
  }

  /** A tally `t` placed after earlier errors, warnings and counts. */
  function LinkShifted(t: LinkTally, errors: seq<Error>, warnings: seq<Warning>, valid: nat, invalid: nat): LinkTally
  {
    LinkTally(t.seen, errors + t.errors, warnings + t.warnings, valid + t.valid, invalid + t.invalid)
  }

  lemma LinkStepShifted(t: LinkTally, errors: seq<Error>, warnings: seq<Warning>, valid: nat, invalid: nat,
                        i: nat, link: Json, nodeIds: set<string>)
    ensures LinkStep(LinkShifted(t, errors, warnings, valid, invalid), i, link, nodeIds) ==
            LinkShifted(LinkStep(t, i, link, nodeIds), errors, warnings, valid, invalid)
  {
    var e := LinkError(i, link, nodeIds);
    assert errors + t.errors + ErrorList(e) == errors + (t.errors + ErrorList(e));
    assert warnings + t.warnings + LinkWarnings(i, link, nodeIds, t.seen) ==
           warnings + (t.warnings + LinkWarnings(i, link, nodeIds, t.seen));
  }

  /** A pass that starts from earlier errors, warnings and counts only appends to them. */
  lemma {:induction false} LinksFromShift(errors: seq<Error>, warnings: seq<Warning>, valid: nat, invalid: nat,
                                          links: seq<Json>, nodeIds: set<string>)
    ensures LinksFrom(LinkTally({}, errors, warnings, valid, invalid), links, nodeIds) ==
            LinkShifted(LinkPass(links, nodeIds), errors, warnings, valid, invalid)
  {
    if links != [] {
      var n := |links| - 1;
      LinksFromShift(errors, warnings, valid, invalid, links[..n], nodeIds);
      LinkStepShifted(LinkPass(links[..n], nodeIds), errors, warnings, valid, invalid, n, links[n], nodeIds);
    }
  }

  /** Conservation: every link is counted once; each invalid link appends exactly one link error. */
  lemma {:induction false} LinkPassCounts(links: seq<Json>, nodeIds: set<string>)
    ensures LinkPass(links, nodeIds).valid + LinkPass(links, nodeIds).invalid == |links|
    ensures |LinkPass(links, nodeIds).errors| == LinkPass(links, nodeIds).invalid
    ensures forall e | e in LinkPass(links, nodeIds).errors :: IsLinkError(e)
  {
    if links != [] {
      LinkPassCounts(links[..|links| - 1], nodeIds);
    }
  }

  /** The triples of all links with known endpoints, whether or not their description is a string. */
  function KnownKeys(links: seq<Json>, nodeIds: set<string>): set<LinkKey>
  {
    set i | 0 <= i < |links| && KnownEndpoints(links[i], nodeIds) :: KeyOf(links[i])
  }

  lemma KnownKeysSnoc(links: seq<Json>, nodeIds: set<string>)
    requires links != []
    ensures var n := |links| - 1;
            KnownKeys(links, nodeIds) ==
            KnownKeys(links[..n], nodeIds) + (if KnownEndpoints(links[n], nodeIds) then {KeyOf(links[n])} else {})
  {
    var n := |links| - 1;
    var prefix := links[..n];
    assert forall i | 0 <= i < n :: prefix[i] == links[i];
    forall k | k in KnownKeys(links, nodeIds)
      ensures k in KnownKeys(prefix, nodeIds) + (if KnownEndpoints(links[n], nodeIds) then {KeyOf(links[n])} else {})
    {
      var i :| 0 <= i < |links| && KnownEndpoints(links[i], nodeIds) && KeyOf(links[i]) == k;
      if i < n {
        assert KnownEndpoints(prefix[i], nodeIds) && KeyOf(prefix[i]) == k;
      }
    }
  }

  /**
   * `link_set` after the pass holds exactly the triples of the links whose
   * endpoints are known, including links then rejected for their description.
   */
  lemma {:induction false} LinkPassSeen(links: seq<Json>, nodeIds: set<string>)
    ensures LinkPass(links, nodeIds).seen == KnownKeys(links, nodeIds)
  {
    if links != [] {
      LinkPassSeen(links[..|links| - 1], nodeIds);
      KnownKeysSnoc(links, nodeIds);
    }
  }

  /**
   * Link `i` is reported as a duplicate iff its endpoints are known and an
   * earlier link with known endpoints, valid or not, has the same triple.
   */
  lemma DuplicateWarningIffEarlierTriple(links: seq<Json>, nodeIds: set<string>, i: nat)
    requires i < |links|
    requires KnownEndpoints(links[i], nodeIds)
    ensures var k := KeyOf(links[i]);
            DuplicateLink(k.source, k.relType, k.target) in LinkWarnings(i, links[i], nodeIds, LinkPass(links[..i], nodeIds).seen) <==>
            exists j | 0 <= j < i :: KnownEndpoints(links[j], nodeIds) && KeyOf(links[j]) == k
  {
    var prefix := links[..i];
    LinkPassSeen(prefix, nodeIds);
    assert forall j | 0 <= j < i :: prefix[j] == links[j];
  }

  /** One link step leaves the error list empty iff it was empty and the link is well-formed. */
  lemma LinkStepClean(t: LinkTally, i: nat, link: Json, nodeIds: set<string>)
    ensures LinkStep(t, i, link, nodeIds).errors == [] <==> t.errors == [] && WellFormedLink(link, nodeIds)
  {
  }

  /** The link pass records no error iff every link is well-formed against the node ids. */
  lemma {:induction false} LinkPassClean(links: seq<Json>, nodeIds: set<string>)
    ensures LinkPass(links, nodeIds).errors == [] <==> forall i | 0 <= i < |links| :: WellFormedLink(links[i], nodeIds)
  {
    if links != [] {
      var n := |links| - 1;
      LinkPassClean(links[..n], nodeIds);
      LinkStepClean(LinkPass(links[..n], nodeIds), n, links[n], nodeIds);
      assert forall i | 0 <= i < n :: links[..n][i] == links[i];
    }
  }
}

/** Concrete runs of the link pass that pin down the order of the checks. */
module LinkScenarios {
  import opened Wrappers
  import opened JsonValue
  import opened Diagnostics
  import opened LinkRules

  function Link(source: string, target: string, relType: string): Json
  {
    JObject(map["source" := JString(source), "target" := JString(target), "type" := JString(relType)])
  }

  /** The first link of `RejectedLinkSeedsDuplicates`: its triple is recorded, then it fails on its description. */
  lemma DescriptionRejectedStep()
    ensures var bad := JObject(Link("a", "b", "r").fields["description" := JBool(true)]);
            LinkStep(LinkTally({}, [], [], 0, 0), 0, bad, {"a", "b"}) ==
            LinkTally({LinkKey("a", "b", "r")}, [LinkDescriptionNotString(0)], [], 0, 1)
  {
    var bad := JObject(Link("a", "b", "r").fields["description" := JBool(true)]);
    var ids := {"a", "b"};
    assert KnownEndpoints(bad, ids) && KeyOf(bad) == LinkKey("a", "b", "r");
    assert LinkError(0, bad, ids) == Some(LinkDescriptionNotString(0));
    assert LinkWarnings(0, bad, ids, {}) == [];
  }

  /** The second link of `RejectedLinkSeedsDuplicates`: valid, but its triple was already recorded. */
  lemma RepeatedTripleStep()
    ensures LinkStep(LinkTally({LinkKey("a", "b", "r")}, [LinkDescriptionNotString(0)], [], 0, 1),
                     1, Link("a", "b", "r"), {"a", "b"}) ==
            LinkTally({LinkKey("a", "b", "r")}, [LinkDescriptionNotString(0)], [DuplicateLink("a", "r", "b")], 1, 1)
  {
    var good := Link("a", "b", "r");
    var ids := {"a", "b"};
    assert KnownEndpoints(good, ids) && KeyOf(good) == LinkKey("a", "b", "r");
    assert LinkError(1, good, ids) == None;
    assert LinkWarnings(1, good, ids, {LinkKey("a", "b", "r")}) == [DuplicateLink("a", "r", "b")];
  }

  /**
   * A link rejected only for its `description` still enters `link_set`: the
   * next link with the same triple is valid but reported as a duplicate.
   */
  lemma RejectedLinkSeedsDuplicates()
    ensures var bad := JObject(Link("a", "b", "r").fields["description" := JBool(true)]);
            var p := LinkPass([bad, Link("a", "b", "r")], {"a", "b"});
            p.valid == 1 && p.invalid == 1 && p.errors == [LinkDescriptionNotString(0)] &&
            p.warnings == [DuplicateLink("a", "r", "b")]
  {
    var bad := JObject(Link("a", "b", "r").fields["description" := JBool(true)]);
    var links, ids := [bad, Link("a", "b", "r")], {"a", "b"};
    var empty := LinkTally({}, [], [], 0, 0);
    LinksFromExtend(empty, links, ids, 0);
    LinksFromExtend(empty, links, ids, 1);
    assert links[..0] == [] && links[..2] == links;
    DescriptionRejectedStep();
    RepeatedTripleStep();
  }

  /** A self-loop between known nodes is valid and only warned about. */
  lemma SelfLoopOnlyWarns()
    ensures var p := LinkPass([Link("a", "a", "r")], {"a"});
            p.valid == 1 && p.errors == [] && p.warnings == [SelfLoop(0, "a")]
  {
    assert [Link("a", "a", "r")][..0] == [];
  }
}
