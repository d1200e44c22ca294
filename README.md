# Knowledge-graph import validator, in Dafny

This project models `KGDataValidator` from `validate_kg_data.py`. It is the checker that runs over a knowledge-graph
fragment before that fragment is imported. A fragment is a decoded JSON document with a `nodes` array of entity records
and a `links` array of relationship records. The validator keeps three pieces of state:

- an error list;
- a warning list;
- `total`/`valid`/`invalid` counters for nodes and for links.

`validate_data` first checks the document's shape. `validate_nodes` then checks every node: it must be an object with
string `id` and `name`, a fresh `id`, and a string `type`/`description` when present. It returns the set of accepted
ids. `validate_links` checks every link: it must be an object with string `source`, `target` and `type`, both endpoints
among the accepted ids, and a string `description` when present. Over-long ids (over 100 characters) and names (over
200 characters), self-loops and repeated `(source, target, type)` triples are only warned about.

## Structure

- `json.dfy` (`JsonValue`): the decoded JSON value. The `isinstance` tests become constructor tests.
- `diagnostics.dfy` (`Diagnostics`): errors and warnings as datatypes (kind plus the index or value the message
  names), and the counters.
- `node_rules.dfy` (`NodeRules`, `NodeScenarios`): the node checks as functions. `NodeError` gives the error for one
  node and `NodeWarnings` its warnings. `NodeStep` is one loop iteration and `NodePass` the whole loop. Lemmas cover
  conservation, the accepted-id set and the "no error" characterisation. Concrete runs pin down the order of the checks.
- `link_rules.dfy` (`LinkRules`, `LinkScenarios`): the same for links. This includes `link_set`, the set of triples
  seen so far.
- `validator.dfy` (`Validation`): the class `KGDataValidator`, whose fields `errors`, `warnings`, `nodeStats` and
  `linkStats` its methods update in place. The loops of `validate_nodes` and `validate_links` are `for` loops. Their
  bodies (`ValidateNode`, `ValidateLink`) keep the source's chain of checks, with `return` where the source has
  `continue`. `ValidateLink` hands the checks after the endpoint lookups to `CheckKnownLink`. Each method is proved to leave the state that the pass functions describe. `AfterValidate` is the whole
  call as a function, `Acceptable` says independently which fragments pass, and the lemmas relate the two.

Facts the model reproduces exactly:

- A node joins the accepted set only after every check. A node rejected for a non-string `type` or `description` does
  not reserve its id. The accepted set is exactly the set of ids of well-formed nodes.
- The duplicate-id check runs before the optional-field checks. A repeated id is reported as a duplicate even when the
  repeat's `type` or `description` is also wrong.
- A link's triple joins `link_set` before its `description` is checked. A link rejected only for its description still
  makes a later identical triple a duplicate.
- `total` is assigned, while `valid` and `invalid` are added to. The conservation laws `valid + invalid == total` are
  therefore proved for a freshly constructed validator called once (`FreshRunConservation`). A second call on the same
  object keeps the old valid/invalid counts but resets the totals.
- `validate_data` returns whether the error list is empty, including errors from earlier calls.

## Model

| member | source | states |
|---|---|---|
| `NodeRules.NodeError` | validate_kg_data.py:78-132 | a node gets no error iff it is an object with string `id` and `name`, string-or-absent `type`/`description`, and an id not yet accepted; a duplicate-id error is raised exactly when the id and name are strings and the id was already accepted; every other error names the node's index |
| `NodeRules.NodeWarnings` | validate_kg_data.py:115-121 | warnings are issued only for a node that passed the duplicate check; each is an id longer than 100 or a name longer than 200; each such over-long field is warned about; there is exactly one warning per over-long field and none otherwise |
| `NodeRules.NodeWarningsOwn` | validate_kg_data.py:115-121 | every warning issued for a node names that node's own id or name |
| `NodeRules.NodesFromShift` | validate_kg_data.py:74-135 | a pass started on earlier errors, warnings and counts only appends to them, and the accepted ids start empty |
| `NodeRules.NodePassCounts` | validate_kg_data.py:75-135 | every node is counted once (valid + invalid = number of nodes); each invalid node appends exactly one node error; the accepted set has exactly `valid` elements, so no id is accepted twice |
| `NodeRules.NodePassAccepted` | validate_kg_data.py:109-134 | the returned id set is exactly the set of ids of well-formed nodes |
| `NodeRules.FirstOccurrenceAccepted` | validate_kg_data.py:109-135 | node i is valid iff it is well-formed and no earlier well-formed node has its id; over-long fields play no part |
| `NodeRules.NodePassClean` | validate_kg_data.py:77-135 | the node pass records no error iff every node is well-formed and the ids are pairwise distinct |
| `NodeScenarios.RejectedNodeReservesNoId` | validate_kg_data.py:123-134 | a node rejected for a non-string `type` leaves its id free; a later node with that id is accepted |
| `NodeScenarios.DuplicateCheckedBeforeOptionalFields` | validate_kg_data.py:109-132 | a repeated id is reported as a duplicate even when the repeat's description is not a string |
| `LinkRules.LinkError` | validate_kg_data.py:145-212 | a link gets no error iff it is an object with string `source`/`target`/`type`, both endpoints among the node ids, and a string-or-absent `description`; the error never depends on earlier links; unknown-endpoint errors name an id that is not a node id; a link with known endpoints can only fail on its description |
| `LinkRules.LinkErrorEndpoint` | validate_kg_data.py:187-195 | an unknown endpoint is reported with the link's own id: the unknown-source error iff the source is not a node id, the unknown-target error iff the source is known and the target is not |
| `LinkRules.LinkWarnings` | validate_kg_data.py:197-206 | only links with known endpoints get warnings; a self-loop warning iff source equals target; a duplicate warning iff the triple was seen before; the number of warnings is exactly one per condition that holds, so a link that is neither a self-loop nor a repeat gets none |
| `LinkRules.LinkWarningsOwn` | validate_kg_data.py:197-206 | every warning issued for a link is that link's own self-loop or its own repeated triple |
| `LinkRules.LinksFromShift` | validate_kg_data.py:141-214 | a pass started on earlier errors, warnings and counts only appends to them, and `link_set` starts empty |
| `LinkRules.LinkPassCounts` | validate_kg_data.py:141-214 | every link is counted once (valid + invalid = number of links); each invalid link appends exactly one link error |
| `LinkRules.LinkPassSeen` | validate_kg_data.py:201-206 | `link_set` ends as exactly the triples of the links with known endpoints, including links then rejected for their description |
| `LinkRules.DuplicateWarningIffEarlierTriple` | validate_kg_data.py:201-206 | link i is reported as a duplicate iff an earlier link with known endpoints, valid or not, has the same triple |
| `LinkRules.LinkPassClean` | validate_kg_data.py:144-214 | the link pass records no error iff every link is well-formed against the node ids; self-loops and repeated triples do not matter |
| `LinkScenarios.RejectedLinkSeedsDuplicates` | validate_kg_data.py:201-212 | a link rejected only for its description makes the next identical triple a valid link with a duplicate warning |
| `LinkScenarios.SelfLoopOnlyWarns` | validate_kg_data.py:197-199 | a self-loop between known nodes is valid, with one warning and no error |
| `Validation.Structure` | validate_kg_data.py:51-61 | the document passes the structural checks iff it is an object whose `nodes` and `links` are both arrays; a non-object gives the not-an-object error; each failure is one of the three structural errors |
| `Validation.FreshRunConservation` | validate_kg_data.py:17-23 | on a fresh validator after one `validate_data`: valid + invalid = total for nodes and for links; the totals are the array lengths; there is one error per invalid record plus one for a malformed document; a structural failure leaves only that one error and untouched counters |
| `Validation.FreshRunAcceptsIff` | validate_kg_data.py:48-70 | on a fresh validator, `validate_data` ends with no error iff the fragment is acceptable: structurally sound, nodes well-formed with distinct ids, and every link well-formed against those ids |
| `Validation.KGDataValidator.constructor` | validate_kg_data.py:17-23 | a new validator has empty error and warning lists and zero counters |
| `Validation.KGDataValidator.ValidateData` | validate_kg_data.py:48-70 | the new state is `AfterValidate` of the old state; the result is true iff the error list is empty; a structural failure appends exactly its one error and leaves warnings and counters unchanged |
| `Validation.KGDataValidator.ValidateNodes` | validate_kg_data.py:72-137 | returns the node pass's accepted ids; appends its errors and warnings; sets the node total to the number of nodes and adds its valid/invalid counts; link counters unchanged |
| `Validation.KGDataValidator.ValidateNode` | validate_kg_data.py:77-135 | one loop iteration moves the validator's node view by exactly one `NodeStep` |
| `Validation.KGDataValidator.ValidateLinks` | validate_kg_data.py:139-214 | appends the link pass's errors and warnings; sets the link total to the number of links and adds its valid/invalid counts; node counters unchanged |
| `Validation.KGDataValidator.ValidateLink` | validate_kg_data.py:144-214 | one loop iteration moves the validator's link view, with `link_set`, by exactly one `LinkStep` |
| `Validation.KGDataValidator.CheckKnownLink` | validate_kg_data.py:197-214 | for a link with known endpoints, the self-loop and duplicate warnings, the triple entering `link_set` before the description check, and the verdict move the link view by exactly one `LinkStep` |
| `Validation.KGDataValidator.ReportOutcome` | validate_kg_data.py:246-254 | the report's outcome is false iff an error was recorded; warnings alone still pass |
| `Validation.CheckDecoded` | validate_kg_data.py:265-276 | for an already-decoded document, the exit status is 0 or 1, and 0 iff the fragment is acceptable; the reported counters are conserved |

## Left out

- `validate_file` and the file-reading part of `main` (validate_kg_data.py:25-46, 257-264): file existence, reading,
  JSON decoding and `sys.argv`. The model starts from an already-decoded JSON value. `CheckDecoded` models only the
  exit decision.
- The console output of `print_report` and `main`. Only the boolean outcome of `print_report` is modelled.
- The message texts. Each error and warning is a datatype value carrying what its message interpolates: the index, an
  id, a name, or a triple.
- JSON numbers are kept as their literal text. The validator only asks whether a value is a string. Floating point is
  not modelled.
- Objects are maps from keys to values, as `json.load` produces them. Repeated keys in the source text are not
  modelled; the decoder keeps the last one.
- String lengths count characters. Python's `len` on `str` counts code points; strings holding lone surrogates
  (which a `\ud800` escape decodes to) are not represented.
- The bulk import/merge engine that the validator prepares data for (routed at
  backend/apps/kg_visualize/urls.py:22) is not part of this model: its implementation is not part of the source
  modelled here.
- `test_import_strategies.py` is an HTTP client for that engine. The Django views, models, settings and URL
  configuration are thin database and routing wrappers.
