# stash-qmt: a Dafny model of its decision logic

stash-qmt is a small desktop tool. It applies a predefined set of tags (a
*template*) to a scene record of a Stash server. The server has a GraphQL
API. Around the network calls, the YAML file and the Qt dialog, the tool
has five pieces of logic. This project models and proves them:

- **Tag lookup** (`get_tag_ids`, module `TagLookup`). Each template tag
  name is sent to the server's tag search, one at a time and in order. A
  response that reports exactly one match is taken whatever that match's
  name is. Otherwise the first record whose name is exactly equal
  (case-sensitive) is taken. If no record matches, the id stays empty and
  the integer conversion fails. That failure aborts the whole resolution.
  When two names resolve to the same id, the later name is the value.
- **Template classification** (the loop in `parse_yaml`, module
  `ConfigTemplates`). An id map is kept as is. A list of names is replaced
  by its resolved map. Any other shape is skipped. Only the kept and
  resolved templates are written back. A rerun on the rewritten file
  therefore makes no lookups and changes nothing.
- **Checklist** (`filter_out_ids` and the sort in `add_checkboxes`,
  module `Checklist`). The checklist holds the template's tags that the
  scene does not have yet, in descending name order. Names are compared
  the way Python compares strings, by code point (module `StringOrder`).
- **Layout cleanup** (`cleanup`, module `FormLayout`). The layout is
  walked from the bottom. The bottom widget is dropped if it is a label,
  and then every checkbox is dropped.
- **Submission** (`send_tags`, modules `Checklist` and `SceneForm`). The
  update sends the scene's tag ids followed by the ids of the ticked
  boxes. A success label is appended only when the server answers OK.

The dialog is the class `SceneForm.Form`. It holds the layout as a
sequence of widgets, the current checklist, and the tag ids of the scene
last fetched. `Form.Valid()` says that the layout is always the fixed
widgets plus one generation of checkboxes between "Get Scene" and
"Set tags", with some success labels at the bottom. The checklist never
repeats a tag and never offers one the scene already has.

Server replies are parameters:
- the tag search is a function `search` from the queried name to its response;
- a scene fetch is the sequence of tag ids in the reply;
- an update reply is the boolean `responseOk`.

The ticks the user sets on the checkboxes are the parameter `ticked`, the
set of tag ids whose boxes are ticked.

Rebuilding the checklist does not remove every earlier success message.
`cleanup` (stash-qmt.py:151-155) removes only the bottom label, and the
model follows the code. After two successful submissions in a row, the
next "Get Scene" leaves one success label.
`FormLayout.CleanupOfLayout` states this.

## Model

| member | source | states |
|---|---|---|
| `TagLookup.FirstExactMatch` | stash-qmt.py:74-78 | a result exists iff some record's name equals the query exactly; the result is the id of the first such record |
| `TagLookup.SelectTagId` | stash-qmt.py:60-79 | count 1 takes the first record whatever its name (and fails if the list is empty); any other count takes the first exact, case-sensitive match, or fails with `NoExactMatch` of the name when none matches (the failing `int("")`) |
| `TagLookup.Lookup` | stash-qmt.py:60-79 | one round trip for one name: the server's reply to a search for that name, then the selection above (a definition; its facts are the `SelectTagId` contract) |
| `TagLookup.ResolveNames` | stash-qmt.py:57-80 | the result of `get_tag_ids`: names are looked up in list order and each result is stored under its id, so a later name overwrites an earlier one; the first name that fails aborts with its error (a definition; the lemmas below state its properties) |
| `TagLookup.ResolveNamesOkIff` | stash-qmt.py:57-80 | resolution of a name list succeeds iff every name resolves on its own |
| `TagLookup.ResolveNamesFirstError` | stash-qmt.py:59-79 | a failed resolution reports the error of the first name, in list order, that does not resolve |
| `TagLookup.PrefixErrorPropagates` | stash-qmt.py:59-80 | once a prefix of the names fails, the whole resolution fails with that error |
| `TagLookup.ResolveNamesKeys` | stash-qmt.py:57-80 | the keys of the resolved map are exactly the ids the names resolve to |
| `TagLookup.ResolveNamesLaterWins` | stash-qmt.py:79 | when several names resolve to one id, the value at that id is the last of them |
| `TagLookup.ResolveNamesValues` | stash-qmt.py:79-80 | every value of the resolved map is one of the input names |
| `TagLookup.GetTagIds` | stash-qmt.py:54-80 | the loop returns the resolution of the names; it queries every name in order on success; on failure it queries names in order up to and including the first name whose lookup fails, every earlier one having resolved, and reports that name's error |
| `ConfigTemplates.TemplatesOf` | stash-qmt.py:37-45 | what the template loop leaves in `TEMPLATES`, entry by entry in file order, aborting at the first name list that does not resolve (a definition; `TemplatesOfClassifies` and `TemplatesOfOkIff` state its properties) |
| `ConfigTemplates.Classify` | stash-qmt.py:38-45 | one loop iteration: an id map is stored under the template name, a name list is stored as its resolved map or aborts with the lookup error, any other shape leaves the templates unchanged (a definition) |
| `ConfigTemplates.Lookups` | stash-qmt.py:40-41 | the names the loop queries are exactly the names of the name-list templates |
| `ConfigTemplates.ParseTemplates` | stash-qmt.py:37-45 | the loop yields the templates of the section, or the first lookup error; it queries the names of the name lists in file order, all of them on success; on failure a prefix of them that ends at the first name whose lookup fails, every earlier query having resolved, and reports that name's error |
| `ConfigTemplates.SectionErrorPropagates` | stash-qmt.py:41 | a lookup error in an early template aborts the whole loader with that error |
| `ConfigTemplates.LookupsMonotone` | stash-qmt.py:37-41 | the lookups of the first entries are a prefix of all lookups |
| `ConfigTemplates.TemplatesOfOkIff` | stash-qmt.py:37-45 | the loader succeeds iff every name-list template resolves |
| `ConfigTemplates.TemplatesOfClassifies` | stash-qmt.py:37-45 | an id map is stored unchanged; a name list is stored as its resolved map; any other shape is absent; nothing else is in the result |
| `ConfigTemplates.IdMapsOnly` | stash-qmt.py:38-39 | a section of id maps only makes no lookups, succeeds, and keeps every template name |
| `ConfigTemplates.Lists` | stash-qmt.py:47-51 | the rewritten file's `Templates` section: every written template appears once, as an id map, in any order (a definition) |
| `ConfigTemplates.RerunIsIdentity` | stash-qmt.py:37-51 | rerunning on a file that lists the written templates, in any order, makes no lookups and yields the same templates (idempotence) |
| `StringOrder.Less` | stash-qmt.py:121-122 | the order `sorted` uses on tag names: Python's string comparison, by code point, a proper prefix first (a definition; the four lemmas below state it is a strict total order) |
| `StringOrder.LessIrreflexive` | stash-qmt.py:121-122 | no name sorts before itself |
| `StringOrder.LessAsymmetric` | stash-qmt.py:121-122 | two names are never each before the other |
| `StringOrder.LessTransitive` | stash-qmt.py:121-122 | the name order is transitive |
| `StringOrder.LessTotal` | stash-qmt.py:121-122 | any two names are equal or ordered |
| `Checklist.SceneTagKeys` | stash-qmt.py:142-143 | the scene's tag dictionary has each id of the reply exactly once, and no other id |
| `Checklist.FilterOutIds` | stash-qmt.py:167-172 | the result holds exactly the template ids that are not scene tag ids, each with its template name (a sub-map of the template) |
| `Checklist.InsertKeepsSorted` | stash-qmt.py:121-122 | inserting a tag after every name not less than its own keeps the order descending |
| `Checklist.InsertByName` | stash-qmt.py:121-122 | one insertion step puts the tag into a descending sequence and keeps it descending |
| `Checklist.InsertionProgresses` | stash-qmt.py:121-122 | inserting a not-yet-sorted entry keeps every sorted entry once and removes it from those left |
| `Checklist.SortByNameDesc` | stash-qmt.py:121-122 | the sorted checklist holds every filtered entry exactly once, in descending name order |
| `Checklist.TickedIds` | stash-qmt.py:177-179 | the ids the loop of `send_tags` appends: the ids of the ticked boxes, in checklist order (a definition) |
| `Checklist.TickedIdsContents` | stash-qmt.py:177-179 | the appended ids are exactly the ids of ticked boxes, none twice |
| `Checklist.SentIds` | stash-qmt.py:176-179 | the sent list is the scene's ids plus the ticked boxes' ids, and no id twice |
| `FormLayout.Head` | stash-qmt.py:97-101 | five widgets sit above the checklist, so index 5 is right below "Get Scene" |
| `FormLayout.Tail` | stash-qmt.py:103-104 | the widgets below the checklist: "Set tags", then the stretch (a definition) |
| `FormLayout.Successes` | stash-qmt.py:190-191 | the success labels each OK submission appends at the bottom (a definition) |
| `FormLayout.BoxRow` | stash-qmt.py:124-128 | the checkbox widgets of a checklist; each new box goes to index 5, so the box created last is shown first (a definition; `BoxRowAt` states the order) |
| `FormLayout.Layout` | stash-qmt.py:97-104 | a form layout: the head widgets, the checkbox row, the tail widgets, then the success labels (a definition; `OneGeneration` and `ShownAscending` state its shape) |
| `FormLayout.InsertBoxWidget` | stash-qmt.py:127-128 | inserting a new box's widget at index 5 gives the layout of the checklist with that box appended |
| `FormLayout.DropCheckBoxes` | stash-qmt.py:156-160 | the checkbox pass of `cleanup`: every checkbox widget is removed, the other widgets stay (a definition) |
| `FormLayout.Cleaned` | stash-qmt.py:151-160 | the whole of `cleanup`: the bottom widget is removed when it is a label, then the checkbox pass runs (a definition; `CleanupOfLayout` states its effect on a form layout) |
| `FormLayout.DropCheckBoxesKeeps` | stash-qmt.py:156-160 | removing checkboxes keeps exactly the widgets that are not checkboxes |
| `FormLayout.DropCheckBoxesStep` | stash-qmt.py:157-160 | one step of the bottom-up loop: with everything below the index cleaned, the widget at the index is still the original one, and deleting it exactly when it is a checkbox leaves everything from the index on cleaned |
| `FormLayout.DropCheckBoxesAppend` | stash-qmt.py:156-160 | removal works piecewise, so the kept widgets keep their relative order |
| `FormLayout.BoxRowOnlyCheckBoxes` | stash-qmt.py:156-160 | the checklist widgets are all removed |
| `FormLayout.SuccessesHaveNoCheckBoxes` | stash-qmt.py:156-160 | success labels are not removed by the checkbox pass |
| `FormLayout.BottomLabelDropped` | stash-qmt.py:151-155 | the bottom widget of a form layout is a label exactly when a success label is there, and dropping it leaves one success label fewer |
| `FormLayout.DropCheckBoxesOfLayout` | stash-qmt.py:156-160 | the checkbox pass over a form layout leaves the fixed widgets and every success label |
| `FormLayout.CleanupOfLayout` | stash-qmt.py:151-160 | on a form layout, cleanup removes every checkbox and exactly one success label, if any; an older label stays |
| `FormLayout.BoxRowAt` | stash-qmt.py:124-128 | the layout shows the box created last at the top of the checklist |
| `FormLayout.OneGeneration` | stash-qmt.py:116-128 | a form layout's checkboxes are exactly the widgets at indices 5 up to 5 plus the number of boxes |
| `FormLayout.ShownAscending` | stash-qmt.py:121-128 | boxes in descending name order appear in ascending name order, right below "Get Scene" and right above "Set tags" |
| `SceneForm.Form.Valid` | stash-qmt.py:97-128 | the form's invariant: the layout is the fixed widgets with one generation of checkboxes at index 5 and the success labels at the bottom; there is no checklist before a scene is fetched; no checkbox repeats a tag or offers one the scene already has (a definition; every method of the form keeps it) |
| `SceneForm.Form.constructor` | stash-qmt.py:95-106 | the form starts with the seven fixed widgets, no checklist and no scene fetched |
| `SceneForm.Form.Cleanup` | stash-qmt.py:147-160 | the decreasing-index loop leaves the layout with its bottom label and every checkbox removed, no widget skipped |
| `SceneForm.Form.AddCheckboxes` | stash-qmt.py:112-128 | rebuilds the checklist as the filtered template tags in descending name order, removes one success label, and records the scene's tag ids; an unknown template fails after clearing, with an empty checklist |
| `SceneForm.Form.SendTags` | stash-qmt.py:174-191 | sends the scene's ids then the ticked ids, with no duplicates; appends a success label only on an OK reply; sends nothing before any scene is fetched |

## Left out

- HTTP requests and JSON decoding (stash-qmt.py:65-69, 138-143, 186-189): the replies are parameters. Network failures and malformed replies are not modelled.
- The YAML file (stash-qmt.py:23-35, 47-51) is not modelled: reading it, writing it, its path, the stub file created when it is missing, and the `API Key` and `Stash URL` entries. The written file is modelled only as a section that lists the resolved templates (`ConfigTemplates.Lists`).
- The GraphQL query text (stash-qmt.py:61-64, 135-137, 181-185): it is built by unescaped string concatenation. A tag name or scene id that breaks the query is not modelled.
- Qt widget construction, signal wiring and the event loop (stash-qmt.py:85-109, 194-199): only the layout as a sequence of widget kinds is kept. The template selector's items and the scene id field are not modelled. The selected template name is a parameter of `AddCheckboxes`.
- The globals `API_KEY`, `STASH_URL` and `TEMPLATES` (stash-qmt.py:9-11): templates are passed explicitly, and the credentials play no part in the logic.
- The diagnostic printed for a template of unrecognized shape (stash-qmt.py:45): output only.
- The write-back into the loaded configuration (stash-qmt.py:42): only `TEMPLATES` is dumped, so it has no effect.
- Tag ids in search replies are integers in the model. Converting a non-empty, non-numeric id string is not modelled. Only the empty id (no match) is modelled as a failure.
- The config's shape is assumed well-formed. A `Templates` entry that is not a mapping is not modelled, and neither is an id map with non-integer keys or a name list with non-string items.
- Loading the stub file is not modelled. The stub written when the file is missing (stash-qmt.py:29-31) has the key `StashURL`, but the loader reads `Stash URL` (stash-qmt.py:35). A stub filled in as written therefore fails with a KeyError at line 35, before the template loop at line 37 is reached. This follows from lines 31 and 35.
- Checklist.SortByNameDesc: when two tags have equal names, Python's stable sort keeps their dictionary order. The model does not fix that order, because templates are maps.
- Checklist.SceneTagKeys: the contract states "no duplicates, same ids". It does not state the first-occurrence order that the definition follows.
- SceneForm.Form.SendTags: each checkbox's checked state is passed as the set of ticked ids. The aliasing between `self.checkboxes` and the widgets in the layout is not modelled.
