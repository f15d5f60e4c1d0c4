# MajorMajor in Dafny

MajorMajor is a Python library for collaborative editing of JSON documents
by operational transformation. Each user edits a local copy of the
document. Edits are operations (set a value, negate a boolean, add to a
number, insert into or delete from a string or a list, move a list item,
insert or delete a dict key) addressed by a path into the document.
Operations are grouped into changesets. A changeset names its parents
(the changesets it was made on) and is identified by a hash of its
contents. A document keeps its changesets in a deterministic total order
and brings a changeset that arrives late into line with the ones that
came before it: the operations are transformed against the earlier
concurrent operations and the snapshot is rebuilt. When a transformation
changes a past operation's effect on later ones, it records a hazard
(a shift of an offset or a length) for the later operations to apply.

The model covers:

- **The JSON snapshot engine** (`snapshot.py`). `Json` and `Snapshots`
  hold the value type, the paths, Python's negative indices and slices,
  path lookup and replacement, and every edit handler of `apply_op`.
- **The operations and their transformation rules** (`ops/*.py`).
  - `StringRules`, `ArrayRules` and `StringTransform` hold the
    transformation rules.
  - `Ops` holds the `ot` dispatch, the shifts taken from hazards and the
    per-class hazard bookkeeping.
  - `OpProperties` proves convergence and shift facts for the rules.
- **Hazards** (`hazards/*.py`, `Hazards`, `HazardLists`,
  `HazardConvergence`). Each rule's hazard is checked against the shifts
  that make the two edits commute.
- **Changesets and their ancestry** (`changeset.py`, `Changesets`,
  `Ancestry`, `Ids`). These cover parents, children and relinking,
  completeness of dependency information, the ancestor search, the
  id-based ordering and the transformation of a changeset's operations
  by its preceding changesets.
- **The document** (`document.py`, `Documents`). It covers the ordered
  changeset list, the tree order, local operations and the open
  changeset, the pending list, and receiving a changeset.
- **Utilities** (`utils.py`, `Utils`) and **users** (`user.py`, `Users`).
- **The early transformation module** (`op.py` and `hazard.py` at the top
  of the package, `EarlyOps` and `OverlapHazard`). These give index
  arithmetic for inserts and deletes and the overlap of two ranges.
- **The first prototype** (`document.py`, `op.py` and `changeset.py` at
  the repository root: `ProtoDocuments`, `ProtoOps`, `ProtoChangesets`
  and `ProtoEdits`).
- **The collaborator prototype** (`collaborator/document.py` and
  `collaborator/changeset.py`: `LegacyDocuments` and `LegacyChangesets`).

Values the source draws at random, reads from a clock or computes with
SHA-1 are parameters of the model: the digest that gives a changeset its
id, random document and user ids, and the random cache flags. Exceptions
the source raises are `Err` results.

## Model

| member | source | states |
|---|---|---|
| Ancestry.HasAncestor | majormajor/changeset.py:125-133 | `has_ancestor` fails only on an unknown changeset, a parent that is only an id, or the recursion limit; it answers only for a known changeset |
| Ancestry.HasAncestorSound | majormajor/changeset.py:125-133 | a `True` answer is backed by a chain of parent objects from the changeset to the ancestor |
| Ancestry.HasAncestorComplete | majormajor/changeset.py:125-133 | after a `False` answer no chain of parent objects from the changeset ends at the ancestor |
| Ancestry.HasAncestorIffReachable | majormajor/changeset.py:125-133 | whenever `has_ancestor` answers, it answers true exactly when the ancestor is reachable through parent objects |
| Ancestry.HasAncestorMatchesGetAncestors | majormajor/changeset.py:101-133 | whenever `get_ancestors` returns a set, `has_ancestor` answers membership in it, so the answer from the ancestor cache (lines 128-129) equals the recursive one |
| Ancestry.GetAncestorsIsReachableSet | majormajor/changeset.py:101-123 | `get_ancestors` returns exactly the set of changesets reachable through parent objects |
| Ancestry.GetAncestorsNeedsFullInfo | majormajor/changeset.py:107-108 | a changeset with a parent that is only an id makes `get_ancestors` raise |
| Ancestry.AnyHasAncestor | majormajor/changeset.py:130-133 | the loop over the parents fails only by an unknown changeset, a parent that is only an id, or the recursion limit |
| Ancestry.AnyMatchesUnion | majormajor/changeset.py:130-133 | with full parent information, the loop answers whether the ancestor is in the union of the parents' ancestor sets |
| Ancestry.AnySound | majormajor/changeset.py:130-133 | when the loop answers true, some parent object answered true |
| Ancestry.AnyAllFalse | majormajor/changeset.py:130-133 | when the loop answers false, every parent object answered false |
| ArrayRules.ShiftStepAt | majormajor/ops/array_insert_op.py:52-54 | the path keeps its length and every other element; only the index at the past path's depth moves by the shift, and a key there is left alone |
| ArrayRules.InsertPastArrayInsertExamples | majormajor/ops/array_insert_op.py:40-55 | the unit-test cases: offsets 2, 3 and 8 against a past insertion of two items at 3 become 2, 5 and 10, and a deeper path has its index at the list's depth moved from 3 to 5 |
| ArrayRules.InsertPastArrayDeleteExamples | majormajor/ops/array_insert_op.py:66-96 | the unit-test cases against a past deletion of 3 items at 3: kept before, a no-op inside, pulled back after, and the same on deeper paths |
| ArrayRules.DeletePastArrayInsertExamples | majormajor/ops/array_delete_op.py:47-68 | the unit-test cases against a past insertion of two items at 3: pushed right, widened over the insertion, or left with an offset hazard of minus the deleted count |
| ArrayRules.ShorterPathUnchanged | majormajor/ops/array_insert_op.py:40-45 | for all four rules, an operation whose path is shorter than the past one is returned unchanged, not a no-op and with no hazard |
| ArrayRules.InsertionsNeverNoop | majormajor/ops/array_insert_op.py:40-55 | a past insertion never makes an operation a no-op, and an array insertion transformed against a past insertion never reports a hazard |
| ArrayRules.PathShiftFollowsInsertedItems | majormajor/ops/array_insert_op.py:51-54 | after a past insertion into a list on the operation's path, the shifted path leads in the new document to the node the old path led to |
| ArrayRules.InsertShiftOnPath | majormajor/ops/array_insert_op.py:51-54 | on a path through the past insertion's list, the index step moves by the number of inserted items exactly when it is at or past the insertion point |
| ArrayRules.DeleteShiftOnPath | majormajor/ops/array_insert_op.py:74-81 | on a path through the past deletion's list, the operation becomes a no-op exactly when its index was deleted; otherwise an index past the deletion moves back by the deleted count |
| ArrayRules.PathShiftFollowsDeletion | majormajor/ops/array_insert_op.py:74-81 | after a past deletion, the shifted path leads to the same node as before, unless that node was deleted, in which case (and only then) the operation is a no-op |
| ArrayRules.InsertPastArrayInsertConverges | majormajor/ops/array_insert_op.py:47-50 | two insertions into one list give the same list in either order once the later one is shifted by the rule |
| ArrayRules.InsertPastArrayDeleteConverges | majormajor/ops/array_insert_op.py:82-94 | an insertion against a past deletion is a no-op exactly strictly inside the deleted range; otherwise insertion and deletion commute once transformed |
| ArrayRules.DeletePastArrayInsertIsStringRule | majormajor/ops/array_delete_op.py:54-63 | within one list the array delete rule gives exactly the offset, count and hazard of the string delete rule |
| ArrayRules.DeletePastArrayInsertConverges | majormajor/ops/array_delete_op.py:54-63 | a deletion against a past insertion removes the inserted items too when they fell inside it, and otherwise commutes with the insertion shifted by the reported hazard |
| Changesets.DepIds | majormajor/changeset.py:148-154 | one id per parent, in order: an object's id or the id string itself |
| Changesets.RemoveFirst | majormajor/changeset.py:207 | `list.remove` of a present entry drops exactly one copy of it; an absent entry leaves the list unchanged |
| Changesets.RelinkedKeepsParents | majormajor/changeset.py:215-224 | `relink_parent` keeps the number of parents, the sorted ids `get_dependency_ids` hashes, and every parent object, and turns one id entry of the parent into its object |
| Changesets.RelinkEachLinksKnown | majormajor/changeset.py:195-212 | relinking every entry, as the docstring intends, leaves no parent that is only the id of a known changeset |
| Changesets.RelinkEachKeepsParents | majormajor/changeset.py:195-212 | relinking every entry keeps the number of parents and the sorted dependency ids, and full dependency information once reached |
| Changesets.RelinkEachEntries | majormajor/changeset.py:195-212 | relinking keeps every parent object, adds objects only for known ids, leaves only id entries that were there, and keeps the multiset of ids |
| Changesets.RelinkEachKeepsUnknown | majormajor/changeset.py:205-206 | an id the document does not know is never relinked: all its id entries stay |
| Changesets.RelinkAsWrittenSkips | majormajor/changeset.py:204-212 | as written, with parents `[a, b]` both known ids, the walk yields `[b, obj a]` and tells `a` twice, so full dependency info is not reached; the intended walk yields `[obj a, obj b]` |
| Changesets.KnownParentIds | majormajor/changeset.py:209-212 | the parents told to add this changeset as a child are exactly the known ids it names, as objects or as ids |
| Changesets.IndexOf | majormajor/changeset.py:274 | `list.index` gives the first position holding the element |
| Changesets.PlaceInOrderKeepsOrder | majormajor/changeset.py:233-277 | when the unaccounted list is in document order and the new changeset was just inserted at `index`, before this changeset, placing it keeps the list in document order, as the docstring promises |
| Changesets.PlaceLast | majormajor/changeset.py:270-272 | appending a changeset that comes after everything listed keeps the order |
| Changesets.PlaceBefore | majormajor/changeset.py:273-276 | inserting a changeset just before the first listed one that follows it keeps the order |
| Changesets.OpDicts | majormajor/changeset.py:320 | one dictionary per operation |
| Changesets.Changeset.constructor | majormajor/changeset.py:23-35 | no id, no operations, no children, no unaccounted list, parents a copy of the dependencies, full-info cache off |
| Changesets.Changeset.AddChild | majormajor/changeset.py:46-57 | the children become the old ones plus the new child if absent, sorted by id with no repeats; nothing else changes |
| Changesets.Changeset.HasFullDependencyInfo | majormajor/changeset.py:135-146 | answers whether every parent is an object, caches a true answer, and a cached true stays true |
| Changesets.Changeset.GetDependencyIds | majormajor/changeset.py:148-156 | the parents' ids sorted: ascending and the same multiset as the parent ids |
| Changesets.Changeset.SetId | majormajor/changeset.py:173-179 | only the id changes |
| Changesets.Changeset.GetId | majormajor/changeset.py:323-334 | the stored id, or else the content digest, which is then stored; nothing else changes |
| Changesets.Changeset.AddOp | majormajor/changeset.py:181-193 | a changeset with a non-empty id refuses and changes nothing; an op object already in it is refused; otherwise the op is appended and linked to this changeset |
| Changesets.Changeset.RelinkParent | majormajor/changeset.py:215-224 | the parents become the list with the first id entry of the given changeset replaced by its object, at the end |
| Changesets.Changeset.RelinkParents | majormajor/changeset.py:195-212 | as written, indexing the live list: the parents become `RelinkAsWritten` of the old ones over the known ids, so the entry after a relinked one is skipped; the number of parents and the sorted dependency ids stay |
| Changesets.Changeset.SetUnaccounted | majormajor/changeset.py:226-231 | only the unaccounted list changes, to the given list |
| Changesets.Changeset.GetUnaccounted | majormajor/changeset.py:233-240 | an error before the list is set, otherwise the list |
| Changesets.Changeset.AddToUnaccounted | majormajor/changeset.py:242-277 | the single parent with one child shares its list; an unset or empty list becomes `[cs]`; otherwise `cs` goes before the first listed changeset met from `index` on, or last on reaching this changeset; only the unaccounted list changes |
| Changesets.Changeset.Ot | majormajor/changeset.py:279-295 | every op is reset; the call fails (TypeError) exactly when there are preceding changesets and ops, and otherwise returns no hazards |
| Documents.MissingIds | majormajor/document.py:87-92 | exactly the parents given only by id, at most one per parent |
| Documents.LastDepFrom | majormajor/document.py:504-507 | the last index at or before `i` holding a parent object, with no parent object after it up to `i`; none when no parent is there |
| Documents.Advance | majormajor/document.py:511-520 | the forward scan stops at the first changeset that stops it (a descendant of the new one, a larger sibling, or one not descending from the last parent) and passes every one before; only `has_ancestor` errors escape |
| Documents.InsertionPoint | majormajor/document.py:498-522 | the insertion point lies after every parent in the list; it is an IndexError exactly when no parent is in the list |
| Documents.GetInsertionPoint | majormajor/document.py:498-522 | the loops, with Python's negative indices in the backward scan, compute `InsertionPoint` |
| Documents.InsertKeepsTopological | majormajor/document.py:493-494 | splicing a changeset in after all its parents keeps the ordered list parent-first |
| Documents.ParentsBefore | majormajor/document.py:504-509 | when the insertion point is found, every parent is an object already in the list before it |
| Documents.TreeInsert | majormajor/document.py:539-541 | one placement of `tree_to_list` grows the list by one new changeset, keeps it without repeats, parent-first and rooted, and leaves fewer changesets to place |
| Documents.PickNext | majormajor/document.py:543-553 | a found changeset can join the list (all parents in, itself not); the first child is taken straight when it can; the queue only shrinks |
| Documents.TreeOrder | majormajor/document.py:524-564 | the list returned starts at the root, has no repeats and puts every changeset after its parents |
| Documents.NextPlace | majormajor/document.py:542-562 | the changeset picked next may be inserted (it is known, not yet placed, and every parent is placed) and its place comes after all of its parents; every queued changeset is known |
| Documents.ChildAddedMembers | majormajor/changeset.py:46-57 | after `add_child(c)` the children are exactly the old ones and `c` |
| Documents.LinkAllFacts | majormajor/document.py:381-388 | linking a changeset to its parent entries: other changesets only gain it as a child, exactly when named; its own known id entries become objects |
| Documents.RelinkEachLinked | majormajor/changeset.py:204-212 | a parent list with no id entries is left as it is by relinking |
| Documents.DepIdsMembers | majormajor/changeset.py:148-156 | an id is named by the parent list exactly when it is there as an id or as an object |
| Documents.AddKnownKeepsInvariant | majormajor/document.py:373-380 | a new changeset without children whose parent objects are known can join the known changesets without breaking the parent/child invariant |
| Documents.LinkKeepsInvariant | majormajor/document.py:381-388 | linking a known, not yet ordered changeset to its parents keeps the document invariant |
| Documents.RelinkedNamesKnown | majormajor/changeset.py:204-212 | a known changeset named among the parents is a parent object after relinking |
| Documents.CloseKeepsInvariant | majormajor/document.py:238-246 | appending a known changeset whose parents are ordered objects, as the only dependency, keeps the invariant |
| Documents.SameLinksKeepInvariant | majormajor/document.py:243 | changes outside parents and children keep the invariant |
| Documents.RemoveFirstId | majormajor/document.py:307-308 | `list.remove` of a present id drops one copy; an absent one leaves the list |
| Documents.RemoveDistinct | majormajor/document.py:307-308 | removing an id from a list without repeats leaves exactly the other ids, without repeats |
| Documents.WithoutParentsMembers | majormajor/document.py:305-308 | removing the parents from dependency heads without repeats leaves exactly the heads that are not parent objects |
| Documents.Reversed | majormajor/document.py:467-475 | `reversed` holds the same ids, last first |
| Documents.NotAncestors | majormajor/document.py:467-468 | the ids kept are exactly those of the list the changeset does not descend from; it succeeds exactly when `has_ancestor` answers for every id |
| Documents.FindUnaccounted | majormajor/document.py:455-476 | every changeset collected is one the new changeset does not descend from, found before it in the ordered list or in a parent's unaccounted list; and the list is complete: it holds every changeset the backward walk passes (up to `UnaccountedWalkEnd`) that is not a parent and that the new changeset does not descend from, and, when the walk stops at the last parent, every such changeset of that parent's unaccounted list |
| Documents.Inherit | majormajor/document.py:463-469 | at the last parent: exactly the changesets found so far and those of the parent's unaccounted list the new changeset does not descend from; an error when that list is not yet set or `has_ancestor` raises |
| Documents.FinishAtParent | majormajor/document.py:464-474 | when the walk stops at the last parent met, the result holds only changesets the new changeset does not descend from, each found earlier in the ordered list or in some unaccounted list, and it is complete in the same sense as `FindUnaccounted`'s |
| Documents.CollectUnrelated | majormajor/document.py:472-473 | a changeset passed on the walk joins the list exactly when the new changeset does not descend from it, and nothing else changes; the walk stops with `has_ancestor`'s error |
| Documents.WalkPast | majormajor/document.py:461-474 | one step of the backward walk short of the last parent: a parent entry met is removed from the parents still to meet, any other changeset is collected exactly when the new changeset does not descend from it, and the walk state (only unrelated changesets from before the new one, every unaccountable changeset passed collected) is kept; `has_ancestor`'s error stops the walk |
| Documents.UnaccountedWalkEnd | majormajor/document.py:460-473 | the backward walk stops at or before its start, and when it stops at the last parent, that index is above 0 and holds a parent object |
| Documents.AddToLater | majormajor/document.py:478-484 | telling the later changesets keeps the known changesets; the only errors are a parent given by id or a list not yet set |
| Documents.AddToLaterPrecedingOnly | majormajor/document.py:478-484 | telling the later changesets about the new one changes nothing but unaccounted lists |
| Documents.UnknownIds | majormajor/document.py:127-128 | exactly the remote dependencies this document does not know, in order |
| Documents.NotListed | majormajor/document.py:129-130 | exactly the local dependency heads the peer does not list, in order |
| Documents.LinkedDeps | majormajor/document.py:216-218 | a new local changeset has the current dependency heads as its parent objects, in order |
| Documents.AllOrdered | majormajor/document.py:420-424 | true exactly when every parent is already in the ordered list |
| Documents.LinkKeepsRecords | majormajor/document.py:381-388 | linking changes only parent and child lists: other changesets keep their parents and cached flags stay true |
| Documents.CloseLinkFacts | majormajor/document.py:239 | linking a closed local changeset leaves it as it was, and each parent gains it as a child |
| Documents.LinkLeavesUnknown | majormajor/document.py:381-388 | after linking, the only id parents left are ids the document does not know |
| Documents.ActivatedDeps | majormajor/document.py:305-309 | after activation the heads are the old ones that are not parents, then the new changeset, without repeats and all ordered |
| Documents.HeadsKeepState | majormajor/document.py:305-309 | any distinct ordered changesets can be the heads without breaking the document state |
| Documents.ClosingFacts | majormajor/document.py:238-247 | closing stores the local changeset under its new id with an empty unaccounted list; each parent gains it as a child; nothing else changes |
| Documents.CloseKeepsState | majormajor/document.py:238-247 | closing keeps the document state and the pending list well formed with the new changeset appended and made the only head |
| Documents.PrecedingOnlyKeepsState | majormajor/document.py:449-484 | changes to unaccounted lists alone keep the document state |
| Documents.DistinctSplice | majormajor/document.py:494 | splicing an absent changeset into a list without repeats leaves no repeats |
| Documents.PendingWithout | majormajor/document.py:329 | removing one pending entry drops exactly that id and one element |
| Documents.PendingAfterActivation | majormajor/document.py:327-329 | after a changeset is ordered and leaves the pending list, the pending list is still well formed |
| Documents.MissingAfter | majormajor/document.py:273-278 | the missing ids become the old ones without the new changeset's id, plus the parents still given only by id |
| Documents.Document.constructor | majormajor/document.py:34-55 | a new document has no pending, missing, queued or open changeset; without an initial value nothing is known or ordered; with one, the root changeset is the only ordered, known and head changeset |
| Documents.Document.SetInitialSnapshot | majormajor/document.py:165-177 | the value becomes a one-op changeset without parents that is the root, the only ordered and the only head; the send queue is cleared |
| Documents.Document.LinkParents | majormajor/document.py:381-388 | walking the copy `get_parents` returns, the known changesets become `LinkAll` of the old ones over every parent entry: each known id becomes its object and each known parent records the changeset as a child |
| Documents.Document.AddToKnownChangesets | majormajor/document.py:373-388 | a known id changes nothing; otherwise the changeset is stored under its id and linked to its parents |
| Documents.Document.AddLocalOp | majormajor/document.py:208-220 | a changeset on the current heads is opened if none is; an op already in it raises before the snapshot changes; otherwise it is appended and applied to the snapshot as the snapshot's `apply_op` specifies |
| Documents.Document.CloseChangeset | majormajor/document.py:222-253 | without an open changeset nothing changes; otherwise it is stored under its digest, linked, appended to the ordered list and the send queue, and made the only head |
| Documents.Document.Closed | majormajor/document.py:240-247 | the changeset is appended to the ordered list and the send queue, gets an empty unaccounted list and becomes the only head; the document invariant and the pending-list invariant still hold |
| Documents.Document.HasNeededDependencies | majormajor/document.py:412-424 | the known changesets become `RelinkWalk` of the old ones (`relink_changesets` as written, skipping the entry after a relinked id) with the full-information flag cached; answers whether every parent is then an object already ordered; only the changeset's own parents and children lists change and the document stays consistent |
| Documents.RelinkWalkParents | majormajor/changeset.py:204-212 | the as-written walk over the document leaves the changeset with the parent list `RelinkAsWritten` computes over the known ids |
| Documents.RelinkWalkSkips | majormajor/document.py:412-424 | with two parents that are ids of known changesets, the walk leaves `[b, obj a]`, so the changeset is never found ready |
| Documents.RelinkWalkKeepsState | majormajor/changeset.py:204-212 | the as-written walk over a changeset that is not yet ordered keeps the document invariant, changes only parent and child lists, and keeps other changesets' parents |
| Documents.Document.InsertIntoOrdered | majormajor/document.py:486-496 | the changeset is spliced in at `InsertionPoint`; on an error the list is unchanged |
| Documents.Document.UpdateUnaccounted | majormajor/document.py:449-484 | only unaccounted lists change; the new changeset's list holds only changesets it does not descend from, and all of those the walk reaches (`CompleteUnaccounted`); every later changeset is told about it |
| Documents.Document.FindOwnUnaccounted | majormajor/document.py:455-476 | only the new changeset's unaccounted list changes, to changesets it does not descend from, and to all of those the walk reaches (`CompleteUnaccounted`) |
| Documents.Document.AddToLaterChangesets | majormajor/document.py:478-484 | the known changesets become `AddToLater`'s result and the call fails exactly when it reports an error |
| Documents.Document.Activate | majormajor/document.py:286-310 | the changeset is spliced into the ordered list, only unaccounted lists of known changesets change, and it replaces its parents among the heads |
| Documents.Document.BecomeHead | majormajor/document.py:305-309 | the heads become the changeset and the old heads that are not its parents |
| Documents.Document.TryPending | majormajor/document.py:326-330 | a pending changeset with its dependencies is activated and removed from the pending list; one without them changes nothing |
| Documents.Document.PendingPass | majormajor/document.py:325-330 | a pass orders exactly the changesets it removes from the pending list; a pass that activates nothing leaves every pending changeset not ready; the ordered list before the lowest insertion index is unchanged |
| Documents.Document.ActivatePending | majormajor/document.py:323-330 | passes repeat until no pending changeset has its dependencies; ordered gains exactly the changesets leaving the pending list |
| Documents.Document.PullFromPendingList | majormajor/document.py:318-336 | the open changeset is closed, then every pending changeset that can be activated is; False when none was; otherwise the AttributeError that `ot` raises through `remove_old_hazards` (document.py:390-410), never True, with the activations made and `low` the lowest insertion index, before which the ordered list is as after closing |
| Documents.Document.CloseForPull | majormajor/document.py:320 | the open changeset, if any, is closed and appended to the ordered list; the document stays consistent and nothing is open |
| Documents.Document.PullPending | majormajor/document.py:321-336 | after closing: the activation passes, then False with nothing changed when nothing was ready, or the AttributeError of `ot` when something was activated; afterwards no pending changeset is ready |
| Documents.Document.Enqueue | majormajor/document.py:265-278 | a known id changes nothing; otherwise the changeset is stored, linked, queued as pending, and the missing ids are updated |
| Documents.Document.ReceiveChangeset | majormajor/document.py:260-284 | a known changeset is refused with False; with an event loop a new one is queued and True returned; without one the pending list is pulled: never True, False (with the changeset still pending) when nothing could be activated, otherwise the AttributeError of `ot`, and nothing pending is left ready |
| Documents.Document.SyncStatus | majormajor/document.py:126-131 | the remote ids this document does not know, and the local heads the remote side does not list |
| Documents.Document.DropParents | majormajor/document.py:305-308 | the heads lose the parent objects of the new changeset |
| Documents.OnlyParent | majormajor/document.py:381-388 | when children lists are linked, a child with at most one parent has exactly the parent that lists it |
| Documents.LinkKeepsOrder | majormajor/document.py:381-388 | linking a changeset that is not yet ordered keeps the ordered list parent-first |
| Documents.LinkKeepsChildren | majormajor/document.py:381-388 | linking keeps every child listed by a parent pointing back to that parent |
| Documents.LinkKeepsParents | majormajor/document.py:381-388 | linking keeps every parent object a known changeset |
| Documents.LinkAllParents | majormajor/document.py:381-388 | walking a copy of the parent entries, the linked changeset's parents are those entries each relinked once against the known ids |
| EarlyOps.EarlyKindFor | majormajor/op.py:23-29 | `si`, `sd` and `set` choose their own class whatever class was called; any other action keeps the class called |
| EarlyOps.DeletePastDeleteAsWritten | majormajor/op.py:186-203 | a range ending before the past one is unchanged; a range starting at or after the past one's end moves back by the past count |
| EarlyOps.DeletePastDelete | majormajor/op.py:186-203 | the corrected rule never produces a negative count from a non-negative one |
| EarlyOps.DeletePastDeleteCorrection | majormajor/op.py:196-203 | the corrected and as-written rules differ exactly on a range that starts strictly inside the past one and ends before it |
| EarlyOps.DeletePastDeleteAsWrittenDiverges | majormajor/op.py:200-203 | as written, deleting 1 at 4 against a past deletion of 3 at 3 gives a count of -1, and applying both orders to "ABCDEFG" gives "ABCGG" against "ABCG" |
| EarlyOps.DeletePastDeleteExamples | majormajor/op.py:186-203 | the corrected rule on the unit-test deletions against a past deletion of 3 at 3 |
| EarlyOps.DeletePastDeleteConverges | majormajor/op.py:176-203 | with the corrected rule, two deletions each transformed against the other delete the same text in either order |
| EarlyOps.PastDisjoint | majormajor/op.py:186-195 | of two ranges where the first ends before the second starts, the first is kept and the second moves back by the first's count |
| EarlyOps.PastCovering | majormajor/op.py:196-203 | a range covering the other loses the other's count, and the covered one becomes empty at the covering one's start |
| EarlyOps.PastOverlapping | majormajor/op.py:196-203 | of two overlapping ranges, the earlier keeps only its part before the later one, and the later one starts at the earlier one's start with only its part after the earlier one's end |
| EarlyOps.ConvergeCovering | majormajor/op.py:200-201 | deleting the covered range and then what is left of the covering one gives the same text as deleting the covering range alone |
| EarlyOps.ConvergeOverlapping | majormajor/op.py:196-203 | for overlapping ranges, deleting the later one and then the earlier one's part before it equals deleting the earlier one and then the later one's part after it |
| EarlyOps.EarlyOtRunKeepsPathAndNoop | majormajor/op.py:80-203 | transformation never changes the transformed path, and a no-op stays one |
| EarlyOps.EarlyRulesAgreeWithHazardRules | majormajor/op.py:137-174 | on strings the earlier insert and delete rules move offsets and values exactly as the later hazard-based rules do |
| EarlyOps.EarlyOp.constructor | majormajor/op.py:23-47 | the class is chosen by `__new__`, the four fields are stored and the transformed copies equal them, not a no-op |
| EarlyOps.EarlyOp.ResetTransformations | majormajor/op.py:73-78 | the transformed copies equal the originals again, which stay unchanged |
| EarlyOps.EarlyOp.ToJsonable | majormajor/op.py:58-64 | a peer reading the list back gets the action, path, value and offset |
| EarlyOps.EarlyOp.SetTransform | majormajor/op.py:91-103 | the op becomes a no-op exactly when neither is one and the set's path is a prefix of its path |
| EarlyOps.EarlyOp.StringInsertTransform | majormajor/op.py:105-174 | the transformed fields become those of the insert rule of the op's class, the originals stay |
| EarlyOps.EarlyOp.StringDeleteTransform | majormajor/op.py:114-203 | the transformed fields become those of the delete rule of the op's class (with the delete-against-delete case as written, so a deletion inside a past one gets the count past offset minus offset, which can be negative), the originals stay |
| EarlyOps.EarlyOp.Ot | majormajor/op.py:80-89 | each past op in turn, by the rules as written, failing exactly when the run of transformations fails (an action whose name has no method) |
| EarlyOps.EarlyOtRunStops | majormajor/op.py:86-89 | once a transformation raises, the rest of the run is not reached |
| EarlyOps.DeletesConvergeOrdered | majormajor/op.py:186-203 | for two deletions within the string, the first starting no later, each transformed against the other by the corrected rule gives the same string in either order |
| Hazards.InterbranchConflictOps | majormajor/hazards/hazard.py:60-64 | the interbranch op first when there is one, and the conflict op last |
| Hazards.NewHazard | majormajor/hazards/hazard.py:30-52 | the hazard keeps its ops and changesets; it is a path, offset or value hazard exactly when that shift is given, and interbranch exactly when an interbranch op is |
| Hazards.OffsetHazardOf | majormajor/ops/string_insert_op.py:51 | a rule's offset hazard is only an offset hazard, with the given shift and the conflict op alone |
| Hazards.ValHazardOf | majormajor/ops/string_insert_op.py:74 | a rule's value hazard is only a value hazard, with the given shift |
| HazardLists.Select | majormajor/ops/op.py:69-70 | keeps, in order, exactly the hazards whose conflict changeset is (or is not) in the set |
| HazardLists.SelectAppend | majormajor/ops/op.py:69-70 | selection distributes over concatenation, so it keeps list order |
| HazardLists.SelectSplits | majormajor/ops/op.py:69-70 | the two selections split the list between them |
| HazardLists.RelevantHazards | majormajor/ops/op.py:72-85 | nothing without a changeset; otherwise exactly the hazards whose conflict changeset is the changeset or an ancestor of it |
| HazardLists.CurrentHazards | majormajor/ops/op.py:69-70 | exactly the hazards whose conflict changeset is not among the given ones |
| HazardLists.ShiftSumsAppend | majormajor/ops/string_delete_op.py:37-39 | the shift sums over two lists add up |
| HazardLists.HazardFromShift | majormajor/ops/string_insert_op.py:46-53 | the rule reports a hazard exactly when it has a shift; the hazard has the right ops and changesets, the reported shift and no path, no-op or interbranch part |
| HazardLists.Listed | majormajor/ops/op.py:119-123 | a falsy result adds nothing, a hazard adds itself |
| HazardLists.HazardFromShiftHasOneShift | majormajor/ops/string_insert_op.py:51-74 | a rule's hazard carries exactly one of the offset and value shifts |
| HazardLists.SumsOfOneHazard | majormajor/ops/string_delete_op.py:37-39 | summing over one rule hazard gives the shift the rule reported |
| HazardConvergence.RecordedHazards | majormajor/ops/op.py:118-120 | at most one hazard is recorded, and its sums are the shifts the rule reported |
| HazardConvergence.HazardShiftedInsertPastInsert | majormajor/ops/string_insert_op.py:26-53 | the past insertion shifted by the recorded hazard commutes with the transformed insertion |
| HazardConvergence.HazardShiftedDeletePastInsert | majormajor/ops/string_delete_op.py:42-66 | outside the deletion, the past insertion shifted by the hazard commutes with the transformed deletion |
| HazardConvergence.HazardShiftedInsertPastDelete | majormajor/ops/string_insert_op.py:55-78 | the past deletion shifted by the hazard (an absent shift counting as zero) commutes with the transformed insertion, widened over an insertion it swallowed |
| HazardConvergence.ShiftedAsWrittenRejectsRuleHazards | majormajor/ops/string_delete_op.py:34-40 | as written, a string deletion with any relevant rule hazard raises TypeError, since each such hazard lacks one of the two shifts |
| HazardConvergence.ShiftedAsWrittenExample | majormajor/ops/string_delete_op.py:34-40 | the unit-test case: as written the shift raises; counting the absent shift as zero widens the deletion from 3 to 6 |
| Ids.LessIrreflexive | majormajor/changeset.py:155 | no id sorts before itself |
| Ids.LessTransitive | majormajor/changeset.py:155 | the string order is transitive |
| Ids.LessTotal | majormajor/changeset.py:155 | any two different ids are ordered exactly one way |
| Ids.Insert | majormajor/changeset.py:155 | one insertion step keeps the multiset and adds the id |
| Ids.InsertSorted | majormajor/changeset.py:155 | inserting into an ascending list keeps it ascending |
| Ids.Sort | majormajor/changeset.py:155 | `list.sort()` keeps the length and the multiset of ids |
| Ids.SortSorted | majormajor/changeset.py:155 | `list.sort()` returns an ascending list |
| Ids.SortedUnique | majormajor/changeset.py:155 | two ascending arrangements of the same ids are the same list |
| Ids.SortOfSorted | majormajor/changeset.py:155 | sorting an ascending list leaves it as it is |
| Ids.SortSameIds | majormajor/changeset.py:148-156 | parent lists naming the same ids in any order give the same `get_dependency_ids` |
| Ids.StrictlySortedOfSorted | majormajor/changeset.py:49-57 | ascending with no repeats is strictly ascending |
| Ids.InsertStrictlySorted | majormajor/changeset.py:46-57 | placing a new id into a strictly ascending list keeps it strictly ascending |
| Json.ValidPathAppend | majormajor/snapshot.py:42-59 | a walk along `p + q` is a walk along `p` then along `q` from where it ended |
| Json.ValidPathPrefix | majormajor/snapshot.py:42-59 | every prefix of a valid path is valid |
| Json.ReplaceAtReads | majormajor/snapshot.py:79-82 | after a replacement at a path, the path leads to the new value |
| Json.ReplaceAtFrame | majormajor/snapshot.py:79-82 | a replacement leaves every node on an unrelated path as it was |
| Json.Clamp | majormajor/snapshot.py:100-102 | Python's slice bound: unchanged inside, the length beyond it, counted from the end when negative, never below zero |
| Json.TakeDrop | majormajor/snapshot.py:100-102 | `s[:k] + s[k:] == s` for every bound |
| Json.SlicePrefixIsPrefix | majormajor/ops/array_insert_op.py:52 | `a == b[:len(a)]` holds exactly when `a` is a prefix of `b` |
| LegacyChangesets.LastIndex | collaborator/changeset.py:97-104 | the backward search from the end of `prev_css` finds the last occurrence of the dependency, and nothing after it is that dependency; it finds nothing exactly when the dependency is absent |
| LegacyChangesets.FirstIndex | collaborator/changeset.py:82-87 | the forward search over the dependencies finds the first occurrence, with nothing before it equal; nothing exactly when absent |
| LegacyChangesets.MultiScanKeeps | collaborator/changeset.py:106-123 | a scan that finishes keeps only changesets of `prev_css` that are unaccounted by some dependency, each at most once |
| LegacyChangesets.MultiScanRaises | collaborator/changeset.py:115-120 | when every unaccounted changeset of the dependencies is among `prev_css`, the scan reaches a single remaining one and then raises, since its inner search compares elements with the list itself |
| LegacyChangesets.LegacyChangeset.constructor | collaborator/changeset.py:5-11 | a new changeset has its document id, user and dependencies, no id, no operations and no unaccounted changesets |
| LegacyChangesets.LegacyChangeset.SetId | collaborator/changeset.py:62-67 | the id becomes the given one |
| LegacyChangesets.LegacyChangeset.GetId | collaborator/changeset.py:170-181 | a cached id is returned as it is; otherwise the digest of the changeset is returned and cached |
| LegacyChangesets.LegacyChangeset.AddOp | collaborator/changeset.py:69-79 | a changeset whose id is a non-empty string refuses the operation with an exception and keeps its operations; any other appends the operation and returns True |
| LegacyChangesets.LegacyChangeset.HasFullDependencyInfo | collaborator/changeset.py:17-25 | True exactly when no dependency is a bare id |
| LegacyChangesets.LegacyChangeset.GetDependencyIds | collaborator/changeset.py:27-34 | one id per dependency in order: a bare id as it is, a linked changeset's cached or newly computed id, which it then caches |
| LegacyChangesets.LegacyChangeset.RelinkChangeset | collaborator/changeset.py:81-87 | the first dependency that is the bare id of `dep` becomes `dep`, and every other dependency is kept; `dep`'s id is computed only when there is a dependency to compare |
| LegacyChangesets.LegacyChangeset.FindUnaccountedChangesets | collaborator/changeset.py:89-128 | no dependency: a copy of `prev_css`. One: the dependency's unaccounted list extended by what follows the dependency's last occurrence in `prev_css`, or an error when it is absent. Several: the ordered scan, or an error when it raises. A bare-id dependency raises |
| LegacyChangesets.LegacyChangeset.FollowDependency | collaborator/changeset.py:97-104 | this changeset takes over the dependency's list, and both changesets' lists become that list extended by what follows the dependency's last occurrence; when it is absent both keep the dependency's list and the search raises |
| LegacyChangesets.LegacyChangeset.ScanDependencies | collaborator/changeset.py:106-128 | the unaccounted list becomes the fresh list the scan keeps, and the method fails exactly when the scan raises |
| LegacyDocuments.IndexOfId | collaborator/document.py:40-47 | the first position whose changeset has the id, with none before it; the length when there is none |
| LegacyDocuments.InRange | collaborator/document.py:52-64 | every changeset returned is one of the document's and does not have the end id |
| LegacyDocuments.AfterLast | collaborator/document.py:160-166 | the backward search stops just after the last changeset with the dependency id, at 0 when there is none, and no later changeset has that id |
| LegacyDocuments.ForwardAsWritten | collaborator/document.py:168-173 | the forward loop as written never moves before its start or past the end of the list |
| LegacyDocuments.ForwardLoopIsDead | collaborator/document.py:160-177 | as written the forward loop never runs: a new changeset always goes straight after the last changeset with its dependency's id |
| LegacyDocuments.ForwardOrdered | collaborator/document.py:168-173 | the corrected loop moves exactly past the siblings that share the dependency and have a smaller id |
| LegacyDocuments.InsertAt | collaborator/document.py:176 | `list.insert` puts the changeset at the index and keeps the changesets before and after it in order |
| LegacyDocuments.InsertOrderedConverges | collaborator/document.py:155-177 | with the corrected loop, two siblings whose dependency is the last changeset end up in the same order whichever arrives first |
| LegacyDocuments.InsertAsWrittenDiverges | collaborator/document.py:170-173 | as written, siblings "b" and "c" of "d" end up as [d, c, b] or [d, b, c] depending on arrival order; the corrected loop gives [d, b, c] both times |
| LegacyDocuments.Lookup | collaborator/document.py:228-238 | reading the value at a path succeeds exactly when the path is valid in the snapshot, and gives the value there |
| LegacyDocuments.LegacyEdit | collaborator/document.py:253-308 | `set` returns the operation's value; every handler other than the string ones is the shared handler applied to the value at the path with the operation's value and offset |
| LegacyDocuments.LegacyApplySpec | collaborator/document.py:240-250 | a path the document does not contain is rejected; a replacement needs a valid path and a known action; with an empty path the document becomes the handler's result |
| LegacyDocuments.LegacyApplyFrame | collaborator/document.py:246-250 | after a replacement the value at the path is the handler's result and every path disjoint from it reads as before |
| LegacyDocuments.LegacyAgreesWithSnapshot | collaborator/document.py:240-308 | on an untransformed operation other than `ai` and `oi`, the prototype's `apply_op` gives the same outcome as the snapshot engine's |
| LegacyDocuments.ReplayAppend | collaborator/document.py:205-208 | replaying two lists of operations in turn is replaying their concatenation, stopping at the first exception |
| LegacyDocuments.LegacyDocument.constructor | collaborator/document.py:13-25 | a new document has its id and user, no changesets, nothing pending, no open changeset and the empty dict as snapshot |
| LegacyDocuments.LegacyDocument.GetLastChangeset | collaborator/document.py:37-38 | the last applied changeset, and None exactly when there is none |
| LegacyDocuments.LegacyDocument.GetChangesetById | collaborator/document.py:40-47 | the first changeset with the id among the applied ones and then the pending ones, None when there is none |
| LegacyDocuments.LegacyDocument.KnowsChangeset | collaborator/document.py:92-96 | True exactly when an applied changeset has the id |
| LegacyDocuments.LegacyDocument.GetChangesetsInRange | collaborator/document.py:52-64 | the changesets strictly after the first with the start id and before the first with the end id; from the beginning when no start id is given |
| LegacyDocuments.LegacyDocument.SetSnapshot | collaborator/document.py:80-90 | the applied changesets move to the end of the pending list, the snapshot is replaced, and the given dependency becomes the only applied changeset |
| LegacyDocuments.LegacyDocument.InsertChangesetIntoChangesets | collaborator/document.py:155-177 | the changeset is inserted, and its index returned, just after the last changeset with its dependency's id |
| LegacyDocuments.LegacyDocument.InsertChangesetOrdered | collaborator/document.py:155-177 | the corrected insertion puts the changeset after its dependency and after its siblings with a smaller id |
| LegacyDocuments.LegacyDocument.ApplyOp | collaborator/document.py:240-250 | a rejected path returns "ERROR!" and keeps the snapshot; an exception keeps the snapshot; otherwise the snapshot becomes the replaced document |
| LegacyDocuments.LegacyDocument.RebuildSnapshot | collaborator/document.py:199-208 | the snapshot becomes the replay from the empty dict of every operation of every changeset in order, and the method fails exactly when the replay raises |
| LegacyDocuments.LegacyDocument.ApplyOps | collaborator/document.py:207-208 | applying one changeset's operations in order is their replay from the current snapshot |
| LegacyDocuments.RebuildStops | collaborator/document.py:205-208 | once replaying the first changesets raises, replaying all of them ends with that same result |
| LegacyDocuments.LastId | collaborator/document.py:37-38 | the id of the last changeset, None exactly when there are none |
| LegacyDocuments.InitialSnapshotRebuilds | collaborator/document.py:69-77 | rebuilding from the one changeset that holds the initial `set` operation gives back the initial snapshot |
| LegacyDocuments.LegacyDocument.AddLocalOp | collaborator/document.py:108-120 | a changeset is opened on the last changeset when none is open, the operation is appended to it and applied as `apply_op` does; the open changeset keeps depending on the last changeset, and a snapshot that rebuilding reproduces stays so |
| LegacyDocuments.LegacyDocument.CloseChangeset | collaborator/document.py:122-135 | the open changeset is appended to the applied changesets, depending on the changeset that was last before it, nothing is open afterwards, and then hashing it raises TypeError, since its dependency (a changeset object or None) cannot be iterated; with nothing open it raises AttributeError; a snapshot that rebuilding reproduces stays so |
| LegacyDocuments.LegacyDocument.SetInitialSnapshot | collaborator/document.py:69-77 | the snapshot becomes the given value, the changeset holding the `set` operation is appended and nothing is open, and closing raises the TypeError of hashing it |
| Ops.KindFor | majormajor/ops/op.py:24-30 | the actions `si`, `sd` and `set` choose their class whatever class was called; every other action keeps the class called |
| Ops.SetTransformed | majormajor/ops/op.py:134-146 | path, value and offset are untouched; the op is a no-op afterwards exactly when it already was one, or when the set was not a no-op and its path is a prefix of this op's path |
| Ops.StringInsertTransformed | majormajor/ops/op.py:148-155 | for an op that is not a string op, transforming against a past string insertion changes nothing and reports no hazard; string ops follow the string rules |
| Ops.StringDeleteTransformed | majormajor/ops/op.py:157-164 | for an op that is not a string op, transforming against a past string deletion changes nothing; a string deletion against one raises, as the method it calls is not defined |
| Ops.PyLen | majormajor/ops/string_insert_op.py:49-51 | `len` is defined exactly for strings, lists and dicts, and gives their length |
| Ops.TransformSpec | majormajor/ops/op.py:116-118 | one step of `ot` reports at most one hazard for each past op, and exactly one entry per past op when it does not raise |
| Ops.OtRun | majormajor/ops/op.py:109-120 | the run over the past ops records at most one entry per past op, and one for every past op when nothing raises |
| Ops.OtRunPrefix | majormajor/ops/op.py:115-120 | when `ot` finishes over a list of past ops, its run over any prefix finishes too and records the first entries |
| Ops.OtRunKeepsPathAndNoop | majormajor/ops/op.py:109-120 | `ot` against past string ops and sets never moves an op's path, and a no-op stays one |
| Ops.OtRunFailsOnOtherActions | majormajor/ops/op.py:116-183 | against a past op whose action is not `set`, `si` or `sd`, `ot` raises, since the method the table names does not exist, and leaves the op as it was |
| Ops.ParseJsonable | majormajor/ops/op.py:87-93 | a list accepted as an op's JSON form has two to four entries |
| Ops.Op.constructor | majormajor/ops/op.py:24-52 | the new op has the class `KindFor` picks, its action, path, value and offset, untransformed copies of them, no changeset and no hazards |
| Ops.Op.SetChangeset | majormajor/ops/op.py:54-55 | only the changeset changes |
| Ops.Op.ResetTransformations | majormajor/ops/op.py:102-107 | the transformed fields are the originals again and the op is not a no-op; the path is kept, since it is the same list |
| Ops.Op.RemoveOldHazards | majormajor/ops/op.py:69-70 | the hazards become those whose conflict changeset is not among the given ones, in order; nothing else changes |
| Ops.Op.AddNewHazard | majormajor/ops/op.py:122-123 | the hazard is appended; nothing else changes |
| Ops.Op.ToJsonable | majormajor/ops/op.py:87-93 | the list starts with the action and the path and has at most four entries |
| Ops.Op.PropertiesShiftedByHazards | majormajor/ops/string_insert_op.py:26-37 | as written: the properties are the transformed ones shifted by the sum of the relevant hazards' shifts, by the rules of the op's class, and TypeError when a relevant hazard lacks a shift the class adds (an offset shift for an insertion; both shifts for a string or array deletion, string_delete_op.py:37-39, array_delete_op.py:34-36) |
| Ops.Op.SetTransform | majormajor/ops/op.py:134-146 | the op's fields become `SetTransformed` of the old fields against the set's path; the hazards and originals are kept |
| Ops.Op.StringInsertTransform | majormajor/ops/string_insert_op.py:39-53 | the fields and the reported hazard are those `StringInsertTransformed` gives for the past op's view; for a string deletion (string_delete_op.py:42-66) that is the deletion rule against a past insertion into the same string |
| Ops.Op.StringDeleteTransform | majormajor/ops/string_insert_op.py:55-78 | the fields and the reported hazard are those `StringDeleteTransformed` gives for the past op's view, whose shifted properties follow the loop as written, so a past deletion carrying a relevant rule hazard (which lacks one of the two shifts) raises TypeError; for a string deletion (string_delete_op.py:68-82) nothing changes on another path, and on the same path the call raises, as `transform_delete_by_previous_delete` is defined nowhere |
| Ops.Op.ArrayInsertTransform | majormajor/ops/array_insert_op.py:34-55 | the fields and the reported hazard are those `ArrayInsertTransformed` gives for the past op's view; for an array deletion (array_delete_op.py:39-68) that is shifted, widened or a hazard in the same list, and a path step pushed along the path |
| Ops.Op.SameListArrayInsertTransform | majormajor/ops/array_insert_op.py:47-50 | the same-list branch updates the fields as the array rule says |
| Ops.Op.AlongPathArrayInsertTransform | majormajor/ops/array_insert_op.py:51-54 | the along-the-path branch writes the shifted path, or fails and keeps every field |
| Ops.Op.ArrayDeleteTransform | majormajor/ops/array_insert_op.py:57-96 | the fields and the reported hazard are those `ArrayDeleteTransformed` gives for the past op's view; for an array deletion (array_delete_op.py:70-105) a path step is pulled back or the op becomes a no-op along the path, and in the same list the call raises, as `shift_from_overlaping_delete_ranges` is defined nowhere |
| Ops.Op.AlongPathArrayDeleteTransform | majormajor/ops/array_insert_op.py:74-81 | the along-the-path branch writes the shifted path, or fails and keeps every field |
| Ops.Op.SameListArrayDeleteTransform | majormajor/ops/array_insert_op.py:82-94 | the same-list branch updates the fields as the array rule says, or fails and keeps every field |
| Ops.Op.TransformAgainst | majormajor/ops/op.py:116-118 | one pass of the loop does what `TransformSpec` says for the past op's action |
| Ops.Op.Advance | majormajor/ops/op.py:115-120 | each pass of `ot`'s loop extends the run over the first past ops by one step |
| Ops.Op.Ot | majormajor/ops/op.py:109-120 | the op's fields become those of the run over the past changeset's ops, each read through its shifted properties as written; it fails exactly when the run raises, including the TypeError of a missing hazard shift; each hazard is appended to the past op it concerns and to no other op |
| Ops.SumShifts | majormajor/ops/string_insert_op.py:33-36 | the loop sums the offset shifts and the value shifts of the hazards in order |
| Ops.WithAddedStep | majormajor/ops/op.py:119-120 | recording the hazard of one more past op changes only that op's hazards |
| Ops.OtRunAdvance | majormajor/ops/op.py:115-120 | the run over one more past op extends the previous run by what its transformation reports |
| Ops.OtRunStops | majormajor/ops/op.py:115-120 | once `ot` has raised, the later past ops change nothing |
| OpProperties.ArrayInsertOpReportsNoHazard | majormajor/ops/array_insert_op.py:55-96 | whatever the array transformations of an array insertion do, they report no hazard |
| OpProperties.ShorterPathUnchanged | majormajor/ops/array_insert_op.py:44-71 | an op whose path is shorter than the past op's is returned unchanged, with no hazard |
| OpProperties.UnrelatedListUnchanged | majormajor/ops/array_insert_op.py:46-81 | a past edit of a list that does not lie along this op's path changes nothing |
| OpProperties.KeyStepAlongPathFails | majormajor/ops/array_insert_op.py:54-81 | a dict key at the depth of the past op's list cannot be shifted: both array transformations raise |
| OpProperties.JsonableRoundTrip | majormajor/ops/op.py:87-93 | reading back `to_jsonable`'s list gives the action, path, value and offset, with None read back as None |
| ProtoChangesets.LStrip | changeset.py:31 | the stripped text does not start with whitespace |
| ProtoChangesets.RStrip | changeset.py:31 | the stripped text does not end with whitespace |
| ProtoChangesets.ParseInt | changeset.py:30-34 | `int()` accepts only non-empty text |
| ProtoChangesets.Split | changeset.py:27 | `split(',')` gives at least one piece and no piece holds a comma |
| ProtoChangesets.ParseIntSpaces | changeset.py:30-34 | Python 2 `int()` allows whitespace around the sign (`' - 5'` gives -5, `'+\t12 '` gives 12) and rejects whitespace inside the digits or a sign alone |
| ProtoChangesets.ParseIntText | changeset.py:30-32 | `int(str(i)) == i` for every integer, and the written integer is non-empty and holds no comma |
| ProtoChangesets.SplitJoin | changeset.py:27 | splitting the comma-joined pieces gives them back when no piece holds a comma |
| ProtoChangesets.SegmentOfStepText | changeset.py:28-34 | a written-out path element reads back as itself |
| ProtoChangesets.ParseSegmentsOfTexts | changeset.py:28-34 | reading the written-out elements of a plain path gives the path back |
| ProtoChangesets.ParseFormat | changeset.py:25-35 | `parse_path` reads back any plain path written in the comma-separated form |
| ProtoChangesets.ParsedIsPlain | changeset.py:28-34 | every key `parse_path` produces is plain: non-empty, without a comma and not an integer |
| ProtoChangesets.ParseIdempotent | changeset.py:25-35 | writing out a parsed path and parsing it again gives the same path |
| ProtoChangesets.ParsedEmpty | changeset.py:25-35 | the empty text parses to the empty path |
| ProtoChangesets.InsertIntoArrayPath | changeset.py:60-65 | the merged path has the same length; when it differs, the past path is a proper prefix and the integer just below it grew by one |
| ProtoChangesets.MergedIndexPath | changeset.py:63-65 | below a list the merge does not raise, and the index after the prefix grows exactly when the past position is at or before it |
| ProtoChangesets.InsertIntoArrayKeepsTarget | changeset.py:60-65 | after a past insertion of one value into the list at the past path, the merged path leads to the node the old path led to |
| ProtoChangesets.RemovedPathIsGone | changeset.py:51-57 | a changeset whose path runs through the removed pair names a path that no longer exists once the pair is removed |
| ProtoChangesets.InsertIntoArrayExamples | changeset.py:60-65 | on the path ['fifth', 2], a past insertion at 3 changes nothing, at 2 gives index 3, and at 1 on ['fifth', 3] gives index 4 |
| ProtoChangesets.ProtoChangeset.constructor | changeset.py:2-23 | the raw and working copies start equal; a list path is kept and a text path is parsed |
| ProtoChangesets.ProtoChangeset.ParsePath | changeset.py:25-35 | the path becomes the parse of the text, which is also returned |
| ProtoChangesets.ProtoChangeset.MergeInInsertPair | changeset.py:46-47 | the revision becomes the past revision plus one |
| ProtoChangesets.ProtoChangeset.MergeInRemovePair | changeset.py:51-57 | the past position is appended to the past changeset's own path, and this changeset's operation becomes None exactly when that path is a prefix of its path |
| ProtoChangesets.ProtoChangeset.MergeInInsertIntoArray | changeset.py:60-65 | the path becomes `InsertIntoArrayPath` of the past path, position and old path, or is kept when that raises |
| ProtoChangesets.ProtoChangeset.MergePastChangeset | changeset.py:37-44 | each of the three past operations runs its own merge; any other past operation changes nothing |
| ProtoOps.PathValue | op.py:19 | a path as JSON has one item per element, each element written as itself |
| ProtoOps.ToJsonable | op.py:18-26 | the list starts with the action and the path; key, value and offset each appear exactly when they are not None |
| ProtoOps.EntryNames | op.py:19-25 | no entry of the list is mistaken for an entry of another name |
| ProtoOps.PathOfPathValue | op.py:19 | reading a path back from its JSON list gives the path |
| ProtoOps.EntryValueOf | op.py:19-25 | an entry is read back only under its own name |
| ProtoOps.TakeOptionalEntry | op.py:20-25 | an optional entry is read back from its place in the list |
| ProtoOps.ToJsonableRoundTrip | op.py:18-26 | reading back the JSON form gives the operation: nothing is lost |
| ProtoOps.ToJsonableInjective | op.py:18-26 | two operations with the same JSON form are the same operation |
| ProtoEdits.ArrayInsertOne | document.py:77-82 | on a list with an integer offset, the value is inserted as one element at the offset; on anything but a list it raises |
| ProtoEdits.ArrayInsertOneIsSplice | document.py:77-82 | inserting one element is the snapshot engine's list splice of a one-item list |
| ProtoEdits.ArrayInsertOneShape | document.py:77-82 | the result is one longer, holds the value at the offset, and keeps the items before and after it in order |
| ProtoEdits.ObjectInsertPair | document.py:98-101 | `val` must be a dict with both `key` and `val` entries, else it raises; then it is `cur[key] = val` |
| ProtoEdits.ObjectInsertPairReads | document.py:98-101 | after the insert into a dict the key holds the value and every other key is as it was |
| ProtoEdits.ProtoEdit | document.py:109-120 | `set` gives the value, `ai` and `oi` their prototype handlers, and every other action the snapshot engine's handler with the operation's value and offset |
| ProtoDocuments.GetItem | document.py:44 | `node[key]` succeeds exactly when the key is a string or integer that names an element of the node, with negative list indices, and then gives that element |
| ProtoDocuments.ProtoApplySpec | document.py:46-56 | a path the document does not contain is rejected; a replacement needs a valid path and a known action; without a key the document becomes the handler's result |
| ProtoDocuments.ProtoApplyKeyFrame | document.py:53-56 | with a string key into a dict, the entry becomes the handler's result and every path disjoint from it reads as before |
| ProtoDocuments.ProtoDocument.constructor | document.py:11-14 | a new document has its id and the empty dict as snapshot |
| ProtoDocuments.ProtoDocument.GetNode | document.py:35-39 | the node the loop reaches is the value at the whole path |
| ProtoDocuments.ProtoDocument.GetValue | document.py:41-44 | without a key, the snapshot; with one, `node[key]` of the node at the path |
| ProtoDocuments.ProtoDocument.ApplyOp | document.py:46-56 | a rejected path returns "ERROR!" and keeps the snapshot; an exception keeps it; otherwise the snapshot becomes the replaced document |
| Snapshots.Resolve | majormajor/snapshot.py:61-71 | the path with negative indices resolved has the same length, is valid, and reaches the value Python's indexing reaches |
| Snapshots.PyReplaceAtIsReplaceAt | majormajor/snapshot.py:79-83 | assigning at a path with Python's indexing is replacing the value at the resolved path |
| Snapshots.ContainsSpec | majormajor/snapshot.py:42-59 | the empty path is contained; a path is contained exactly when each step is a key of a dict or an index of a list, with an index below `-len` raising instead; the prototypes' `contains_path` (document.py:15-30, collaborator/document.py:211-226) is the same walk |
| Snapshots.ContainsSpecIsValidPath | majormajor/snapshot.py:42-59 | on paths without negative indices, `contains_path` never raises and is the plain path check |
| Snapshots.PyAdd | majormajor/snapshot.py:95-96 | `+` succeeds exactly on two numbers, two strings or two lists |
| Snapshots.BooleanNegation | majormajor/snapshot.py:90-92 | the result is the negation of the value's Python truth |
| Snapshots.StringInsert | majormajor/snapshot.py:100-102 | on a string or list with an integer offset, the text is spliced in at the offset; it succeeds only when the value and the text are both strings or both lists |
| Snapshots.StringDelete | majormajor/snapshot.py:107-109 | on a string or list with integer offset and count, the count elements at the offset are removed; it succeeds only on a string or list with numeric offset and count |
| Snapshots.ArrayInsert | majormajor/snapshot.py:111-116 | on a list, the items of the value are spliced in at the offset; on anything but a list it raises |
| Snapshots.ArrayDelete | majormajor/snapshot.py:118-122 | on a list, the count items at the offset are removed; on anything but a list it raises |
| Snapshots.ArrayMove | majormajor/snapshot.py:124-130 | on anything but a list it raises |
| Snapshots.ObjectInsert | majormajor/snapshot.py:132-135 | on a dict with a string key, the key is set to the value |
| Snapshots.ObjectDelete | majormajor/snapshot.py:137-140 | on a dict, a present key is removed and a missing one raises |
| Snapshots.Edit | majormajor/snapshot.py:142-153 | `set` gives the value, `bn` the negation, `na` the sum |
| Snapshots.ApplyOpSpec | majormajor/snapshot.py:73-83 | a path the snapshot does not contain is rejected; a replacement needs a valid path and a known action; with the empty path the document becomes the handler's result |
| Snapshots.ApplyOpFrame | majormajor/snapshot.py:79-83 | after a replacement the value at the path is the handler's result and every path disjoint from it reads as before |
| Snapshots.StringInsertShape | majormajor/snapshot.py:100-102 | a string insertion keeps the prefix, then the text, then the rest, and grows by the text's length |
| Snapshots.StringDeleteShape | majormajor/snapshot.py:107-109 | a string deletion removes exactly the count characters at the offset and keeps the rest in order |
| Snapshots.StringDeleteUndoesInsert | majormajor/snapshot.py:100-109 | deleting the text just inserted restores the string |
| Snapshots.EditExamples | majormajor/snapshot.py:107-122 | deleting 1 at 6 from "ABCDEFG" gives "ABCDEF", and deleting no items from an empty list leaves it empty |
| Snapshots.ArrayInsertShape | majormajor/snapshot.py:111-116 | an array insertion splices in the whole list at the offset, keeping the items around it in order |
| Snapshots.ArrayMovePermutes | majormajor/snapshot.py:124-130 | a move within a list keeps its length and its multiset of items, and the moved item lands at the clamped target index |
| Snapshots.BooleanNegationTwice | majormajor/snapshot.py:90-92 | negating twice gives the value's truth, and a boolean back |
| Snapshots.ObjectInsertThenDelete | majormajor/snapshot.py:132-140 | after an insertion the key holds the value; deleting that key then removes exactly it and keeps every other key |
| Snapshots.Snapshot.constructor | majormajor/snapshot.py:22-23 | a new snapshot is the empty dict |
| Snapshots.Snapshot.SetSnapshot | majormajor/snapshot.py:37-40 | the snapshot becomes the given value |
| Snapshots.Snapshot.ContainsPath | majormajor/snapshot.py:42-59 | the loop's answer is `ContainsSpec`, true exactly when the path is valid with Python indexing |
| Snapshots.Snapshot.GetNode | majormajor/snapshot.py:61-66 | the node is the snapshot for the empty path, and otherwise the parent from which the last step reaches the value at the path |
| Snapshots.Snapshot.GetValue | majormajor/snapshot.py:68-71 | the value at the path |
| Snapshots.Snapshot.ApplyOp | majormajor/snapshot.py:73-83 | a rejected path returns "ERROR!" and keeps the snapshot; an exception keeps it; otherwise the snapshot becomes the replaced document |
| Splice.InsertAt | majormajor/snapshot.py:100-102 | within bounds, an insertion keeps the prefix, then the text, then the shifted suffix, element by element |
| Splice.DeleteAt | majormajor/snapshot.py:107-109 | within bounds, a deletion keeps the prefix and closes the gap, element by element |
| Splice.DeleteUndoesInsert | majormajor/snapshot.py:100-109 | deleting an insertion right away gives back the original sequence |
| Splice.InsertSlices | majormajor/snapshot.py:102 | within bounds, the clamped splice is plain slicing |
| Splice.DeleteSlices | majormajor/snapshot.py:109 | within bounds, the clamped deletion is plain slicing |
| Splice.InsertsCommute | majormajor/ops/string_insert_op.py:48-51 | two insertions commute once the later offset is shifted by the earlier text |
| Splice.InsertBeforeDelete | majormajor/ops/string_delete_op.py:58-59 | an insertion at or before a deletion commutes with it once the deletion is pushed right |
| Splice.InsertAfterDelete | majormajor/ops/string_insert_op.py:68-69 | an insertion at or after the end of a deletion commutes with it once pulled left by the count |
| Splice.DeleteSwallowsInsert | majormajor/ops/string_delete_op.py:53-55 | a deletion widened by an insertion inside it removes the insertion too |
| Splice.InsertNothing | majormajor/ops/string_insert_op.py:70-74 | inserting nothing changes nothing |
| Splice.DeletesCommute | majormajor/op.py:186-203 | two disjoint deletions commute once the later one is pulled left |
| Splice.DeletesMerge | majormajor/op.py:186-203 | a deletion that reaches the gap a past deletion closed deletes both ranges at once |
| StringRules.InsertPastInsertCases | majormajor/ops/string_insert_op.py:48-53 | the text is kept; the offset moves by the past text's length exactly when it is at or after the past offset; otherwise the offset stays and a hazard of the text's length is reported |
| StringRules.InsertPastInsertExamples | majormajor/ops/string_insert_op.py:48-53 | insertions at 2, 3 and 5 against "ABC" inserted at 3 end at 2, 6 and 8 |
| StringRules.InsertPastDeleteExamples | majormajor/ops/string_insert_op.py:68-76 | against a deletion of 3 at 3: offsets 2 and 3 unchanged with an offset hazard, 4 collapsed to (3, "") with a value hazard, 6 pulled back to 3 |
| StringRules.DeletePastInsertExamples | majormajor/ops/string_delete_op.py:53-64 | against "ABC" inserted at 3: (0,3) kept with an offset hazard of -3, (2,2) widened to 5, (3,2) and (4,2) pushed to 6 and 7 |
| StringRules.DeletePastInsertTotal | majormajor/ops/string_delete_op.py:53-64 | exactly one of the three branches applies to any offsets, and each gives its stated result |
| StringRules.InsertPastInsertConverges | majormajor/ops/string_insert_op.py:48-53 | applying the past insertion then the transformed one equals applying this one then the past one shifted by the hazard |
| StringRules.InsertPastDeleteConverges | majormajor/ops/string_insert_op.py:68-76 | applying the past deletion then the transformed insertion equals applying the insertion then the past deletion shifted and widened by the hazard |
| StringRules.DeletePastInsertConverges | majormajor/ops/string_delete_op.py:53-64 | applying the past insertion then the transformed deletion gives the plain deletion when the insertion fell inside it, and otherwise the deletion then the past insertion shifted by the hazard |
| StringTransform.ShiftPastStringInsertByHazards | majormajor/ops/string_transform_op.py:24-29 | path and text are unchanged, and the offset is shifted by every hazard whose minimum offset the running offset has reached; it fails exactly when a hazard lacks overlap data |
| StringTransform.ShiftPastStringDeleteByHazards | majormajor/ops/string_transform_op.py:31-39 | the offset moves back by the overlap of each hazard it lies beyond, and the count shrinks by the overlap of each hazard based on this deletion; it fails exactly when a hazard lacks overlap data |
| StringTransform.InsertFoldAppend | majormajor/ops/string_transform_op.py:26-28 | hazards apply in list order: folding over two lists is folding over the second from where the first ended |
| StringTransform.InsertFoldEmpty | majormajor/ops/string_transform_op.py:24-29 | with no hazards the offset is unchanged |
| StringTransform.InsertFoldNeverAdvances | majormajor/ops/string_transform_op.py:26-28 | hazards with non-negative shifts can only pull the offset back |
| StringTransform.DeleteFoldCount | majormajor/ops/string_transform_op.py:37-38 | the count ends reduced by the overlaps of exactly the hazards based on this deletion |
| StringTransform.DeleteFoldOffsetIndependent | majormajor/ops/string_transform_op.py:35-36 | the resulting offset does not depend on the count |
| Users.LastOfType | majormajor/user.py:30-32 | found exactly when some entry has the type, and then the data of the last such entry |
| Users.RegisteredLastWins | majormajor/user.py:30-32 | after registering, a type maps to the data of its last entry; a type without an entry keeps what it had or stays absent |
| Users.User.constructor | majormajor/user.py:21-25 | a new user has its id as id and nickname, no documents and no connections |
| Users.User.AddDocument | majormajor/user.py:27-28 | the document joins the set; adding it again changes nothing |
| Users.User.AddConnections | majormajor/user.py:30-32 | each type ends up with the data of its last entry; a type without an entry keeps what it had |
| Users.User.GetPropertiesForConnection | majormajor/user.py:34-35 | the data of the type, and None exactly when the type is unknown |
| Users.User.HasConnection | majormajor/user.py:37-38 | true exactly when the type has data |
| Utils.ResolvedDeps | majormajor/utils.py:28-31 | one dependency per id, in order, each with its id; linked exactly when a document is given and knows the id |
| Utils.ResolvedIds | majormajor/utils.py:28-31 | the ids of the resolved dependencies are the ids they came from |
| Utils.NoDocumentResolvesNothing | majormajor/utils.py:30 | without a document every dependency stays an id |
| Utils.OpDictsAppend | majormajor/utils.py:33-35 | adding one operation at the end adds its dictionary at the end |
| Utils.BuildChangesetFromDict | majormajor/utils.py:21-36 | the new changeset has the dictionary's document id, user and resolved dependencies, no id and one new untransformed op per dictionary in order; sending it again gives back the dictionary with sorted dependency ids |
| Utils.ResolveDependencies | majormajor/utils.py:28-31 | the loop builds `ResolvedDeps` of the ids |
| Utils.AddOps | majormajor/utils.py:33-35 | one fresh op per dictionary, added in order, whose dictionaries are the given ones; nothing else of the changeset changes |
| Utils.AddOneOp | majormajor/utils.py:34-35 | one fresh op built from the dictionary is appended, tied to the changeset |
| OverlapHazard.IndexOf | majormajor/hazard.py:29-32 | `list.index` finds the first position of the op, and fails exactly when the op is absent |
| OverlapHazard.CalculateOverlap | majormajor/hazard.py:36-56 | the minimum offset is the conflict op's offset, the range size is its end minus its start, and the insert shift is the conflict count minus the range size |
| OverlapHazard.NewOverlapHazard | majormajor/hazard.py:22-34 | it fails exactly when an op with a changeset is missing from that changeset's ops; otherwise each index is present exactly when its op has a changeset and locates the op, and the overlap exists exactly when both ops are string deletions |
| OverlapHazard.OverlapIsIntersection | majormajor/hazard.py:43-51 | the overlap range is exactly the positions both deletions remove, and its size is positive exactly when they share one |
| OverlapHazard.OverlapSymmetric | majormajor/hazard.py:43-51 | start, end and size of the overlap do not depend on which deletion is the base |
| OverlapHazard.OverlapExamples | majormajor/hazard.py:43-56 | deletions (3,3) and (5,4) overlap in one position with an insert shift of 3; disjoint ones give a negative size |
| OverlapHazard.GetBaseOpIndexAsWritten | majormajor/hazard.py:70-71 | the getter returns the conflict op's index |
| OverlapHazard.GetBaseOpIndex | majormajor/hazard.py:30-32 | the base op's index the constructor records |
| OverlapHazard.GetBaseOpIndexAsWrittenDiffers | majormajor/hazard.py:70-71 | with the base op at position 1 of its changeset and the conflict op at 0 of its own, the getter reports 0 and the base op's index is 1 |
| OverlapHazard.GetBaseOpIndexIsBasePosition | majormajor/hazard.py:27-32 | for a hazard built with a base changeset, the corrected getter gives the index of the base op in that changeset's ops, and the op at that index is the base op |

## Left out

- Documents.Document.constructor: without an initial value the source ends with `dependencies = [None]` (majormajor/document.py:50), since the root is None; the model starts with no dependencies. That None stays until a local changeset is closed, and every use of it as a changeset raises; the model does not carry it.
- Documents.Document.SyncStatus: while that None dependency is there, `get_sync_status` raises AttributeError on `cs.get_id()` (majormajor/document.py:129); the model returns the two lists.
- Documents.TreeOrder: the rebuilt list is proved to start at the root, to have no repeats and to put parents first, and `InsertIntoOrdered` is proved to keep the ordered list parent-first. Neither proves that the list kept by inserting changesets one at a time equals the list `tree_to_list` rebuilds from the same tree.
- HazardLists.RelevantHazards: the ancestors of the changeset are a parameter `anc`. The model does not tie `anc` to `has_ancestor` over the changeset graph. The errors `has_ancestor` can raise inside the comprehension (ops/op.py:84-85) are not passed on: a parent that is only an id, an unknown changeset, or the recursion limit.
- SHA-1 hashing: the digest that gives a changeset its id is a parameter (`digest`, `digestOf`). Ids are plain strings.
- Randomness: random document ids, `uuid` user ids and the random snapshot- and ancestor-cache flags (majormajor/changeset.py:63-99) are parameters or absent. The snapshot cache is never used, so `rebuild_snapshot` always replays from the start.
- The network and messaging: majormajor/connections/, send.py, message.py, majormajor.py, collaborator/message.py and the user interfaces. They only move the JSON forms around; the JSON forms themselves are modelled (`ToDict`, `ToJsonable`, `BuildChangesetFromDict`).
- majormajor/document.py `get_diff_opcode` (571-591): it is a wrapper around `difflib.SequenceMatcher`, a library outside the model.
- Floating point: `number_add` is modelled on integers only, with booleans counting as 0 and 1 as Python does.
- JSON dicts have string keys only; a non-string key is an `Err` marked as not modelled.
- Comparisons with None, which Python 2 allows, are a `TypeError` (`Err`) in the model wherever a shift or an offset could be None. Adding an absent hazard shift is a TypeError in the class model (`Ops.ShiftedPropsAsWritten`); `Ops.ShiftedProps` and the folds of `StringTransform` count it as 0, which is the intended behaviour behind the second finding below.
- In-place mutation before an exception: when a Python method changes a field and then raises, the model leaves the state as it was, except where a contract says otherwise.
- Document.ot: majormajor/document.py `ot` (390-401), `remove_old_hazards` (403-410) and `rebuild_snapshot` (426-446) are not modelled as document methods. `remove_old_hazards` calls methods the changeset class does not define, so it raises AttributeError. `Documents.Document.PullFromPendingList` and `Documents.Document.ReceiveChangeset` return that AttributeError (`NoRemoveOldHazards`) whenever a pending changeset is activated, in place of running `ot`. The per-operation transformation that `ot` drives is modelled (`Ops.Op.Ot`, `Changesets.Changeset.Ot`), and so is the hazard removal on one operation (`Ops.Op.RemoveOldHazards`).
- majormajor/document.py `request_ancestors` (133-163), `receive_changesets` (255-266), `receive_snapshot` (338-354), `receive_history` (356-367), `set_snapshot` (179-190), `knows_changeset` (192-195), `insert_historical_changeset` (197-205) and `_cs_cannot_be_inserted` (566-569): these build messages for other peers or restore a document from a received snapshot or history. That handling is outside the model; receiving one changeset is modelled (`ReceiveChangeset`).
- majormajor/document.py `get_changesets_in_ranges` (105-118) returns before its loop; the getters of majormajor/document.py (57-131), majormajor/changeset.py, majormajor/op.py, majormajor/hazard.py and majormajor/hazards/hazard.py return a field each and are not separate members.
- majormajor/document.py `contains_path`, `get_node`, `get_value` and `apply_op` (593-607) hand the call to the snapshot, which is modelled (`Snapshots`).
- Python's recursion limit: the recursive walks over the changeset graph take a `fuel` bound; a walk that runs out of fuel stands for a RecursionError.
- ops/op.py `ot` dispatch (172-183): the table names methods for `bn`, `na`, `ai`, `ad`, `am`, `oi` and `od` that no class defines, so the model raises AttributeError for them (`OtRunFailsOnOtherActions`). The helpers `transform_delete_by_previous_delete` and `shift_from_overlaping_delete_ranges` are defined nowhere, so both cases raise as well.
- The `sm` action, `_Document` and `rebuild_historical_document`, and `get_short_id` are referenced or defined outside the files modelled here.
- LegacyDocuments.Lookup: indexing into a string along a transformed path is treated as an error, although Python would return a character.
- ProtoDocuments.GetItem: indexing into a string is treated as an error, although Python would return a character.
- collaborator/document.py `recieve_changeset` (138-153), `ot` (179-188) and collaborator/changeset.py `transform_from_preceding_changesets` (130-142): they call the collaborator's operation class, collaborator/op.py, which is not part of this model. `has_needed_deps` (190-196) always returns True and needs no member.
- collaborator/document.py `insert_historical_changeset` (98-105): it calls `get_dependency`, which the collaborator changeset does not define, so it always raises AttributeError.
- LegacyDocuments.Entry: in the document a collaborator changeset is a value with an id, a dependency id and operations. `insert_changeset_into_changsets` calls `get_dependency_id`, which the collaborator changeset class does not define. `add_local_op` opens a changeset whose dependencies are a single changeset or None, not a list. The document model reads the dependency id straight from the entry.
- LegacyDocuments.LegacyDocument.CloseChangeset: with no open changeset the source appends None before raising; the model raises and leaves the list as it was. The changeset appended before the TypeError is recorded under the id `digest`; in the source its id stays unset and every later `get_id()` on it raises again, which later operations of the model do not reproduce.
- collaborator/changeset.py `to_jsonable`, `to_dict` and `get_id` (144-181): the SHA-1 hash is not modelled. For a changeset the document opens, `get_dependency_ids` raises before any hashing, and `CloseChangeset` returns that TypeError; the ids of other changesets are given.
- LegacyChangesets.MultiScan: the branch of `find_unaccounted_changesets` for several dependencies is modelled as written; it builds a fresh list, so nothing is shared there.
- LegacyChangesets.LegacyChangeset.FollowDependency: the one-dependency branch makes this changeset's list the dependency's own list object (collaborator/changeset.py:60, 101-102), and `+=` (line 127) then extends that object in place. The model writes the same extended value into both changesets' fields. It does not follow the object any further. Another changeset that took over the same list earlier is not updated, nor is a list a caller got from `get_unaccounted_changesets`. Later in-place changes through one of the two changesets do not reach the other.
- Users: a connection is kept as its data string; the transport behind it (majormajor/connections/) is outside the model.
- ProtoDocuments.ProtoDocument.constructor: the shared class attribute `snapshot = {}` of the first prototype's document is one dict for all instances in Python; each `ProtoDocument` has its own snapshot.
- ProtoChangesets.ProtoChangeset.MergeInRemovePair: a prototype changeset's path is a value of its own. In Python the constructor (changeset.py:2, 21) keeps the caller's list object, and every changeset built without a path shares the one default list `path=[]`. The append of changeset.py:55 reaches only the past changeset's path in the model, not the other changesets holding the same list. So the model does not reproduce a merge that changes a changeset through a shared path, nor the default path growing for later changesets. `ProtoChangesets.ProtoChangeset.constructor` stores the path as a value for the same reason.
- The test files are not part of the model; a few of their cases appear as example lemmas.

## Findings

| source | as written | input that shows it | evidently intended | confidence | as-written member | corrected member |
|---|---|---|---|---|---|---|
| majormajor/op.py:196-203 | a deletion that starts inside a past deletion and ends before it gets the count `op.t_offset - self.t_offset` (past offset minus own offset), which is negative when it starts after the past one | delete 1 at 4 against a past delete of 3 at 3 gives a delete of -1 at 4; "ABCDEFG" then ends as "ABCGG" one way round and "ABCG" the other | the deletion becomes empty: both orders give "ABCG" | high, not executed | EarlyOps.DeletePastDeleteAsWrittenDiverges | EarlyOps.DeletePastDeleteConverges |
| majormajor/ops/string_delete_op.py:37-39 | the loop adds both `get_offset_shift()` and `get_val_shift()` of every relevant hazard, but a rule's hazard sets only one of them, so `None` is added and TypeError is raised | an insertion at 4 against a past deletion of 3 at 3 records a value hazard of 3; shifting the deletion by it raises | an absent shift counts as zero: the deletion widens to 6 and the two edits commute | high, not executed | HazardConvergence.ShiftedAsWrittenRejectsRuleHazards | HazardConvergence.HazardShiftedInsertPastDelete |
| majormajor/changeset.py:204-212 | `relink_changesets` removes the id and appends the object while indexing the same list, so the entry after a relinked one is skipped | parents `["a", "b"]`, both known: the result is `["b", <a>]`, and "b" stays an id | every known id is replaced by its object | high, not executed | Changesets.RelinkAsWrittenSkips | Changesets.RelinkEachLinksKnown |
| collaborator/document.py:170-173 | the forward loop requires the entry's own id to equal the dependency id, which fails on the entry right after the dependency, so the loop never runs and siblings stay in arrival order. This reads the loop with a changeset that has `get_dependency_id`: the collaborator class defines none, so as the files stand line 160 raises AttributeError before either loop | with d known, receiving b then c gives `[d, c, b]`; receiving c then b gives `[d, b, c]` | siblings with the same dependency are ordered by id, whatever order they arrive in | high, not executed | LegacyDocuments.InsertAsWrittenDiverges | LegacyDocuments.InsertOrderedConverges |
| majormajor/hazard.py:70-71 | `get_base_op_index` returns `self.conflict_op_index` | base op at position 1 of its changeset, conflict op at position 0 of its own: the getter gives 0 | the base op's index, here 1, which the constructor records at lines 30-32 | high, not executed | OverlapHazard.GetBaseOpIndexAsWrittenDiffers | OverlapHazard.GetBaseOpIndexIsBasePosition |
