# Binding/ACL synchroniser of the node binding dialog

This project models the core of the dashboard's node binding dialog
(`dashboard/src/components/dialogs/binding/node-binding-dialog.ts`). The
dialog keeps two remote lists of a Matter network in step:

- the Binding list of one endpoint, attribute path `<endpoint>/30/0`
  (Binding cluster 0x001E, section 9.6 of the Matter Core Specification);
- the node-global Access Control List, attribute path `0/31/0`
  (Access Control cluster 0x001F, section 9.10).

Adding a binding first appends one ACE (privilege 5, Administer; auth mode
2, CASE) to the target node's ACL. It appends the BindingEntry to this
endpoint's Binding list only when that write is confirmed with status 0
at key `"0"`. Deleting a binding first writes the target node's ACL with
every ACE revoked for this node and the deleted entry's target endpoint
(the `endpoint` field of that BindingEntry, not the dialog's own
endpoint). It then writes the Binding list without the deleted position
and removes that position from the local attribute cache.

Layout:

- `binding_types.dfy` (`BindingTypes`): the decoded entry records, the
  JavaScript value shapes the code depends on, and the remote calls.
  - `Completion` is a normal value or a throw.
  - `Nullable` is a value, `undefined` or `null`.
- `attribute_paths.dfy` (`AttributePaths`): the attribute path strings.
- `binding_logic.dfy` (`BindingLogic`): the pure parts of the dialog.
  These are positional removal, the ACE pruning rule, the revoked ACL
  list, input validation, and construction of the new ACE and BindingEntry.
- `node_binding_dialog.dfy` (`BindingDialog`): two classes.
  - `MatterClient` holds the per-node attribute cache
    `map<nat, map<string, seq<Raw>>>` and a log of every write issued,
    with its outcome. Each outcome is chosen nondeterministically: a throw,
    or a status map.
  - `NodeBindingDialog` holds the fetch functions and the handlers. The
    handlers are methods over the client's state.

Modelling assumption: the dialog's `node` object is the client's cache
entry for the same node id, so the assignment to `this.node!.attributes`
(line 138) is modelled as an update of the client's cache. Client writes
are requests to the remote node and leave the cache as it was. Only the
delete path's cache update changes the cache here.

A decoded BindingEntry may lack `node` and `endpoint` (a group binding
names a group instead). Both fields are therefore optional in the model:

- Deleting an entry without `node` reads `this.client.nodes[undefined]`
  (line 59). That throws, the handler's catch takes it, and nothing is
  written (`DeleteBindingHandler`).
- Deleting an entry without `endpoint` compares every target endpoint with
  `undefined` (line 107). It revokes each ACE of this node that has a
  target open on the endpoint dimension, and no ACE the dialog itself
  grants (`EndpointlessDeleteHitsOpenTargets`).

Behaviour of the code that the model keeps as written:

- Revoked ACEs become holes. `removeEntryAtACL` returns `undefined`, and
  the filter on line 93 drops only `null`. The list written on a delete
  therefore has the same length as the list read, with `undefined` where
  each revoked ACE was (`RemoveNodeAtACL`, `DeleteScenarioLeavesHole`).
  The list sent on a delete is never shorter than the list read.
- The delete path never reads a write status. Only a throw stops it, so
  the Binding write follows an ACL write that returned a non-zero status.
- The add path checks only the status at key `"0"`, and not every entry.
- An index outside the snapshot raises no dedicated error. The TypeError
  it causes is caught and nothing is written.
- An ACE whose `subjects` is null throws (`subjects!`). So does an ACE
  that names the node but has null `targets`. A delete that meets either
  writes nothing.
- Pruning is coarse. Deleting one binding also revokes a grant that
  serves another binding of the same node to the same endpoint
  (`RevocationAlsoHitsSiblingGrant`).
- If this endpoint's Binding list is missing after the ACL grant
  succeeded, the add path throws out of the handler. The grant then
  stays in place with no binding.

## Model

| member | source | states |
|---|---|---|
| `AttributePaths.DecimalString` | dashboard/src/components/dialogs/binding/node-binding-dialog.ts:51 | the endpoint is printed as a non-empty string of decimal digits, one digit exactly when it is below 10, starting with `0` only for 0 (no leading zero) |
| `AttributePaths.DecimalStringValue` | dashboard/src/components/dialogs/binding/node-binding-dialog.ts:51 | the printed string is the decimal numeral of the endpoint: reading its digits back, most significant first, gives the endpoint |
| `AttributePaths.DecimalStringInjective` | dashboard/src/components/dialogs/binding/node-binding-dialog.ts:129 | two endpoints that print the same are the same endpoint |
| `AttributePaths.BindingPath` | dashboard/src/components/dialogs/binding/node-binding-dialog.ts:51 | the Binding key (built the same way at line 129) is the endpoint's decimal numeral (all digits, read back as the endpoint, no leading zero) followed by `/30/0` |
| `AttributePaths.BindingPathIsNotAclPath` | dashboard/src/components/dialogs/binding/node-binding-dialog.ts:59 | no endpoint's Binding path `<endpoint>/30/0` equals the ACL path `0/31/0` |
| `AttributePaths.BindingPathInjective` | dashboard/src/components/dialogs/binding/node-binding-dialog.ts:129 | distinct endpoints have distinct Binding paths |
| `BindingLogic.FilterSeq` | dashboard/src/components/dialogs/binding/node-binding-dialog.ts:93 | the filter never grows the list, keeps or drops a one-element list by the test, and returns the list unchanged when every element passes |
| `BindingLogic.FilterSeqAppend` | dashboard/src/components/dialogs/binding/node-binding-dialog.ts:93 | filtering a concatenation is the concatenation of the filtered parts, so the kept elements stay in their original order; with the one-element case this fixes the result for every list |
| `BindingLogic.FilterSeqCounts` | dashboard/src/components/dialogs/binding/node-binding-dialog.ts:93 | each value that passes the test occurs in the result exactly as often as in the input, and a value that fails does not occur |
| `BindingLogic.FilterSeqMembers` | dashboard/src/components/dialogs/binding/node-binding-dialog.ts:106-108 | every element of the result is an input element that passes the test, and every passing input element is in the result |
| `BindingLogic.DecodeAll` | dashboard/src/components/dialogs/binding/node-binding-dialog.ts:52-54 | the decoded list has the length of the raw list and holds, at each position, the decoding of the raw value there |
| `BindingLogic.RelativeIndex` | dashboard/src/components/dialogs/binding/node-binding-dialog.ts:116 | resolves a `slice` argument as JavaScript does: an index within the list is kept, one past the end becomes the length, a negative one counts back from the end, and one before the start becomes 0 |
| `BindingLogic.Slice` | dashboard/src/components/dialogs/binding/node-binding-dialog.ts:116 | `slice(start, end)` never grows the list; for bounds within the list it is the elements from start up to end; it is empty from the end onward or when end does not pass start; an end past the list stops at the list end |
| `BindingLogic.RemoveBindingAtIndex` | dashboard/src/components/dialogs/binding/node-binding-dialog.ts:112-117 | for an index inside the list the result is the list with that position cut out; for an index at or past the end the list is returned unchanged |
| `BindingLogic.RemoveBindingAtIndexRemovesOne` | dashboard/src/components/dialogs/binding/node-binding-dialog.ts:112-117 | removal at a valid index makes the list one shorter, keeps the earlier entries in place, shifts the later ones down by one in the same order, and drops exactly that one entry from the multiset |
| `BindingLogic.RemoveAppendedBinding` | dashboard/src/components/dialogs/binding/node-binding-dialog.ts:112-117 | removing the entry that was just appended at the end gives back the list before the append |
| `BindingLogic.RemoveEntryAtACL` | dashboard/src/components/dialogs/binding/node-binding-dialog.ts:98-110 | throws exactly when subjects is null, or when the node is a subject and targets is null; otherwise the result is the entry itself or `undefined`, and it is `undefined` exactly when the node is a subject and some target's endpoint equals the given endpoint (an absent endpoint matches exactly the targets without one) |
| `BindingLogic.RevocationIgnoresClusterAndDeviceType` | dashboard/src/components/dialogs/binding/node-binding-dialog.ts:103-109 | two ACEs with the same subjects and the same target endpoints, position by position, are revoked or kept alike (and throw alike), whatever their target clusters, device types, privilege, auth mode or fabric |
| `BindingLogic.PruneEach` | dashboard/src/components/dialogs/binding/node-binding-dialog.ts:89-92 | the map throws exactly when the rule throws on some ACE; otherwise each position holds the rule's result for the ACE at that position |
| `BindingLogic.RemoveNodeAtACL` | dashboard/src/components/dialogs/binding/node-binding-dialog.ts:87-93 | the ACL list to write has the same length as the list read; each position holds the original ACE, or an `undefined` hole exactly where the ACE is revoked; nothing is reordered or added; it throws exactly when some ACE makes the rule throw |
| `BindingLogic.DeleteScenarioLeavesHole` | dashboard/src/components/dialogs/binding/node-binding-dialog.ts:87-117 | for node 10's binding to node 20 endpoint 1, the Binding list becomes empty and the ACL written to node 20 is one `undefined` hole, not an empty list |
| `BindingLogic.ValidateTarget` | dashboard/src/components/dialogs/binding/node-binding-dialog.ts:204-240 | the form is accepted exactly when node id is present and in [1, 65535], endpoint is present and in [1, 0xFFFE], and cluster is absent or in [0, 0x7FFF]; otherwise it reports the first failing field in the order node, endpoint, cluster; an accepted form carries the entered values |
| `BindingLogic.GrantIsRevokedByMatchingDelete` | dashboard/src/components/dialogs/binding/node-binding-dialog.ts:242-269 | the BindingEntry an add creates names the node that received the new ACE, and deleting that entry revokes that ACE |
| `BindingLogic.RevocationAlsoHitsSiblingGrant` | dashboard/src/components/dialogs/binding/node-binding-dialog.ts:106-109 | deleting a binding revokes the ACE granted for any other binding of the same source to the same endpoint, whatever its cluster |
| `BindingLogic.RevocationSparesUnrelatedGrant` | dashboard/src/components/dialogs/binding/node-binding-dialog.ts:103-109 | an ACE granted to another source node, or for another endpoint, is kept unchanged by a delete |
| `BindingLogic.GrantListAppendsOne` | dashboard/src/components/dialogs/binding/node-binding-dialog.ts:155-158 | the ACL list written on add is the decoded list, position by position, followed by exactly one new ACE, with no holes |
| `BindingLogic.NewAce` | dashboard/src/components/dialogs/binding/node-binding-dialog.ts:242-254 | the granted ACE has privilege 5 (Administer), auth mode 2 (CASE), this node as its only subject, exactly one target naming the target endpoint and the entered cluster with no device type, and the client's fabric |
| `BindingLogic.NewBindingEntry` | dashboard/src/components/dialogs/binding/node-binding-dialog.ts:262-269 | the appended BindingEntry names the target node and endpoint, carries the entered cluster and the client's fabric, and has no group |
| `BindingLogic.EndpointlessDeleteHitsOpenTargets` | dashboard/src/components/dialogs/binding/node-binding-dialog.ts:98-110 | deleting an entry without an endpoint revokes an ACE of this node whose target has no endpoint, and keeps every ACE the dialog grants |
| `BindingDialog.CacheAfterDelete` | dashboard/src/components/dialogs/binding/node-binding-dialog.ts:129-138 | the cache after a delete keeps every node and every path; every other node and every other path of this node keep their lists; the edited Binding list is the cached one with position `index` removed |
| `BindingDialog.CacheAfterDeleteChangesOnePath` | dashboard/src/components/dialogs/binding/node-binding-dialog.ts:129-138 | the node's ACL and its other endpoints' Binding lists are untouched by the delete's cache update, and the edited list loses exactly the deleted entry: one shorter, and its multiset less that one entry |
| `BindingDialog.MatterClient.SetACLEntry` | dashboard/src/components/dialogs/binding/node-binding-dialog.ts:95 | one ACL write for the given node is logged after all earlier calls, with its outcome; the cache is untouched |
| `BindingDialog.MatterClient.SetNodeBinding` | dashboard/src/components/dialogs/binding/node-binding-dialog.ts:123-127 | one Binding write for the given node and endpoint is logged after all earlier calls, with its outcome; the cache is untouched |
| `BindingDialog.NodeBindingDialog.FetchBindingEntry` | dashboard/src/components/dialogs/binding/node-binding-dialog.ts:50-55 | reading succeeds exactly when the node's cache has this endpoint's Binding path; the result decodes that list entry by entry, in order |
| `BindingDialog.NodeBindingDialog.FetchACLEntry` | dashboard/src/components/dialogs/binding/node-binding-dialog.ts:57-63 | reading succeeds exactly when the target node id is present, the node is cached and has the ACL path; the result decodes that list entry by entry, in order |
| `BindingDialog.NodeBindingDialog.RevokedAcl` | dashboard/src/components/dialogs/binding/node-binding-dialog.ts:87-93 | the list a revocation would send: it throws when the ACL cannot be read or some ACE makes the pruning rule throw; otherwise it has one slot per cached ACE, holding that ACE decoded or an `undefined` hole exactly where it is revoked for the source node and endpoint |
| `BindingDialog.NodeBindingDialog.RemoveNodeAtACLEntry` | dashboard/src/components/dialogs/binding/node-binding-dialog.ts:82-96 | when the ACL cannot be read or pruned nothing is sent; otherwise exactly one ACL write of the pruned list goes to the target node, and the step completes exactly when that write did not throw, whatever statuses it returned |
| `BindingDialog.NodeBindingDialog.SyncBindingUpdates` | dashboard/src/components/dialogs/binding/node-binding-dialog.ts:119-140 | exactly one Binding write is sent; the cache changes only after that write returned, and then only by removing position `index` at this endpoint's path |
| `BindingDialog.NodeBindingDialog.DeleteBindingHandler` | dashboard/src/components/dialogs/binding/node-binding-dialog.ts:65-80 | an unreadable snapshot or an index outside it sends nothing; otherwise the pruned ACL goes to the snapshot entry's node for its endpoint before any Binding write; a thrown ACL step means no Binding write; after the ACL call returns, the Binding write carries the snapshot without that position; the cache changes exactly when that write returned too; deleting an entry without a node sends nothing |
| `BindingDialog.NodeBindingDialog.UpdateEntry` | dashboard/src/components/dialogs/binding/node-binding-dialog.ts:147-163 | instantiated as `add_target_acl` calls it (ACL path, ACE decoder, `setACLEntry`): a missing node or ACL path sends nothing and yields undefined; otherwise exactly one ACL write of the decoded list plus the new entry is sent, and its statuses are returned unless it threw |
| `BindingDialog.NodeBindingDialog.AddTargetAcl` | dashboard/src/components/dialogs/binding/node-binding-dialog.ts:165-182 | the grant is reported only when the ACL was readable, exactly one write of the extended list was sent, and it returned status 0 at key "0" |
| `BindingDialog.NodeBindingDialog.AddBindings` | dashboard/src/components/dialogs/binding/node-binding-dialog.ts:184-201 | a missing Binding list throws before anything is sent; otherwise exactly one Binding write of the list with the entry appended is sent, and success means status 0 at key "0" |
| `BindingDialog.NodeBindingDialog.AddBindingHandler` | dashboard/src/components/dialogs/binding/node-binding-dialog.ts:203-279 | an invalid form sends nothing and reports the failing field; a valid one sends the ACL grant (existing ACEs plus the new ACE for this node) first; the Binding write with the new entry appended follows only when the grant returned status 0 at key "0"; the form is cleared exactly when the Binding write is confirmed the same way; the cache never changes |

## Left out

- Rendering, styles, opening and closing the dialog, and removing it from the DOM (`render`, `styles`, `_close`, `_handleClosed`) are user interface.
- `onChange` field-error flagging is user-interface validation on the text fields.
- The data transformers of `./model` and `../acl/model` are not part of this model. They are opaque total decoders supplied to the dialog's constructor. No decode/encode round trip is stated, and the JSON encoding of the written lists (where an `undefined` hole is sent as `null`) is not modelled.
- `parseInt` and NaN: the text fields are modelled as already parsed numbers, with `None` for an empty field. Non-numeric text gives NaN, which passes the `<=`/`>` checks; this is not modelled.
- The transport, `async`/`await` and the `@consume` context are not modelled. The calls run in sequence. Nothing else changes the cache between awaits, so a stale snapshot index is not modelled. Updates the server pushes after a write are not modelled either.
- `alert`, `console` logging, `handleBindingDeletionError` and `requestUpdate` are side effects with no modelled state. A rejected handler promise is reported as a result value.
- Status entries are modelled as integers. An entry that lacks a `Status` field would compare unequal to 0, which is the same outcome as a non-zero status.
- Compensating rollback of a grant and per-key serialisation of writes do not exist in the code.
- Reading `this.client.connection.serverInfo!.fabric_id` (lines 253 and 268) throws out of `addBindingHandler` before any write when the connection has no server info; the model takes the fabric id as a constant of the client and does not model that case. The code stores the server's `fabric_id` in the `fabricIndex` field of both new entries, and the model keeps this as written.
- `BindingLogic.RemoveBindingAtIndex`: its contract says nothing about negative indices. The handler rejects them before calling it, and the dialog only passes list positions.
