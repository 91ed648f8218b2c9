/**
 * The node binding dialog's handlers over the client's per-node attribute
 * cache: adding a binding (grant on the target node's ACL, then append to
 * this endpoint's Binding list) and deleting one (revoke on the target
 * node's ACL, then remove from the Binding list and from the local cache).
 *
 * The dialog's own node object is the client's cache entry for `nodeId`.
 * Client writes are requests to the remote node; they do not change the
 * cache, which the server refreshes later (not part of this model).
 */
module BindingDialog {
  import opened BindingTypes
  import opened AttributePaths
  import opened BindingLogic

  /** `after` is `before` followed by one call, for `request`. */
  ghost predicate IssuedOne(before: seq<RemoteCall>, after: seq<RemoteCall>, request: RemoteWrite) {
    && |after| == |before| + 1
    && after[..|before|] == before
    && after[|before|].request == request
  }

  /** `after` is `before` followed by two calls, for `first` and then `second`. */
  ghost predicate IssuedTwo(before: seq<RemoteCall>, after: seq<RemoteCall>, first: RemoteWrite, second: RemoteWrite) {
    && |after| == |before| + 2
    && after[..|before|] == before
    && after[|before|].request == first
    && after[|before| + 1].request == second
  }

  /** Two calls issued one after the other appear in the log in that order. */
  lemma IssuedInSequence(first: seq<RemoteCall>, middle: seq<RemoteCall>, last: seq<RemoteCall>,
                         earlier: RemoteWrite, later: RemoteWrite)
    requires IssuedOne(first, middle, earlier) && IssuedOne(middle, last, later)
    ensures IssuedTwo(first, last, earlier, later)
    ensures last[|first|] == middle[|first|]
  {
    assert last[|first|] == last[..|middle|][|first|];
    assert last[..|first|] == last[..|middle|][..|first|];
  }

  /**
   * The cache after a confirmed delete: the Binding list at this endpoint's
   * path of `nodeId` with position `index` removed.
   */
  function CacheAfterDelete<Raw>(nodes: map<nat, map<string, seq<Raw>>>, nodeId: nat, endpoint: nat, index: int)
    : (r: map<nat, map<string, seq<Raw>>>)
    requires nodeId in nodes && BindingPath(endpoint) in nodes[nodeId]
    ensures r.Keys == nodes.Keys && r[nodeId].Keys == nodes[nodeId].Keys
    ensures forall n :: n in nodes && n != nodeId ==> r[n] == nodes[n]
    ensures forall path :: path in nodes[nodeId] && path != BindingPath(endpoint) ==> r[nodeId][path] == nodes[nodeId][path]
    ensures r[nodeId][BindingPath(endpoint)] == RemoveBindingAtIndex(nodes[nodeId][BindingPath(endpoint)], index)
  {
    nodes[nodeId := nodes[nodeId][BindingPath(endpoint) := RemoveBindingAtIndex(nodes[nodeId][BindingPath(endpoint)], index)]]
  }

  /**
   * The delete's cache update changes one list only: every other node, the
   * node's ACL and the Binding lists of its other endpoints keep their
   * cached values, and the edited list loses exactly the deleted position.
   */
  lemma CacheAfterDeleteChangesOnePath<Raw>(nodes: map<nat, map<string, seq<Raw>>>, nodeId: nat, endpoint: nat, index: int,
                                            otherNode: nat, otherEndpoint: nat)
    requires nodeId in nodes && BindingPath(endpoint) in nodes[nodeId]
    requires 0 <= index < |nodes[nodeId][BindingPath(endpoint)]|
    requires otherEndpoint != endpoint
    ensures CacheAfterDelete(nodes, nodeId, endpoint, index).Keys == nodes.Keys
    ensures CacheAfterDelete(nodes, nodeId, endpoint, index)[nodeId].Keys == nodes[nodeId].Keys
    ensures otherNode in nodes && otherNode != nodeId ==>
      CacheAfterDelete(nodes, nodeId, endpoint, index)[otherNode] == nodes[otherNode]
    ensures AclPath in nodes[nodeId] ==>
      CacheAfterDelete(nodes, nodeId, endpoint, index)[nodeId][AclPath] == nodes[nodeId][AclPath]
    ensures BindingPath(otherEndpoint) in nodes[nodeId] ==>
      CacheAfterDelete(nodes, nodeId, endpoint, index)[nodeId][BindingPath(otherEndpoint)] == nodes[nodeId][BindingPath(otherEndpoint)]
    ensures |CacheAfterDelete(nodes, nodeId, endpoint, index)[nodeId][BindingPath(endpoint)]|
      == |nodes[nodeId][BindingPath(endpoint)]| - 1
    ensures multiset(CacheAfterDelete(nodes, nodeId, endpoint, index)[nodeId][BindingPath(endpoint)])
      + multiset{nodes[nodeId][BindingPath(endpoint)][index]} == multiset(nodes[nodeId][BindingPath(endpoint)])
  {
    BindingPathIsNotAclPath(endpoint);
    if BindingPath(otherEndpoint) == BindingPath(endpoint) {
      BindingPathInjective(otherEndpoint, endpoint);
    }
    RemoveBindingAtIndexRemovesOne(nodes[nodeId][BindingPath(endpoint)], index);
  }

  /**
   * The revocation step of a delete threw: either nothing was sent, or the
   * one ACL write to `target` was sent and threw.
   */
  ghost predicate RevocationThrewAfter(before: seq<RemoteCall>, after: seq<RemoteCall>, target: Option<nat>,
                                       revoked: Completion<seq<Nullable<AccessControlEntry>>>) {
    || (revoked.Throw? && after == before)
    || (&& revoked.Normal? && target.Some?
        && IssuedOne(before, after, AclWrite(target.value, revoked.value))
        && after[|before|].outcome.Threw?)
  }

  /**
   * A delete went past revocation: the ACL write to `target` was sent and
   * did not throw (whatever its statuses), and then `bindingWrite` was sent.
   */
  ghost predicate RevokedThenWritten(before: seq<RemoteCall>, after: seq<RemoteCall>, target: Option<nat>,
                                     revoked: Completion<seq<Nullable<AccessControlEntry>>>, bindingWrite: RemoteWrite) {
    && revoked.Normal? && target.Some?
    && IssuedTwo(before, after, AclWrite(target.value, revoked.value), bindingWrite)
    && !after[|before|].outcome.Threw?
  }

  /** The client: the attribute cache of every node and the writes issued through it. */
  class MatterClient<Raw> {
    /** `nodes[id].attributes`: attribute path to raw list, per node. */
    var nodes: map<nat, map<string, seq<Raw>>>
    /** Every write issued through the client, in order, with how it completed. */
    var calls: seq<RemoteCall>
    /** `connection.serverInfo.fabric_id`. */
    const fabricId: nat

    constructor (nodes: map<nat, map<string, seq<Raw>>>, fabricId: nat)
      ensures this.nodes == nodes && this.fabricId == fabricId && calls == []
    {
      this.nodes := nodes;
      this.fabricId := fabricId;
      calls := [];
    }

    /** `setACLEntry`: writes the whole ACL of `nodeId`; throws or returns per-entry statuses. */
    method SetACLEntry(nodeId: nat, entries: seq<Nullable<AccessControlEntry>>) returns (outcome: CallOutcome)
      modifies this`calls
      ensures calls == old(calls) + [RemoteCall(AclWrite(nodeId, entries), outcome)]
    {
      outcome :| true;
      calls := calls + [RemoteCall(AclWrite(nodeId, entries), outcome)];
    }

    /** `setNodeBinding`: writes the whole Binding list of one endpoint. */
    method SetNodeBinding(nodeId: nat, endpoint: nat, entries: seq<BindingEntry>) returns (outcome: CallOutcome)
      modifies this`calls
      ensures calls == old(calls) + [RemoteCall(BindingWrite(nodeId, endpoint, entries), outcome)]
    {
      outcome :| true;
      calls := calls + [RemoteCall(BindingWrite(nodeId, endpoint, entries), outcome)];
    }
  }

  /** How a delete ended. */
  datatype DeleteResult =
    | SnapshotUnreadable   // the Binding list could not be read: thrown outside the handler's try
    | IndexOutOfRange      // no snapshot entry at the index: TypeError, caught
    | RevocationThrew      // reading, pruning or writing the target's ACL threw, caught
    | BindingWriteThrew    // the Binding write (or the cache update) threw, caught
    | Deleted

  /** How an add ended. */
  datatype AddResult =
    | Invalid(error: ValidationError)   // an alert; nothing sent
    | AclNotGranted                     // the ACL write was not confirmed at status key "0"
    | BindingSnapshotUnreadable         // the Binding list could not be read: thrown out of the handler
    | BindingNotConfirmed               // the Binding write threw or was not confirmed
    | Added                             // both confirmed; the form was cleared

  class NodeBindingDialog<Raw> {
    const client: MatterClient<Raw>
    /** `node.node_id`: the node whose bindings the dialog edits. */
    const nodeId: nat
    /** The endpoint whose Binding list the dialog edits. */
    const endpoint: nat
    /** `BindingEntryDataTransformer.transform`, an opaque decoder. */
    const decodeBinding: Raw -> BindingEntry
    /** `AccessControlEntryDataTransformer.transform`, an opaque decoder. */
    const decodeAce: Raw -> AccessControlEntry
    /** The three text fields as parsed numbers; `None` is an empty field. */
    var targetNodeIdField: Option<int>
    var targetEndpointField: Option<int>
    var targetClusterField: Option<int>

    constructor (client: MatterClient<Raw>, nodeId: nat, endpoint: nat,
                 decodeBinding: Raw -> BindingEntry, decodeAce: Raw -> AccessControlEntry)
      ensures this.client == client && this.nodeId == nodeId && this.endpoint == endpoint
      ensures this.decodeBinding == decodeBinding && this.decodeAce == decodeAce
      ensures targetNodeIdField.None? && targetEndpointField.None? && targetClusterField.None?
    {
      this.client := client;
      this.nodeId := nodeId;
      this.endpoint := endpoint;
      this.decodeBinding := decodeBinding;
      this.decodeAce := decodeAce;
      targetNodeIdField, targetEndpointField, targetClusterField := None, None, None;
    }

    /** `fetchBindingEntry`: this endpoint's decoded Binding list; a missing list throws. */
    function FetchBindingEntry(): (r: Completion<seq<BindingEntry>>)
      reads client
      ensures r.Normal? <==> nodeId in client.nodes && BindingPath(endpoint) in client.nodes[nodeId]
      ensures r.Normal? ==> |r.value| == |client.nodes[nodeId][BindingPath(endpoint)]|
      ensures r.Normal? ==> forall k :: 0 <= k < |r.value| ==>
        r.value[k] == decodeBinding(client.nodes[nodeId][BindingPath(endpoint)][k])
    {
      if nodeId in client.nodes && BindingPath(endpoint) in client.nodes[nodeId] then
        Normal(DecodeAll(client.nodes[nodeId][BindingPath(endpoint)], decodeBinding))
      else
        Throw
    }

    /**
     * `fetchACLEntry`: the target node's decoded ACL. An absent node id
     * (`undefined`, from a group binding), an uncached node or a missing
     * list throws.
     */
    function FetchACLEntry(targetNodeId: Option<nat>): (r: Completion<seq<AccessControlEntry>>)
      reads client
      ensures r.Normal? <==>
        targetNodeId.Some? && targetNodeId.value in client.nodes && AclPath in client.nodes[targetNodeId.value]
      ensures r.Normal? ==> |r.value| == |client.nodes[targetNodeId.value][AclPath]|
      ensures r.Normal? ==> forall k :: 0 <= k < |r.value| ==>
        r.value[k] == decodeAce(client.nodes[targetNodeId.value][AclPath][k])
    {
      if targetNodeId.Some? && targetNodeId.value in client.nodes && AclPath in client.nodes[targetNodeId.value] then
        Normal(DecodeAll(client.nodes[targetNodeId.value][AclPath], decodeAce))
      else
        Throw
    }

    /**
     * The ACL list a revocation sends to `targetNodeId`, or `Throw` when it
     * cannot be computed: the cached ACL, decoded, with an `undefined` hole
     * in place of every ACE revoked for the source node and endpoint.
     */
    function RevokedAcl(sourceNodeId: nat, sourceEndpoint: Option<nat>, targetNodeId: Option<nat>)
      : (r: Completion<seq<Nullable<AccessControlEntry>>>)
      reads client
      ensures FetchACLEntry(targetNodeId).Throw? ==> r.Throw?
      ensures FetchACLEntry(targetNodeId).Normal? ==>
        var acl := FetchACLEntry(targetNodeId).value;
        && (r.Throw? <==> exists k :: 0 <= k < |acl| && RemoveEntryAtACL(sourceNodeId, sourceEndpoint, acl[k]).Throw?)
        && (r.Normal? ==> |r.value| == |client.nodes[targetNodeId.value][AclPath]|)
        && (r.Normal? ==> forall k :: 0 <= k < |r.value| ==>
              var ace := decodeAce(client.nodes[targetNodeId.value][AclPath][k]);
              r.value[k] == (if RevokedBy(sourceNodeId, sourceEndpoint, ace) then Undefined else Present(ace)))
    {
      match FetchACLEntry(targetNodeId)
      case Throw => Throw
      case Normal(acl) => RemoveNodeAtACL(sourceNodeId, sourceEndpoint, acl)
    }

    /**
     * `removeNodeAtACLEntry`: writes the pruned ACL to the target node.
     * `completed` is false when it threw; the write's statuses are ignored.
     */
    method RemoveNodeAtACLEntry(sourceNodeId: nat, sourceEndpoint: Option<nat>, targetNodeId: Option<nat>) returns (completed: bool)
      modifies client`calls
      ensures old(RevokedAcl(sourceNodeId, sourceEndpoint, targetNodeId)).Throw? ==>
        !completed && client.calls == old(client.calls)
      ensures old(RevokedAcl(sourceNodeId, sourceEndpoint, targetNodeId)).Normal? ==>
        && targetNodeId.Some?
        && IssuedOne(old(client.calls), client.calls,
                     AclWrite(targetNodeId.value, old(RevokedAcl(sourceNodeId, sourceEndpoint, targetNodeId)).value))
        && (completed <==> !client.calls[|old(client.calls)|].outcome.Threw?)
    {
      var aclEntries := FetchACLEntry(targetNodeId);
      if aclEntries.Throw? {
        return false;
      }
      var updatedACLEntries := RemoveNodeAtACL(sourceNodeId, sourceEndpoint, aclEntries.value);
      if updatedACLEntries.Throw? {
        return false;
      }
      var outcome := client.SetACLEntry(targetNodeId.value, updatedACLEntries.value);
      completed := !outcome.Threw?;
    }

    /**
     * `syncBindingUpdates`: writes the new Binding list, then removes
     * position `index` from the cached list at this endpoint's path.
     */
    method SyncBindingUpdates(updatedBindings: seq<BindingEntry>, index: int) returns (completed: bool)
      modifies client
      ensures IssuedOne(old(client.calls), client.calls, BindingWrite(nodeId, endpoint, updatedBindings))
      ensures completed <==>
        && !client.calls[|old(client.calls)|].outcome.Threw?
        && nodeId in old(client.nodes) && BindingPath(endpoint) in old(client.nodes)[nodeId]
      ensures completed ==>
        && nodeId in old(client.nodes) && BindingPath(endpoint) in old(client.nodes)[nodeId]
        && client.nodes == CacheAfterDelete(old(client.nodes), nodeId, endpoint, index)
      ensures !completed ==> client.nodes == old(client.nodes)
    {
      var outcome := client.SetNodeBinding(nodeId, endpoint, updatedBindings);
      if outcome.Threw? {
        return false;
      }
      var attributePath := BindingPath(endpoint);
      if nodeId !in client.nodes || attributePath !in client.nodes[nodeId] {
        return false;
      }
      var attributes := client.nodes[nodeId];
      client.nodes := client.nodes[nodeId := attributes[attributePath := RemoveBindingAtIndex(attributes[attributePath], index)]];
      completed := true;
    }

    /**
     * `deleteBindingHandler`: revoke the ACE on the snapshot entry's node,
     * then write the Binding list without position `index` and update the
     * cache. Only a throw stops it; write statuses are never inspected.
     */
    method DeleteBindingHandler(index: int) returns (r: DeleteResult)
      modifies client
      ensures r == SnapshotUnreadable <==> old(FetchBindingEntry()).Throw?
      ensures r == IndexOutOfRange <==>
        old(FetchBindingEntry()).Normal? && !(0 <= index < |old(FetchBindingEntry()).value|)
      ensures r == SnapshotUnreadable || r == IndexOutOfRange ==> client.calls == old(client.calls)
      ensures r != Deleted ==> client.nodes == old(client.nodes)
      ensures r == RevocationThrew || r == BindingWriteThrew || r == Deleted ==>
        old(FetchBindingEntry()).Normal? && 0 <= index < |old(FetchBindingEntry()).value|
      ensures r == RevocationThrew ==>
        && old(FetchBindingEntry()).Normal? && 0 <= index < |old(FetchBindingEntry()).value|
        && var entry := old(FetchBindingEntry()).value[index];
           RevocationThrewAfter(old(client.calls), client.calls, entry.node,
                                old(RevokedAcl(nodeId, entry.endpoint, entry.node)))
      ensures r == BindingWriteThrew || r == Deleted ==>
        && old(FetchBindingEntry()).Normal? && 0 <= index < |old(FetchBindingEntry()).value|
        && var entry := old(FetchBindingEntry()).value[index];
           && RevokedThenWritten(old(client.calls), client.calls, entry.node,
                                 old(RevokedAcl(nodeId, entry.endpoint, entry.node)),
                                 BindingWrite(nodeId, endpoint, RemoveBindingAtIndex(old(FetchBindingEntry()).value, index)))
           && (r == Deleted <==> !client.calls[|old(client.calls)| + 1].outcome.Threw?)
      ensures r == Deleted ==>
        && nodeId in old(client.nodes) && BindingPath(endpoint) in old(client.nodes)[nodeId]
        && client.nodes == CacheAfterDelete(old(client.nodes), nodeId, endpoint, index)
      ensures old(FetchBindingEntry()).Normal? && 0 <= index < |old(FetchBindingEntry()).value|
              && old(FetchBindingEntry()).value[index].node.None? ==>
        r == RevocationThrew && client.calls == old(client.calls)
    {
      var rawBindings := FetchBindingEntry();
      if rawBindings.Throw? {
        return SnapshotUnreadable;
      }
      if !(0 <= index < |rawBindings.value|) {
        return IndexOutOfRange;
      }
      var targetNodeId := rawBindings.value[index].node;
      var targetEndpoint := rawBindings.value[index].endpoint;
      ghost var acl := RevokedAcl(nodeId, targetEndpoint, targetNodeId);
      var revoked := RemoveNodeAtACLEntry(nodeId, targetEndpoint, targetNodeId);
      if !revoked {
        assert RevocationThrewAfter(old(client.calls), client.calls, targetNodeId, acl);
        return RevocationThrew;
      }
      ghost var afterRevocation := client.calls;
      var updatedBindings := RemoveBindingAtIndex(rawBindings.value, index);
      var synced := SyncBindingUpdates(updatedBindings, index);
      IssuedInSequence(old(client.calls), afterRevocation, client.calls,
                       AclWrite(targetNodeId.value, acl.value), BindingWrite(nodeId, endpoint, updatedBindings));
      assert RevokedThenWritten(old(client.calls), client.calls, targetNodeId, acl,
                                BindingWrite(nodeId, endpoint, updatedBindings));
      r := if synced then Deleted else BindingWriteThrew;
    }

    /**
     * `_updateEntry` as its one caller `add_target_acl` instantiates it:
     * the path is the ACL path "0/31/0", the transform is `decodeAce` and
     * the update is `setACLEntry`. It reads and decodes the target's ACL,
     * pushes `entry` and writes the list. A throw anywhere is caught and
     * yields `None` (`undefined`).
     */
    method UpdateEntry(targetId: nat, entry: AccessControlEntry) returns (result: Option<CallOutcome>)
      modifies client`calls
      ensures !(targetId in old(client.nodes) && AclPath in old(client.nodes)[targetId]) ==>
        result == None && client.calls == old(client.calls)
      ensures targetId in old(client.nodes) && AclPath in old(client.nodes)[targetId] ==>
        && IssuedOne(old(client.calls), client.calls,
                     AclWrite(targetId, GrantList(DecodeAll(old(client.nodes)[targetId][AclPath], decodeAce), entry)))
        && result == (if client.calls[|old(client.calls)|].outcome.Threw? then None
                      else Some(client.calls[|old(client.calls)|].outcome))
    {
      if targetId !in client.nodes || AclPath !in client.nodes[targetId] {
        return None;
      }
      var entries := DecodeAll(client.nodes[targetId][AclPath], decodeAce);
      entries := entries + [entry];
      var outcome := client.SetACLEntry(targetId, Lift(entries));
      result := if outcome.Threw? then None else Some(outcome);
    }

    /** `add_target_acl`: grant `entry` on the target's ACL; true only on status 0 at key "0". */
    method AddTargetAcl(targetNodeId: nat, entry: AccessControlEntry) returns (granted: bool)
      modifies client`calls
      ensures old(FetchACLEntry(Some(targetNodeId))).Throw? ==> !granted && client.calls == old(client.calls)
      ensures old(FetchACLEntry(Some(targetNodeId))).Normal? ==>
        && IssuedOne(old(client.calls), client.calls, AclWrite(targetNodeId, GrantList(old(FetchACLEntry(Some(targetNodeId))).value, entry)))
        && (granted <==> FirstEntryOk(client.calls[|old(client.calls)|].outcome))
    {
      var result := UpdateEntry(targetNodeId, entry);
      if result.None? {
        return false;
      }
      var statuses := result.value.statuses;
      granted := "0" in statuses && statuses["0"] == 0;
    }

    /**
     * `add_bindings`: append `bindingEntry` to this endpoint's Binding list
     * and write it. Reading the list is outside the try, so a missing list
     * throws out; a throwing write gives false.
     */
    method AddBindings(bindingEndpoint: nat, bindingEntry: BindingEntry) returns (r: Completion<bool>)
      modifies client`calls
      ensures old(FetchBindingEntry()).Throw? ==> r.Throw? && client.calls == old(client.calls)
      ensures old(FetchBindingEntry()).Normal? ==>
        && r.Normal?
        && IssuedOne(old(client.calls), client.calls, BindingWrite(nodeId, bindingEndpoint, old(FetchBindingEntry()).value + [bindingEntry]))
        && (r.value <==> FirstEntryOk(client.calls[|old(client.calls)|].outcome))
    {
      var bindings := FetchBindingEntry();
      if bindings.Throw? {
        return Throw;
      }
      var entries := bindings.value + [bindingEntry];
      var outcome := client.SetNodeBinding(nodeId, bindingEndpoint, entries);
      if outcome.Threw? {
        return Normal(false);
      }
      return Normal("0" in outcome.statuses && outcome.statuses["0"] == 0);
    }

    /**
     * `addBindingHandler`: validate the form, grant the ACE on the target
     * node, and only if that write is confirmed append the BindingEntry;
     * clear the form only if the Binding write is confirmed too.
     */
    method AddBindingHandler() returns (r: AddResult)
      modifies this, client`calls
      ensures var v := ValidateTarget(old(targetNodeIdField), old(targetEndpointField), old(targetClusterField));
        && (r.Invalid? <==> v.Err?)
        && (v.Err? ==> r == Invalid(v.error) && client.calls == old(client.calls))
      ensures r == Added ==> targetNodeIdField.None? && targetEndpointField.None? && targetClusterField.None?
      ensures r != Added ==>
        && targetNodeIdField == old(targetNodeIdField)
        && targetEndpointField == old(targetEndpointField)
        && targetClusterField == old(targetClusterField)
      ensures var v := ValidateTarget(old(targetNodeIdField), old(targetEndpointField), old(targetClusterField));
        v.Ok? && old(FetchACLEntry(Some(v.value.node))).Throw? ==>
          r == AclNotGranted && client.calls == old(client.calls)
      ensures var v := ValidateTarget(old(targetNodeIdField), old(targetEndpointField), old(targetClusterField));
        v.Ok? && old(FetchACLEntry(Some(v.value.node))).Normal? ==>
          var target := v.value;
          var grant := AclWrite(target.node, GrantList(old(FetchACLEntry(Some(target.node))).value,
                                                       NewAce(nodeId, target, client.fabricId)));
          var snapshot := old(FetchBindingEntry());
          && (r == AclNotGranted ==>
                IssuedOne(old(client.calls), client.calls, grant)
                && !FirstEntryOk(client.calls[|old(client.calls)|].outcome))
          && (r == BindingSnapshotUnreadable ==>
                IssuedOne(old(client.calls), client.calls, grant)
                && FirstEntryOk(client.calls[|old(client.calls)|].outcome)
                && snapshot.Throw?)
          && (r == BindingNotConfirmed || r == Added ==>
                && snapshot.Normal?
                && IssuedTwo(old(client.calls), client.calls, grant, BindingWrite(nodeId, endpoint, snapshot.value + [NewBindingEntry(target, client.fabricId)]))
                && FirstEntryOk(client.calls[|old(client.calls)|].outcome)
                && (r == Added <==> FirstEntryOk(client.calls[|old(client.calls)| + 1].outcome)))
    {
      var validated := ValidateTarget(targetNodeIdField, targetEndpointField, targetClusterField);
      if validated.Err? {
        return Invalid(validated.error);
      }
      var target := validated.value;
      var aclEntry := NewAce(nodeId, target, client.fabricId);
      var resultAcl := AddTargetAcl(target.node, aclEntry);
      if !resultAcl {
        return AclNotGranted;
      }
      ghost var afterGrant := client.calls;
      var bindingEntry := NewBindingEntry(target, client.fabricId);
      var resultBinding := AddBindings(endpoint, bindingEntry);
      if resultBinding.Normal? {
        IssuedInSequence(old(client.calls), afterGrant, client.calls,
                         AclWrite(target.node, GrantList(old(FetchACLEntry(Some(target.node))).value, aclEntry)),
                         BindingWrite(nodeId, endpoint, old(FetchBindingEntry()).value + [bindingEntry]));
      }
      if resultBinding.Throw? {
        return BindingSnapshotUnreadable;
      }
      if resultBinding.value {
        targetNodeIdField, targetEndpointField, targetClusterField := None, None, None;
        return Added;
      }
      return BindingNotConfirmed;
    }
  }
}
