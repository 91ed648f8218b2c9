/**
 * The pure part of the node binding dialog: the list operations, the ACE
 * pruning rule, input validation and the construction of the new ACE and
 * BindingEntry.
 */
module BindingLogic {
  import opened BindingTypes

  // ----- JavaScript array helpers -------------------------------------

  /**
   * `Array.prototype.filter`: keeps, in order, the elements satisfying `p`.
   * A one-element list is kept or emptied by `p`; with `FilterSeqAppend`
   * this fixes the result for every list. `FilterSeqCounts` gives the
   * multiplicities and `FilterSeqMembers` the membership.
   */
  function FilterSeq<T>(s: seq<T>, p: T -> bool): (r: seq<T>)
    ensures |r| <= |s|
    ensures |s| == 1 ==> r == (if p(s[0]) then s else [])
    ensures (forall k :: 0 <= k < |s| ==> p(s[k])) ==> r == s
  {
    if s == [] then []
    else (if p(s[0]) then [s[0]] else []) + FilterSeq(s[1..], p)
  }

  /** Each value that passes is kept exactly as often as it occurs; the others are dropped. */
  lemma {:induction false} FilterSeqCounts<T>(s: seq<T>, p: T -> bool, x: T)
    ensures multiset(FilterSeq(s, p))[x] == if p(x) then multiset(s)[x] else 0
  {
    if s != [] {
      assert s == [s[0]] + s[1..];
      assert multiset(s) == multiset{s[0]} + multiset(s[1..]);
      FilterSeqCounts(s[1..], p, x);
      var head := if p(s[0]) then [s[0]] else [];
      assert FilterSeq(s, p) == head + FilterSeq(s[1..], p);
      assert multiset(FilterSeq(s, p)) == multiset(head) + multiset(FilterSeq(s[1..], p));
    }
  }

  /** The filtered list holds only passing elements of the input, and every passing element of it. */
  lemma FilterSeqMembers<T>(s: seq<T>, p: T -> bool)
    ensures forall k :: 0 <= k < |FilterSeq(s, p)| ==> FilterSeq(s, p)[k] in s && p(FilterSeq(s, p)[k])
    ensures forall k :: 0 <= k < |s| && p(s[k]) ==> s[k] in FilterSeq(s, p)
  {
    var r := FilterSeq(s, p);
    forall k | 0 <= k < |r|
      ensures r[k] in s && p(r[k])
    {
      FilterSeqCounts(s, p, r[k]);
      assert r[k] in multiset(r);
    }
    forall k | 0 <= k < |s| && p(s[k])
      ensures s[k] in r
    {
      FilterSeqCounts(s, p, s[k]);
      assert s[k] in multiset(s);
    }
  }

  /** Filtering keeps order: the filtered concatenation is the concatenation of the filtered parts. */
  lemma {:induction false} FilterSeqAppend<T>(a: seq<T>, b: seq<T>, p: T -> bool)
    ensures FilterSeq(a + b, p) == FilterSeq(a, p) + FilterSeq(b, p)
  {
    if a == [] {
      assert a + b == b;
    } else {
      var head := if p(a[0]) then [a[0]] else [];
      assert (a + b)[0] == a[0] && (a + b)[1..] == a[1..] + b;
      assert FilterSeq(a + b, p) == head + FilterSeq(a[1..] + b, p);
      FilterSeqAppend(a[1..], b, p);
      assert FilterSeq(a, p) == head + FilterSeq(a[1..], p);
      assert head + (FilterSeq(a[1..], p) + FilterSeq(b, p)) == (head + FilterSeq(a[1..], p)) + FilterSeq(b, p);
    }
  }

  /** `Object.values(raw).map(decode)` over an array. */
  function DecodeAll<R, T>(raw: seq<R>, decode: R -> T): (r: seq<T>)
    ensures |r| == |raw|
    ensures forall k :: 0 <= k < |raw| ==> r[k] == decode(raw[k])
  {
    seq(|raw|, k requires 0 <= k < |raw| => decode(raw[k]))
  }

  /** How `Array.prototype.slice` resolves a start or end argument. */
  function RelativeIndex(k: int, len: nat): (r: nat)
    ensures r <= len
    ensures 0 <= k <= len ==> r == k
    ensures k > len ==> r == len
    ensures k < 0 && 0 <= k + len ==> r == len + k
    ensures k + len < 0 ==> r == 0
  {
    if k < 0 then (if len + k < 0 then 0 else len + k)
    else if k > len then len
    else k
  }

  /** `s.slice(start, end)`: the elements from the resolved start up to the resolved end. */
  function Slice<T>(s: seq<T>, start: int, end: int): (r: seq<T>)
    ensures |r| <= |s|
    ensures 0 <= start <= end <= |s| ==> r == s[start..end]
    ensures start >= |s| || 0 <= end <= start ==> r == []
    ensures 0 <= start <= |s| <= end ==> r == s[start..]
  {
    var from, to := RelativeIndex(start, |s|), RelativeIndex(end, |s|);
    if from < to then s[from..to] else []
  }

  /** `[...bindings.slice(0, index), ...bindings.slice(index + 1)]`. */
  function RemoveBindingAtIndex<T>(bindings: seq<T>, index: int): (r: seq<T>)
    ensures 0 <= index < |bindings| ==> r == bindings[..index] + bindings[index + 1..]
    ensures index >= |bindings| ==> r == bindings
  {
    Slice(bindings, 0, index) + Slice(bindings, index + 1, |bindings|)
  }

  /**
   * Removal at a valid position drops exactly that entry: one shorter, the
   * others unchanged and in their original order.
   */
  lemma RemoveBindingAtIndexRemovesOne<T>(bindings: seq<T>, index: int)
    requires 0 <= index < |bindings|
    ensures |RemoveBindingAtIndex(bindings, index)| == |bindings| - 1
    ensures forall k :: 0 <= k < index ==> RemoveBindingAtIndex(bindings, index)[k] == bindings[k]
    ensures forall k :: index <= k < |bindings| - 1 ==> RemoveBindingAtIndex(bindings, index)[k] == bindings[k + 1]
    ensures multiset(RemoveBindingAtIndex(bindings, index)) + multiset{bindings[index]} == multiset(bindings)
  {
    assert bindings == bindings[..index] + [bindings[index]] + bindings[index + 1..];
  }

  /** Removing the entry just appended gives back the list before the append. */
  lemma RemoveAppendedBinding<T>(bindings: seq<T>, entry: T)
    ensures RemoveBindingAtIndex(bindings + [entry], |bindings|) == bindings
  {
    assert (bindings + [entry])[..|bindings|] == bindings;
  }

  // ----- ACE pruning ---------------------------------------------------

  /**
   * Reference definition of an ACE revoked for a deleted binding: `nodeId`
   * is one of its subjects and one of its targets names `endpoint`.
   */
  predicate RevokedBy(nodeId: nat, endpoint: Option<nat>, entry: AccessControlEntry) {
    && entry.subjects.Some? && nodeId in entry.subjects.value
    && entry.targets.Some?
    && exists t :: t in entry.targets.value && t.endpoint == endpoint
  }

  /**
   * `removeEntryAtACL`: the entry itself, or `undefined` when it is revoked.
   * A null subject list, or a null target list of an entry naming `nodeId`,
   * throws.
   */
  function RemoveEntryAtACL(nodeId: nat, endpoint: Option<nat>, entry: AccessControlEntry): (r: Completion<Nullable<AccessControlEntry>>)
    ensures r.Throw? <==> entry.subjects.None? || (nodeId in entry.subjects.value && entry.targets.None?)
    ensures r.Normal? ==> r.value == Undefined || r.value == Present(entry)
    ensures r == Normal(Undefined) <==> RevokedBy(nodeId, endpoint, entry)
  {
    if entry.subjects.None? then Throw
    else if nodeId !in entry.subjects.value then Normal(Present(entry))
    else if entry.targets.None? then Throw
    else
      var matches := (t: AccessControlTarget) => t.endpoint == endpoint;
      var hasTarget := FilterSeq(entry.targets.value, matches);
      FilterSeqMembers(entry.targets.value, matches);
      if |hasTarget| > 0 then
        assert hasTarget[0] in hasTarget;
        Normal(Undefined)
      else
        Normal(Present(entry))
  }

  /**
   * The pruning rule reads only subjects and target endpoints: two entries
   * that agree on those are treated alike, whatever their privilege, auth
   * mode, fabric, target clusters and target device types.
   */
  lemma RevocationIgnoresClusterAndDeviceType(nodeId: nat, endpoint: Option<nat>, e1: AccessControlEntry, e2: AccessControlEntry)
    requires e1.subjects == e2.subjects
    requires e1.targets.Some? <==> e2.targets.Some?
    requires e1.targets.Some? ==> |e1.targets.value| == |e2.targets.value|
    requires e1.targets.Some? ==> forall k :: 0 <= k < |e1.targets.value| ==> e1.targets.value[k].endpoint == e2.targets.value[k].endpoint
    ensures RemoveEntryAtACL(nodeId, endpoint, e1).Throw? <==> RemoveEntryAtACL(nodeId, endpoint, e2).Throw?
    ensures RemoveEntryAtACL(nodeId, endpoint, e1) == Normal(Undefined) <==> RemoveEntryAtACL(nodeId, endpoint, e2) == Normal(Undefined)
  {
    if RevokedBy(nodeId, endpoint, e1) {
      var t :| t in e1.targets.value && t.endpoint == endpoint;
      var k :| 0 <= k < |e1.targets.value| && e1.targets.value[k] == t;
      assert e2.targets.value[k] in e2.targets.value;
    }
    if RevokedBy(nodeId, endpoint, e2) {
      var t :| t in e2.targets.value && t.endpoint == endpoint;
      var k :| 0 <= k < |e2.targets.value| && e2.targets.value[k] == t;
      assert e1.targets.value[k] in e1.targets.value;
    }
  }

  /** `aclEntries.map(removeEntryAtACL)`: the first throwing entry aborts the map. */
  function PruneEach(nodeId: nat, endpoint: Option<nat>, acl: seq<AccessControlEntry>): (r: Completion<seq<Nullable<AccessControlEntry>>>)
    ensures r.Throw? <==> exists k :: 0 <= k < |acl| && RemoveEntryAtACL(nodeId, endpoint, acl[k]).Throw?
    ensures r.Normal? ==> |r.value| == |acl|
    ensures r.Normal? ==> forall k :: 0 <= k < |acl| ==> Normal(r.value[k]) == RemoveEntryAtACL(nodeId, endpoint, acl[k])
  {
    if acl == [] then Normal([])
    else
      match RemoveEntryAtACL(nodeId, endpoint, acl[0])
      case Throw => Throw
      case Normal(first) =>
        match PruneEach(nodeId, endpoint, acl[1..])
        case Throw =>
          ghost var k :| 0 <= k < |acl[1..]| && RemoveEntryAtACL(nodeId, endpoint, acl[1..][k]).Throw?;
          assert acl[k + 1] == acl[1..][k];
          Throw
        case Normal(rest) =>
          assert forall k :: 1 <= k < |acl| ==> acl[k] == acl[1..][k - 1];
          Normal([first] + rest)
  }

  /**
   * The list `removeNodeAtACLEntry` writes: every ACE mapped through the
   * pruning rule, then filtered with `!== null`. Revoked entries are
   * `undefined`, not `null`, so the filter keeps them as holes.
   */
  function RemoveNodeAtACL(nodeId: nat, endpoint: Option<nat>, acl: seq<AccessControlEntry>): (r: Completion<seq<Nullable<AccessControlEntry>>>)
    ensures r.Throw? <==> exists k :: 0 <= k < |acl| && RemoveEntryAtACL(nodeId, endpoint, acl[k]).Throw?
    ensures r.Normal? ==> |r.value| == |acl|
    ensures r.Normal? ==> forall k :: 0 <= k < |acl| ==>
      r.value[k] == (if RevokedBy(nodeId, endpoint, acl[k]) then Undefined else Present(acl[k]))
  {
    match PruneEach(nodeId, endpoint, acl)
    case Throw => Throw
    case Normal(mapped) =>
      assert forall k :: 0 <= k < |mapped| ==> !mapped[k].Null? by {
        forall k | 0 <= k < |mapped| ensures !mapped[k].Null? {
          assert Normal(mapped[k]) == RemoveEntryAtACL(nodeId, endpoint, acl[k]);
        }
      }
      Normal(FilterSeq(mapped, (x: Nullable<AccessControlEntry>) => !x.Null?))
  }

  /**
   * Node 10's binding to node 20 endpoint 1 is deleted while node 20's ACL
   * holds one ACE for subject 10 on endpoint 1: the Binding list becomes
   * empty and the ACL written to node 20 is one `undefined` hole, not an
   * empty list.
   */
  lemma DeleteScenarioLeavesHole()
    ensures var binding := BindingEntry(Some(20), Some(1), None, Some(6), 1);
            RemoveBindingAtIndex([binding], 0) == []
    ensures var ace := AccessControlEntry(PrivilegeAdminister, AuthModeCase, Some([10]),
                                          Some([AccessControlTarget(Some(1), None, None)]), 1);
            RemoveNodeAtACL(10, Some(1), [ace]) == Normal([Undefined])
  {
    var ace := AccessControlEntry(PrivilegeAdminister, AuthModeCase, Some([10]),
                                  Some([AccessControlTarget(Some(1), None, None)]), 1);
    assert ace.targets.value[0] in ace.targets.value;
    assert RevokedBy(10, Some(1), ace);
    var written := RemoveNodeAtACL(10, Some(1), [ace]);
    assert written.Normal? && |written.value| == 1 && written.value[0] == Undefined;
    assert written.value == [Undefined];
  }

  // ----- Validation and construction of a new binding ------------------

  /** A validated form: target node, endpoint and optional cluster. */
  datatype BindingTarget = BindingTarget(node: nat, endpoint: nat, cluster: Option<nat>)

  /** Which form field the dialog rejects (each raises its own alert). */
  datatype ValidationError = InvalidNodeId | InvalidEndpoint | InvalidCluster

  predicate ValidNodeId(n: Option<int>) { n.Some? && 1 <= n.value <= MaxTargetNodeId }
  predicate ValidEndpoint(e: Option<int>) { e.Some? && 1 <= e.value <= MaxTargetEndpoint }
  predicate ValidCluster(c: Option<int>) { c.None? || 0 <= c.value <= MaxTargetCluster }

  /**
   * The range checks of `addBindingHandler`, in its order: node id, then
   * endpoint, then the optional cluster. `None` is an empty text field.
   */
  function ValidateTarget(nodeId: Option<int>, endpoint: Option<int>, cluster: Option<int>): (r: Result<BindingTarget, ValidationError>)
    ensures r.Ok? <==> ValidNodeId(nodeId) && ValidEndpoint(endpoint) && ValidCluster(cluster)
    ensures r == Err(InvalidNodeId) <==> !ValidNodeId(nodeId)
    ensures r == Err(InvalidEndpoint) <==> ValidNodeId(nodeId) && !ValidEndpoint(endpoint)
    ensures r == Err(InvalidCluster) <==> ValidNodeId(nodeId) && ValidEndpoint(endpoint) && !ValidCluster(cluster)
    ensures r.Ok? ==> r.value.node == nodeId.value && r.value.endpoint == endpoint.value
    ensures r.Ok? ==> (r.value.cluster.Some? <==> cluster.Some?)
    ensures r.Ok? && cluster.Some? ==> r.value.cluster.value == cluster.value
  {
    if nodeId.None? || nodeId.value <= 0 || nodeId.value > MaxTargetNodeId then Err(InvalidNodeId)
    else if endpoint.None? || endpoint.value <= 0 || endpoint.value > MaxTargetEndpoint then Err(InvalidEndpoint)
    else if cluster.Some? && (cluster.value < 0 || cluster.value > MaxTargetCluster) then Err(InvalidCluster)
    else
      Ok(BindingTarget(nodeId.value, endpoint.value, if cluster.Some? then Some(cluster.value as nat) else None))
  }

  /** The ACE granted on the target node: `source` may administer the target endpoint[/cluster] over CASE. */
  function NewAce(source: nat, target: BindingTarget, fabricIndex: nat): (r: AccessControlEntry)
    ensures r.privilege == PrivilegeAdminister && r.authMode == AuthModeCase
    ensures r.subjects == Some([source])
    ensures r.targets.Some? && |r.targets.value| == 1
    ensures r.targets.value[0].endpoint == Some(target.endpoint)
    ensures r.targets.value[0].cluster == target.cluster
    ensures r.targets.value[0].deviceType.None?
    ensures r.fabricIndex == fabricIndex
  {
    AccessControlEntry(
      PrivilegeAdminister,
      AuthModeCase,
      Some([source]),
      Some([AccessControlTarget(Some(target.endpoint), target.cluster, None)]),
      fabricIndex)
  }

  /** The BindingEntry appended on the source endpoint: a unicast binding, never a group one. */
  function NewBindingEntry(target: BindingTarget, fabricIndex: nat): (r: BindingEntry)
    ensures r.node == Some(target.node) && r.endpoint == Some(target.endpoint)
    ensures r.group.None?
    ensures r.cluster == target.cluster
    ensures r.fabricIndex == fabricIndex
  {
    BindingEntry(Some(target.node), Some(target.endpoint), None, target.cluster, fabricIndex)
  }

  /**
   * Add and delete are partners: the BindingEntry an add creates names the
   * node the ACE was written to, and deleting that entry revokes that ACE.
   */
  lemma GrantIsRevokedByMatchingDelete(source: nat, target: BindingTarget, fabricIndex: nat)
    ensures NewBindingEntry(target, fabricIndex).node == Some(target.node)
    ensures RemoveEntryAtACL(source, NewBindingEntry(target, fabricIndex).endpoint, NewAce(source, target, fabricIndex)) == Normal(Undefined)
  {
    var ace := NewAce(source, target, fabricIndex);
    assert ace.targets.value[0] in ace.targets.value;
  }

  /**
   * Pruning is coarse: deleting a binding to an endpoint also revokes the
   * grant made for a different binding of the same source to that endpoint
   * (another cluster, or none).
   */
  lemma RevocationAlsoHitsSiblingGrant(source: nat, deleted: BindingTarget, sibling: BindingTarget, fabricIndex: nat)
    requires deleted.endpoint == sibling.endpoint
    ensures RemoveEntryAtACL(source, Some(deleted.endpoint), NewAce(source, sibling, fabricIndex)) == Normal(Undefined)
  {
    GrantIsRevokedByMatchingDelete(source, sibling, fabricIndex);
  }

  /** A grant to another source, or for another endpoint, survives a delete. */
  lemma RevocationSparesUnrelatedGrant(source: nat, endpoint: Option<nat>, other: nat, target: BindingTarget, fabricIndex: nat)
    requires other != source || endpoint != Some(target.endpoint)
    ensures RemoveEntryAtACL(source, endpoint, NewAce(other, target, fabricIndex)) == Normal(Present(NewAce(other, target, fabricIndex)))
  {
  }

  /**
   * Deleting an entry without an endpoint compares every target endpoint
   * with `undefined`: it revokes each ACE of the source that has a target
   * open on the endpoint dimension, and spares every ACE the dialog grants
   * (whose one target always names an endpoint).
   */
  lemma EndpointlessDeleteHitsOpenTargets(source: nat, open: AccessControlTarget, granted: BindingTarget,
                                          privilege: nat, authMode: nat, fabricIndex: nat)
    requires open.endpoint.None?
    ensures var ace := AccessControlEntry(privilege, authMode, Some([source]), Some([open]), fabricIndex);
            RemoveEntryAtACL(source, None, ace) == Normal(Undefined)
    ensures RemoveEntryAtACL(source, None, NewAce(source, granted, fabricIndex))
            == Normal(Present(NewAce(source, granted, fabricIndex)))
  {
    var ace := AccessControlEntry(privilege, authMode, Some([source]), Some([open]), fabricIndex);
    assert ace.targets.value[0] in ace.targets.value;
  }

  /** An array of values as the client sends it: every slot present. */
  function Lift<T>(s: seq<T>): (r: seq<Nullable<T>>)
    ensures |r| == |s|
    ensures forall k :: 0 <= k < |s| ==> r[k] == Present(s[k])
  {
    seq(|s|, k requires 0 <= k < |s| => Present(s[k]))
  }

  /** The ACL list `_updateEntry` writes on add: the decoded list with the new ACE pushed. */
  function GrantList(acl: seq<AccessControlEntry>, ace: AccessControlEntry): seq<Nullable<AccessControlEntry>> {
    Lift(acl + [ace])
  }

  /** The add path writes exactly one new ACE after the existing ones, with no holes. */
  lemma GrantListAppendsOne(acl: seq<AccessControlEntry>, ace: AccessControlEntry)
    ensures |GrantList(acl, ace)| == |acl| + 1
    ensures forall k :: 0 <= k < |acl| ==> GrantList(acl, ace)[k] == Present(acl[k])
    ensures GrantList(acl, ace)[|acl|] == Present(ace)
    ensures forall x :: x in GrantList(acl, ace) ==> x.Present?
  {
  }
}
