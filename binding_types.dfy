/**
 * Data model of the binding dialog: the decoded Binding cluster entries
 * (cluster 0x001E) and Access Control cluster entries (cluster 0x001F) of
 * the Matter Core Specification, the JavaScript value shapes the dialog
 * relies on (absent fields, `undefined`/`null` holes, thrown exceptions),
 * and the remote calls the dialog issues through the client.
 */
module BindingTypes {

  /** An optional field: `None` is an absent (undefined) struct member. */
  datatype Option<+T> = None | Some(value: T)

  datatype Result<+T, +E> = Ok(value: T) | Err(error: E)

  /**
   * How a JavaScript expression completed: with a value, or by throwing
   * (a TypeError from reading a property of `undefined`, or a rejection
   * from the client).
   */
  datatype Completion<+T> = Normal(value: T) | Throw

  /**
   * An array slot as JavaScript sees it: a value, `undefined` or `null`.
   * The ACL list written on revocation may hold `undefined` slots.
   */
  datatype Nullable<+T> = Present(value: T) | Undefined | Null

  /**
   * BindingEntryStruct: "this endpoint sends to node/endpoint[/cluster]".
   * A group binding names a group and leaves node and endpoint absent, so
   * both are optional here as they are in the decoded struct.
   */
  datatype BindingEntry = BindingEntry(
    node: Option<nat>,
    endpoint: Option<nat>,
    group: Option<nat>,
    cluster: Option<nat>,
    fabricIndex: nat)

  /** AccessControlTargetStruct: an absent field leaves that dimension open. */
  datatype AccessControlTarget = AccessControlTarget(
    endpoint: Option<nat>,
    cluster: Option<nat>,
    deviceType: Option<nat>)

  /**
   * AccessControlEntryStruct. `subjects` and `targets` are nullable lists
   * (the dialog dereferences them with a non-null assertion, which throws
   * when they are null).
   */
  datatype AccessControlEntry = AccessControlEntry(
    privilege: nat,
    authMode: nat,
    subjects: Option<seq<nat>>,
    targets: Option<seq<AccessControlTarget>>,
    fabricIndex: nat)

  /** Privilege granted to a new ACE: Administer. */
  const PrivilegeAdminister: nat := 5
  /** Authentication mode of a new ACE: CASE. */
  const AuthModeCase: nat := 2

  /** Largest node id the form accepts. */
  const MaxTargetNodeId: int := 65535
  /** Largest endpoint id the form accepts. */
  const MaxTargetEndpoint: int := 0xFFFE
  /** Largest cluster id the form accepts (vendor-specific clusters are refused). */
  const MaxTargetCluster: int := 0x7FFF

  /**
   * What a client write call did: it threw, or it returned a status map
   * from entry index ("0", "1", ...) to that entry's `Status`.
   */
  datatype CallOutcome = Threw | Returned(statuses: map<string, int>)

  /**
   * The dialog's success test `result["0"].Status === 0`; reading key "0"
   * of a map without it throws, and the caller's catch turns that into
   * failure.
   */
  predicate FirstEntryOk(o: CallOutcome) {
    o.Returned? && "0" in o.statuses && o.statuses["0"] == 0
  }

  /** A mutating request sent through the client. */
  datatype RemoteWrite =
    | AclWrite(node: nat, acl: seq<Nullable<AccessControlEntry>>)
    | BindingWrite(node: nat, endpoint: nat, bindings: seq<BindingEntry>)

  /** One issued client call together with how it completed. */
  datatype RemoteCall = RemoteCall(request: RemoteWrite, outcome: CallOutcome)
}
