/** Plans, policies and statistics (internal/domain). */
module Domain {
  import opened Prelude
  import opened Values

  /* ----- internal/domain/fields.go ----- */

  const APP_FIELD_PREFIX: string := "z4j_"
  const FIELD_NODE_UID: string := "z4j_node_uid"
  const FIELD_REL_UID: string := "z4j_rel_uid"
  const FIELD_ORIGIN: string := "z4j_origin"
  const FIELD_CREATED_AT: string := "z4j_created_at"
  const FIELD_UPDATED_AT: string := "z4j_updated_at"
  const FIELD_EXPIRES_AT: string := "z4j_expires_at"
  const FIELD_TEMPLATE_HASHES: string := "z4j_template_hashes"
  const FIELD_TEMPLATE_HASH: string := "z4j_template_hash"
  const NAME: string := "name"

  predicate Reserved(key: string) {
    APP_FIELD_PREFIX <= key
  }

  /* ----- internal/domain/graph.go ----- */

  datatype UpdatePolicy = Create | Merge | MergeAtChange | Unknown(text: string)

  datatype NodeSelector = NodeSelector(kind: string, attributes: Props)

  datatype GraphNode = GraphNode(
    types: seq<string>,
    name: string,
    templateHashes: seq<string>,
    policy: UpdatePolicy,
    expirationMinutes: Option<int>,
    props: Props,
    uid: string)

  datatype GraphRelationship = GraphRelationship(
    kind: string,
    templateHash: string,
    policy: UpdatePolicy,
    expirationMinutes: Option<int>,
    source: NodeSelector,
    target: NodeSelector,
    props: Props,
    uid: string)

  datatype MutationPlan = MutationPlan(nodes: seq<GraphNode>, relationships: seq<GraphRelationship>)

  datatype PersistAction = Created | Updated | Skipped

  /** The six counters of domain.ApplyStats as a value. */
  datatype Totals = Totals(
    nodesCreated: nat, nodesUpdated: nat, nodesSkipped: nat,
    relsCreated: nat, relsUpdated: nat, relsSkipped: nat)

  /** How many node and relationship actions the counters stand for. */
  predicate Counts(t: Totals, nodeActions: nat, relActions: nat) {
    && t.nodesCreated + t.nodesUpdated + t.nodesSkipped == nodeActions
    && t.relsCreated + t.relsUpdated + t.relsSkipped == relActions
  }

  /** Nothing was written. */
  predicate Quiet(t: Totals) {
    t.nodesCreated == 0 && t.nodesUpdated == 0 && t.relsCreated == 0 && t.relsUpdated == 0
  }

  function Zero(): Totals {
    Totals(0, 0, 0, 0, 0, 0)
  }

  function WithNode(t: Totals, action: PersistAction): Totals {
    match action
    case Created => t.(nodesCreated := t.nodesCreated + 1)
    case Updated => t.(nodesUpdated := t.nodesUpdated + 1)
    case Skipped => t.(nodesSkipped := t.nodesSkipped + 1)
  }

  function WithRelationship(t: Totals, action: PersistAction): Totals {
    match action
    case Created => t.(relsCreated := t.relsCreated + 1)
    case Updated => t.(relsUpdated := t.relsUpdated + 1)
    case Skipped => t.(relsSkipped := t.relsSkipped + 1)
  }

  function Plus(a: Totals, b: Totals): Totals {
    Totals(a.nodesCreated + b.nodesCreated, a.nodesUpdated + b.nodesUpdated, a.nodesSkipped + b.nodesSkipped,
           a.relsCreated + b.relsCreated, a.relsUpdated + b.relsUpdated, a.relsSkipped + b.relsSkipped)
  }

  class ApplyStats {
    var nodesCreated: nat
    var nodesUpdated: nat
    var nodesSkipped: nat
    var relsCreated: nat
    var relsUpdated: nat
    var relsSkipped: nat

    function Value(): Totals
      reads this
    {
      Totals(nodesCreated, nodesUpdated, nodesSkipped, relsCreated, relsUpdated, relsSkipped)
    }

    constructor ()
      ensures Value() == Zero()
    {
      nodesCreated, nodesUpdated, nodesSkipped := 0, 0, 0;
      relsCreated, relsUpdated, relsSkipped := 0, 0, 0;
    }

    method AddNode(action: PersistAction)
      modifies this
      ensures Value() == WithNode(old(Value()), action)
      ensures nodesCreated == old(nodesCreated) + if action.Created? then 1 else 0
      ensures nodesUpdated == old(nodesUpdated) + if action.Updated? then 1 else 0
      ensures nodesSkipped == old(nodesSkipped) + if action.Skipped? then 1 else 0
    {
      match action
      case Created => nodesCreated := nodesCreated + 1;
      case Updated => nodesUpdated := nodesUpdated + 1;
      case Skipped => nodesSkipped := nodesSkipped + 1;
    }

    method AddRelationship(action: PersistAction)
      modifies this
      ensures Value() == WithRelationship(old(Value()), action)
      ensures relsCreated == old(relsCreated) + if action.Created? then 1 else 0
      ensures relsUpdated == old(relsUpdated) + if action.Updated? then 1 else 0
      ensures relsSkipped == old(relsSkipped) + if action.Skipped? then 1 else 0
    {
      match action
      case Created => relsCreated := relsCreated + 1;
      case Updated => relsUpdated := relsUpdated + 1;
      case Skipped => relsSkipped := relsSkipped + 1;
    }

    method MergeWith(other: Totals)
      modifies this
      ensures Value() == Plus(old(Value()), other)
    {
      nodesCreated := nodesCreated + other.nodesCreated;
      nodesUpdated := nodesUpdated + other.nodesUpdated;
      nodesSkipped := nodesSkipped + other.nodesSkipped;
      relsCreated := relsCreated + other.relsCreated;
      relsUpdated := relsUpdated + other.relsUpdated;
      relsSkipped := relsSkipped + other.relsSkipped;
    }
  }
}
