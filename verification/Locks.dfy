/** The per-key mutexes that a call takes before its transaction (locks.go). */
module Locks {
  import opened Strings
  import opened Values
  import opened Domain

  datatype Store = NodeStore | RelationshipStore

  datatype Key = Key(store: Store, text: string)

  /** Node keys come before relationship keys, each store in string order. */
  predicate KeyLess(a: Key, b: Key) {
    (a.store.NodeStore? && b.store.RelationshipStore?) || (a.store == b.store && Less(a.text, b.text))
  }

  predicate Increasing(keys: seq<Key>) {
    forall i, j :: 0 <= i < j < |keys| ==> KeyLess(keys[i], keys[j])
  }

  function NodeLockKey(node: GraphNode): (key: string)
    ensures key != ""
  {
    if node.uid != "" then FIELD_NODE_UID + ":" + node.uid
    else if FIELD_NODE_UID in node.props && node.props[FIELD_NODE_UID].Text? && node.props[FIELD_NODE_UID].s != ""
    then FIELD_NODE_UID + ":" + node.props[FIELD_NODE_UID].s
    else "node_name:" + node.name
  }

  function RelationshipLockKey(rel: GraphRelationship): (key: string)
    ensures key != ""
  {
    if FIELD_REL_UID in rel.props && rel.props[FIELD_REL_UID].Text? && rel.props[FIELD_REL_UID].s != ""
    then FIELD_REL_UID + ":" + rel.props[FIELD_REL_UID].s
    else if rel.uid != "" then FIELD_REL_UID + ":" + rel.uid
    else "relationship_type:" + rel.kind
  }

  function NodeKeySet(nodes: seq<GraphNode>): set<string> {
    set n | n in nodes :: NodeLockKey(n)
  }

  function RelationshipKeySet(rels: seq<GraphRelationship>): set<string> {
    set r | r in rels :: RelationshipLockKey(r)
  }

  /** The uid that a node is locked by: its own, or the one among its properties; "" if there is none. */
  function NodeLockUid(node: GraphNode): string {
    if node.uid == "" && FIELD_NODE_UID in node.props && node.props[FIELD_NODE_UID].Text? then node.props[FIELD_NODE_UID].s
    else node.uid
  }

  /** For a relationship the property comes first. */
  function RelationshipLockUid(rel: GraphRelationship): string {
    if FIELD_REL_UID in rel.props && rel.props[FIELD_REL_UID].Text? && rel.props[FIELD_REL_UID] != Text("") then rel.props[FIELD_REL_UID].s
    else rel.uid
  }

  lemma Prefixed(prefix: string, a: string, b: string)
    ensures prefix + a == prefix + b <==> a == b
  {
    assert (prefix + a)[|prefix|..] == a && (prefix + b)[|prefix|..] == b;
  }

  /** Two nodes share a mutex if they are locked by one uid, or both by their name because they have none. */
  lemma NodesShareKeyExactly(a: GraphNode, b: GraphNode)
    ensures NodeLockKey(a) == NodeLockKey(b) <==>
      NodeLockUid(a) == NodeLockUid(b) && (NodeLockUid(a) == "" ==> a.name == b.name)
  {
    assert (FIELD_NODE_UID + ":")[0] != "node_name:"[0];
    Prefixed(FIELD_NODE_UID + ":", NodeLockUid(a), NodeLockUid(b));
    Prefixed("node_name:", a.name, b.name);
    assert NodeLockKey(a)[0] == if NodeLockUid(a) == "" then 'n' else 'z';
    assert NodeLockKey(b)[0] == if NodeLockUid(b) == "" then 'n' else 'z';
  }

  /** And two relationships if they are locked by one uid, or both by their type. */
  lemma RelationshipsShareKeyExactly(a: GraphRelationship, b: GraphRelationship)
    ensures RelationshipLockKey(a) == RelationshipLockKey(b) <==>
      RelationshipLockUid(a) == RelationshipLockUid(b) && (RelationshipLockUid(a) == "" ==> a.kind == b.kind)
  {
    Prefixed(FIELD_REL_UID + ":", RelationshipLockUid(a), RelationshipLockUid(b));
    Prefixed("relationship_type:", a.kind, b.kind);
    assert RelationshipLockKey(a)[0] == if RelationshipLockUid(a) == "" then 'r' else 'z';
    assert RelationshipLockKey(b)[0] == if RelationshipLockUid(b) == "" then 'r' else 'z';
  }

  method UniqueSortedNodeLockKeys(nodes: seq<GraphNode>) returns (keys: seq<string>)
    ensures keys == SortedKeys(NodeKeySet(nodes))
  {
    var seen: set<string> := {};
    for index := 0 to |nodes|
      invariant seen == NodeKeySet(nodes[..index])
    {
      var key := NodeLockKey(nodes[index]);
      assert nodes[..index + 1] == nodes[..index] + [nodes[index]];
      if key == "" {
        continue;
      }
      seen := seen + {key};
    }
    assert nodes[..|nodes|] == nodes;
    keys := CollectSorted(seen);
  }

  method UniqueSortedRelationshipLockKeys(rels: seq<GraphRelationship>) returns (keys: seq<string>)
    ensures keys == SortedKeys(RelationshipKeySet(rels))
  {
    var seen: set<string> := {};
    for index := 0 to |rels|
      invariant seen == RelationshipKeySet(rels[..index])
    {
      var key := RelationshipLockKey(rels[index]);
      assert rels[..index + 1] == rels[..index] + [rels[index]];
      if key == "" {
        continue;
      }
      seen := seen + {key};
    }
    assert rels[..|rels|] == rels;
    keys := CollectSorted(seen);
  }

  function InStore(store: Store, texts: seq<string>): (keys: seq<Key>)
    ensures |keys| == |texts|
  {
    seq(|texts|, i requires 0 <= i < |texts| => Key(store, texts[i]))
  }

  /** The keys lockPlan takes, in the order it takes them. */
  ghost function LockList(plan: MutationPlan): seq<Key> {
    InStore(NodeStore, SortedKeys(NodeKeySet(plan.nodes)))
    + InStore(RelationshipStore, SortedKeys(RelationshipKeySet(plan.relationships)))
  }

  /** No call asks for a key it already holds, and all calls ask in one global order. */
  lemma LockListIncreasing(plan: MutationPlan)
    ensures Increasing(LockList(plan))
  {
    SortedKeysListing(NodeKeySet(plan.nodes));
    SortedKeysListing(RelationshipKeySet(plan.relationships));
  }

  /** Exactly the keys of the plan's own elements are taken. */
  lemma LockListKeys(plan: MutationPlan, key: Key)
    ensures key in LockList(plan) <==>
      if key.store.NodeStore? then exists n :: n in plan.nodes && NodeLockKey(n) == key.text
      else exists r :: r in plan.relationships && RelationshipLockKey(r) == key.text
  {
    var nodeTexts := SortedKeys(NodeKeySet(plan.nodes));
    var relTexts := SortedKeys(RelationshipKeySet(plan.relationships));
    SortedKeysListing(NodeKeySet(plan.nodes));
    SortedKeysListing(RelationshipKeySet(plan.relationships));
    InStoreMember(NodeStore, nodeTexts, key);
    InStoreMember(RelationshipStore, relTexts, key);
  }

  lemma InStoreMember(store: Store, texts: seq<string>, key: Key)
    ensures key in InStore(store, texts) <==> key.store == store && key.text in texts
  {
    var keys := InStore(store, texts);
    if key.store == store && key.text in texts {
      var i :| 0 <= i < |texts| && texts[i] == key.text;
      assert keys[i] == key;
    }
  }

  lemma KeyLessTotal(a: Key, b: Key)
    ensures KeyLess(a, b) || a == b || KeyLess(b, a)
    ensures !KeyLess(a, a)
  {
    LessTotal(a.text, b.text);
    LessIrreflexive(a.text);
  }

  lemma KeyLessTransitive(a: Key, b: Key, c: Key)
    requires KeyLess(a, b) && KeyLess(b, c)
    ensures KeyLess(a, c)
  {
    if a.store == b.store == c.store {
      LessTransitive(a.text, b.text, c.text);
    }
  }

  lemma IncreasingDistinct(keys: seq<Key>, i: nat, j: nat)
    requires Increasing(keys) && i < |keys| && j < |keys| && keys[i] == keys[j]
    ensures i == j
  {
    KeyLessTotal(keys[i], keys[j]);
  }

  /** The mutexes of one repository, with no other call in progress. */
  class LockTable {
    var held: set<Key>

    constructor ()
      ensures held == {}
    {
      held := {};
    }

    /** sync.Mutex.Lock on a free mutex; Go's mutexes are not reentrant. */
    method Lock(key: Key)
      requires key !in held
      modifies this
      ensures held == old(held) + {key}
    {
      held := held + {key};
    }

    method Unlock(key: Key)
      requires key in held
      modifies this
      ensures held == old(held) - {key}
    {
      held := held - {key};
    }

    method LockPlan(plan: MutationPlan) returns (taken: seq<Key>)
      requires forall k :: k in LockList(plan) ==> k !in held
      modifies this
      ensures taken == LockList(plan) && Increasing(taken)
      ensures held == old(held) + set k | k in taken
    {
      var nodeKeys := UniqueSortedNodeLockKeys(plan.nodes);
      var relKeys := UniqueSortedRelationshipLockKeys(plan.relationships);
      taken := InStore(NodeStore, nodeKeys) + InStore(RelationshipStore, relKeys);
      LockListIncreasing(plan);
      LockAll(taken);
    }

    method LockAll(keys: seq<Key>)
      requires Increasing(keys) && forall k :: k in keys ==> k !in held
      modifies this
      ensures held == old(held) + set k | k in keys
    {
      for index := 0 to |keys|
        invariant held == old(held) + set k | k in keys[..index]
      {
        var key := keys[index];
        assert key !in keys[..index] by {
          if key in keys[..index] {
            var j :| 0 <= j < index && keys[j] == key;
            IncreasingDistinct(keys, j, index);
          }
        }
        assert keys[..index + 1] == keys[..index] + [key];
        Lock(key);
      }
      assert keys[..|keys|] == keys;
    }

    /** The closure lockPlan returns: releases in reverse order of acquisition. */
    method UnlockAll(taken: seq<Key>)
      requires Increasing(taken) && forall k :: k in taken ==> k in held
      modifies this
      ensures held == old(held) - set k | k in taken
    {
      var index := |taken|;
      while index > 0
        invariant 0 <= index <= |taken|
        invariant held == old(held) - set k | k in taken[index..]
        invariant forall k :: k in taken[..index] ==> k in held
      {
        index := index - 1;
        var key := taken[index];
        assert key in taken[..index + 1];
        assert taken[index..] == [key] + taken[index + 1..];
        assert key !in taken[..index] by {
          if key in taken[..index] {
            var j :| 0 <= j < index && taken[j] == key;
            IncreasingDistinct(taken, j, index);
          }
        }
        assert forall k :: k in taken[..index] ==> k in taken[..index + 1];
        Unlock(key);
      }
      assert taken[0..] == taken;
    }
  }
}
