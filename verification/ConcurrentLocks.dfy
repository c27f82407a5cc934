/** Each call owns exactly a prefix of its lock list, in every state of every run. */
module ConcurrentLocks {
  import opened Domain
  import opened Upsert
  import opened Locks
  import opened Concurrency

  /** Call p owns the mutexes it holds and no others. */
  ghost predicate OwnsExactly(owner: map<Key, nat>, p: nat, call: Call) {
    HeldCount(call) <= |Keys(call)| && forall k :: k in Held(call) <==> k in owner && owner[k] == p
  }

  ghost predicate LocksOwned(s: State) {
    && (forall p :: 0 <= p < |s.calls| ==> OwnsExactly(s.owner, p, s.calls[p]))
    && (forall k :: k in s.owner ==> s.owner[k] < |s.calls|)
  }

  lemma HeldAfterAcquire(call: Call)
    requires call.phase.Acquiring? && call.phase.next < |Keys(call)|
    ensures Held(call.(phase := Acquiring(call.phase.next + 1))) == Held(call) + {Keys(call)[call.phase.next]}
  {
    hide LockList;
    var i, next := call.phase.next, call.(phase := Acquiring(call.phase.next + 1));
    assert Keys(next)[..i + 1] == Keys(call)[..i] + [Keys(call)[i]];
  }

  lemma HeldAfterRelease(call: Call)
    requires call.phase.Releasing? && 0 < call.phase.left <= |Keys(call)|
    ensures Keys(call)[call.phase.left - 1] in Held(call)
    ensures Held(call.(phase := Releasing(call.phase.left - 1))) == Held(call) - {Keys(call)[call.phase.left - 1]}
  {
    hide Increasing, LockList;
    LockListIncreasing(call.plan);
    DropLast(Keys(call), call.phase.left - 1);
  }

  lemma DropLast(keys: seq<Key>, last: nat)
    requires Increasing(keys) && last < |keys|
    ensures forall k :: k in keys[..last] <==> k in keys[..last + 1] && k != keys[last]
    ensures keys[last] in keys[..last + 1]
  {
    assert keys[..last + 1] == keys[..last] + [keys[last]];
    forall k | k in keys[..last]
      ensures k != keys[last]
    {
      var j :| 0 <= j < last && keys[j] == k;
      KeyLessTotal(keys[j], keys[last]);
    }
  }

  /** Owners may change at one key only, and only to or from call p. */
  predicate OnlyKeyOf(p: nat, key: Key, before: map<Key, nat>, after: map<Key, nat>) {
    && (forall k :: k in before.Keys + after.Keys && k != key ==> k in before && k in after && before[k] == after[k])
    && (key in before ==> before[key] == p)
    && (key in after ==> after[key] == p)
  }

  lemma OthersStillOwn(before: map<Key, nat>, after: map<Key, nat>, p: nat, key: Key, q: nat, call: Call)
    requires OnlyKeyOf(p, key, before, after) && q != p && OwnsExactly(before, q, call)
    ensures OwnsExactly(after, q, call)
  {
  }

  lemma OwnedChange(s: State, t: State, p: nat, key: Key)
    requires LocksOwned(s) && p < |s.calls| && |t.calls| == |s.calls|
    requires OnlyKeyOf(p, key, s.owner, t.owner)
    requires OwnsExactly(t.owner, p, t.calls[p])
    requires forall q :: 0 <= q < |s.calls| && q != p ==> t.calls[q] == s.calls[q]
    ensures LocksOwned(t)
  {
    hide OwnsExactly;
    forall q | 0 <= q < |t.calls|
      ensures OwnsExactly(t.owner, q, t.calls[q])
    {
      if q != p {
        OthersStillOwn(s.owner, t.owner, p, key, q, s.calls[q]);
      }
    }
  }

  lemma OwnedBy(s: State, p: nat)
    requires LocksOwned(s) && p < |s.calls|
    ensures OwnsExactly(s.owner, p, s.calls[p])
  {
  }

  lemma AcquireOwned(env: Env, s: State, p: nat)
    requires LocksOwned(s) && Enabled(env, s, p, Acquire)
    ensures LocksOwned(Do(env, s, p, Acquire))
  {
    hide Held, LockList, LocksOwned;
    var call, t := s.calls[p], Do(env, s, p, Acquire);
    HeldAfterAcquire(call);
    OwnedBy(s, p);
    OwnedChange(s, t, p, Keys(call)[call.phase.next]);
  }

  lemma ReleaseOwned(env: Env, s: State, p: nat)
    requires LocksOwned(s) && Enabled(env, s, p, Release)
    ensures LocksOwned(Do(env, s, p, Release))
  {
    hide Held, LockList, LocksOwned;
    var call, t := s.calls[p], Do(env, s, p, Release);
    HeldAfterRelease(call);
    OwnedBy(s, p);
    OwnedChange(s, t, p, Keys(call)[call.phase.left - 1]);
  }

  lemma OtherOwned(env: Env, s: State, p: nat, c: Choice)
    requires LocksOwned(s) && Enabled(env, s, p, c) && !c.Acquire? && !c.Release?
    ensures LocksOwned(Do(env, s, p, c))
  {
    hide LockList, OwnsExactly, Enabled, Do, HeldCount;
    var t := Do(env, s, p, c);
    OthersUnchanged(env, s, p, c);
    HeldStays(env, s, p, c);
    forall q | 0 <= q < |t.calls|
      ensures OwnsExactly(t.owner, q, t.calls[q])
    {
      SameHeld(s.owner, q, s.calls[q], t.calls[q]);
    }
  }

  lemma HeldStays(env: Env, s: State, p: nat, c: Choice)
    requires Enabled(env, s, p, c) && !c.Acquire? && !c.Release?
    ensures p < |Do(env, s, p, c).calls| && Do(env, s, p, c).owner == s.owner
    ensures HeldCount(Do(env, s, p, c).calls[p]) == HeldCount(s.calls[p])
  {
    hide LockList, View, MoveOf, Matches, WritesAfter, Changed, FindMatches, Product, LinksOf, RelationshipForMatch;
  }

  lemma SameHeld(owner: map<Key, nat>, p: nat, call: Call, next: Call)
    requires Keys(next) == Keys(call) && HeldCount(next) == HeldCount(call)
    ensures OwnsExactly(owner, p, call) <==> OwnsExactly(owner, p, next)
  {
  }

  lemma OwnedStep(env: Env, s: State, p: nat, c: Choice)
    requires LocksOwned(s) && Enabled(env, s, p, c)
    ensures LocksOwned(Do(env, s, p, c))
  {
    hide LocksOwned, Do;
    if c.Acquire? {
      AcquireOwned(env, s, p);
    } else if c.Release? {
      ReleaseOwned(env, s, p);
    } else {
      OtherOwned(env, s, p, c);
    }
  }

  lemma HoldsAllInTransaction(call: Call, key: Key)
    requires InTransaction(call) && key in Keys(call)
    ensures key in Held(call)
  {
  }

  /** Two calls that share a key are never in their transactions at the same time. */
  lemma MutualExclusion(s: State, p: nat, q: nat)
    requires LocksOwned(s) && p < |s.calls| && q < |s.calls| && p != q
    requires SharesKey(s.calls[p].plan, s.calls[q].plan)
    ensures !(InTransaction(s.calls[p]) && InTransaction(s.calls[q]))
  {
    hide LockList, LocksOwned;
    var key :| key in LockList(s.calls[p].plan) && key in LockList(s.calls[q].plan);
    OwnedBy(s, p);
    OwnedBy(s, q);
    if InTransaction(s.calls[p]) {
      HoldsAllInTransaction(s.calls[p], key);
    }
    if InTransaction(s.calls[q]) {
      HoldsAllInTransaction(s.calls[q], key);
    }
  }

  ghost predicate SharesKey(a: MutationPlan, b: MutationPlan) {
    exists key :: key in LockList(a) && key in LockList(b)
  }
}
