/**
 * Why counting before creating keeps identities unique: transactions over one kind of
 * element, reduced to the identities they have added, may add, and have counted as absent.
 */
module Kernel {
  import opened Prelude

  datatype Client<E> = Client(active: bool, added: map<nat, E>, may: set<E>, absent: Option<E>)

  datatype Ledger<E> = Ledger(committed: map<nat, E>, clients: seq<Client<E>>)

  /** No identity occurs twice. */
  ghost predicate Unique<E>(m: map<nat, E>) {
    forall a, b :: a in m && b in m && m[a] == m[b] ==> a == b
  }

  ghost predicate Unseen<E>(m: map<nat, E>, e: E) {
    forall a :: a in m ==> m[a] != e
  }

  /** A client's own view is unique, it adds only what it may, and what it counted as absent is absent. */
  ghost predicate ClientSound<E>(committed: map<nat, E>, c: Client<E>) {
    && (!c.active ==> c.added == map[] && c.absent == None)
    && c.added.Keys !! committed.Keys
    && Unique(committed + c.added)
    && (forall a :: a in c.added ==> c.added[a] in c.may)
    && (c.absent.Some? ==> c.absent.value in c.may && Unseen(committed + c.added, c.absent.value))
  }

  ghost predicate Sound<E>(k: Ledger<E>) {
    && Unique(k.committed)
    && (forall p :: 0 <= p < |k.clients| ==> ClientSound(k.committed, k.clients[p]))
    && (forall p, q :: 0 <= p < q < |k.clients| ==> k.clients[p].added.Keys !! k.clients[q].added.Keys)
  }

  /** No two active clients may add one identity. */
  ghost predicate Apart<E>(k: Ledger<E>) {
    forall p, q :: 0 <= p < q < |k.clients| && k.clients[p].active && k.clients[q].active
      ==> k.clients[p].may !! k.clients[q].may
  }

  /** Adding what was counted as absent. */
  lemma AddAbsent<E>(committed: map<nat, E>, c: Client<E>, id: nat)
    requires ClientSound(committed, c) && c.active && c.absent.Some? && id !in committed && id !in c.added
    ensures ClientSound(committed, c.(added := c.added[id := c.absent.value], absent := None))
  {
    var next := c.added[id := c.absent.value];
    assert committed + next == (committed + c.added)[id := c.absent.value];
  }

  lemma NothingAdded<E>(committed: map<nat, E>, c: Client<E>)
    requires Unique(committed) && c.added == map[] && c.absent == None
    ensures ClientSound(committed, c)
  {
    assert committed + c.added == committed;
  }

  /** A step of one client that commits nothing. */
  lemma LocalStep<E>(k: Ledger<E>, p: nat, next: Client<E>)
    requires Sound(k) && p < |k.clients| && ClientSound(k.committed, next)
    requires forall q :: 0 <= q < |k.clients| && q != p ==> next.added.Keys !! k.clients[q].added.Keys
    ensures Sound(k.(clients := k.clients[p := next]))
  {
    hide ClientSound, Unique;
  }

  lemma MergedUnique<E>(committed: map<nat, E>, mine: map<nat, E>, other: map<nat, E>)
    requires Unique(committed + mine) && Unique(committed + other)
    requires mine.Keys !! committed.Keys && other.Keys !! committed.Keys && mine.Keys !! other.Keys
    requires forall a, b :: a in mine && b in other ==> mine[a] != other[b]
    ensures Unique(committed + mine + other)
  {
    var all, left, right := committed + mine + other, committed + mine, committed + other;
    forall a, b | a in all && b in all && all[a] == all[b]
      ensures a == b
    {
      assert a in left && b in left ==> left[a] == all[a] && left[b] == all[b];
      assert a in right && b in right ==> right[a] == all[a] && right[b] == all[b];
    }
  }

  /** When one client commits, another one whose additions are apart stays sound. */
  lemma OtherAfterCommit<E>(committed: map<nat, E>, mine: Client<E>, other: Client<E>)
    requires ClientSound(committed, mine) && ClientSound(committed, other) && mine.added.Keys !! other.added.Keys
    requires other.active ==> mine.may !! other.may
    ensures ClientSound(committed + mine.added, other)
  {
    if other.active {
      MergedUnique(committed, mine.added, other.added);
      var all := committed + mine.added + other.added;
      if other.absent.Some? {
        forall a | a in all
          ensures all[a] != other.absent.value
        {
          if a in mine.added && a !in other.added {
            assert mine.added[a] in mine.may;
          } else {
            assert a in committed + other.added && all[a] == (committed + other.added)[a];
          }
        }
      }
    } else {
      assert committed + mine.added + other.added == committed + mine.added;
    }
  }

  /** A commit of one client, under the hypothesis that open clients stay apart. */
  lemma CommitStep<E>(k: Ledger<E>, p: nat, done: Client<E>)
    requires Sound(k) && Apart(k) && p < |k.clients| && k.clients[p].active
    requires done.added == map[] && done.absent == None
    ensures Sound(Ledger(k.committed + k.clients[p].added, k.clients[p := done]))
  {
    hide ClientSound, Unique;
    var mine, t := k.clients[p], Ledger(k.committed + k.clients[p].added, k.clients[p := done]);
    CommittedUnique(k.committed, mine);
    forall q | 0 <= q < |t.clients|
      ensures ClientSound(t.committed, t.clients[q])
    {
      if q == p {
        NothingAdded(t.committed, done);
      } else {
        assert mine.added.Keys !! k.clients[q].added.Keys;
        OtherAfterCommit(k.committed, mine, k.clients[q]);
      }
    }
  }

  lemma CommittedUnique<E>(committed: map<nat, E>, c: Client<E>)
    requires ClientSound(committed, c)
    ensures Unique(committed + c.added)
  {
  }
}
