/**
 * Canonical identities (internal/engine/identity.go): the texts that are hashed, what
 * they distinguish, and how sixteen bytes of the digest become a UUID.
 *
 * SHA-1 itself is left out: nothing is said about collisions of digests.
 */
module Identity {
  import opened Prelude
  import opened Strings
  import opened Values
  import opened Domain

  /* ----- NodeUID ----- */

  function NodeTokens(types: seq<string>, name: string, hashes: seq<string>): seq<string> {
    ["node", Join(Sort(types), "|"), name, Join(Sort(hashes), "|")]
  }

  /** The input of the digest behind NodeUID. */
  function NodeText(types: seq<string>, name: string, hashes: seq<string>): string {
    Join(NodeTokens(types, name, hashes), UNIT_SEPARATOR)
  }

  predicate UnitFree(items: seq<string>) {
    forall s :: s in items ==> UNIT !in s
  }

  /** A non-empty list whose items contain neither separator. */
  predicate Plain(items: seq<string>) {
    items != [] && UnitFree(items) && forall s :: s in items ==> '|' !in s
  }

  lemma SortKeepsItems(items: seq<string>)
    ensures forall s :: s in Sort(items) <==> s in items
    ensures Sort(items) == [] <==> items == []
  {
    forall s
      ensures s in Sort(items) <==> s in items
    {
      assert s in Sort(items) <==> s in multiset(Sort(items));
      assert s in items <==> s in multiset(items);
    }
    assert |multiset(Sort(items))| == |Sort(items)| && |multiset(items)| == |items|;
  }

  /** The four parts can be read back from the text. */
  lemma NodeTextDecodes(types: seq<string>, name: string, hashes: seq<string>)
    requires UnitFree(types) && UnitFree(hashes) && UNIT !in name
    ensures Split(NodeText(types, name, hashes), UNIT) == NodeTokens(types, name, hashes)
  {
    hide Join, Split, Sort;
    SortKeepsItems(types);
    SortKeepsItems(hashes);
    JoinAvoids(Sort(types), '|', UNIT);
    JoinAvoids(Sort(hashes), '|', UNIT);
    SplitJoin(NodeTokens(types, name, hashes), UNIT);
  }

  /**
   * The digest's inputs agree exactly when names agree and the sorted types, and the
   * sorted hashes, fall into the same pieces when they are cut at every "|".
   */
  lemma NodeTextsAgree(types: seq<string>, name: string, hashes: seq<string>,
                       types2: seq<string>, name2: string, hashes2: seq<string>)
    requires UnitFree(types) && UnitFree(hashes) && UNIT !in name
    requires UnitFree(types2) && UnitFree(hashes2) && UNIT !in name2
    ensures NodeText(types, name, hashes) == NodeText(types2, name2, hashes2)
      <==> (&& name == name2
            && Pieces(Sort(types), '|') == Pieces(Sort(types2), '|')
            && Pieces(Sort(hashes), '|') == Pieces(Sort(hashes2), '|'))
  {
    hide Join, Split, Sort, Pieces;
    JoinedAlike(Sort(types), Sort(types2), '|');
    JoinedAlike(Sort(hashes), Sort(hashes2), '|');
    if NodeText(types, name, hashes) == NodeText(types2, name2, hashes2) {
      NodeTextDecodes(types, name, hashes);
      NodeTextDecodes(types2, name2, hashes2);
      var tokens, tokens2 := NodeTokens(types, name, hashes), NodeTokens(types2, name2, hashes2);
      assert tokens[1] == tokens2[1] && tokens[2] == tokens2[2] && tokens[3] == tokens2[3];
    }
  }

  lemma PlainSorted(items: seq<string>)
    requires Plain(items)
    ensures Pieces(Sort(items), '|') == Sort(items)
  {
    SortKeepsItems(items);
    PlainPieces(Sort(items), '|');
  }

  /** For lists without "|", that is: both lists are permutations of each other. */
  lemma NodeTextExactly(types: seq<string>, name: string, hashes: seq<string>,
                        types2: seq<string>, name2: string, hashes2: seq<string>)
    requires Plain(types) && Plain(hashes) && UNIT !in name
    requires Plain(types2) && Plain(hashes2) && UNIT !in name2
    ensures NodeText(types, name, hashes) == NodeText(types2, name2, hashes2)
      <==> multiset(types) == multiset(types2) && name == name2 && multiset(hashes) == multiset(hashes2)
  {
    hide NodeText, Pieces, Sort;
    NodeTextsAgree(types, name, hashes, types2, name2, hashes2);
    PlainSorted(types);
    PlainSorted(types2);
    PlainSorted(hashes);
    PlainSorted(hashes2);
    SortIsCanonical(types, types2);
    SortIsCanonical(hashes, hashes2);
  }

  lemma SortOne(a: string)
    ensures Sort([a]) == [a]
  {
  }

  lemma SortTwo(a: string, b: string)
    requires !Less(b, a)
    ensures Sort([a, b]) == [a, b]
  {
  }

  lemma JoinTwo(a: string, b: string, sep: string)
    ensures Join([a, b], sep) == a + sep + b
  {
  }

  /** With "|" inside a hash two different hash lists do fall into the same pieces. */
  lemma BarCollides(types: seq<string>, name: string)
    ensures NodeText(types, name, ["a|b"]) == NodeText(types, name, ["a", "b"])
    ensures multiset(["a|b"]) != multiset(["a", "b"])
  {
    assert !Less("b", "a");
    hide Sort, Join, Less;
    SortOne("a|b");
    SortTwo("a", "b");
    JoinOne("a|b", "|");
    JoinTwo("a", "b", "|");
    assert "a" + "|" + "b" == "a|b";
    assert |multiset(["a|b"])| == 1 && |multiset(["a", "b"])| == 2;
  }

  /* ----- SelectorIdentity and RelationshipUID ----- */

  /** canonicalValue: text stands for itself, anything else is encoded by a foreign function. */
  type Canonical = Value -> string

  const SELECTOR: string := "selector"

  function PairTokens(canonical: Canonical, keys: seq<string>, attributes: Props): seq<string>
    requires forall k :: k in keys ==> k in attributes
  {
    if keys == [] then []
    else [keys[0], canonical(attributes[keys[0]])] + PairTokens(canonical, keys[1..], attributes)
  }

  lemma {:induction false} PairTokensNext(canonical: Canonical, keys: seq<string>, key: string, attributes: Props)
    requires key in attributes && forall k :: k in keys ==> k in attributes
    ensures PairTokens(canonical, keys + [key], attributes)
      == PairTokens(canonical, keys, attributes) + [key, canonical(attributes[key])]
  {
    if keys == [] {
      assert ([] + [key])[1..] == [];
    } else {
      assert (keys + [key])[1..] == keys[1..] + [key];
      PairTokensNext(canonical, keys[1..], key, attributes);
    }
  }

  ghost function KeysOf(attributes: Props): (keys: seq<string>)
    ensures forall k :: k in keys <==> k in attributes
  {
    SortedKeysListing(attributes.Keys);
    SortedKeys(attributes.Keys)
  }

  ghost function SelectorTokens(canonical: Canonical, selector: NodeSelector): seq<string> {
    [SELECTOR, selector.kind] + PairTokens(canonical, KeysOf(selector.attributes), selector.attributes)
  }

  method SelectorIdentity(canonical: Canonical, selector: NodeSelector) returns (text: string)
    ensures text == Join(SelectorTokens(canonical, selector), UNIT_SEPARATOR)
  {
    hide PairTokens, Join;
    KeysAre(selector.attributes);
    var keys := CollectSorted(selector.attributes.Keys);
    var parts := SelectorParts(canonical, selector, keys);
    text := Join(parts, UNIT_SEPARATOR);
  }

  method SelectorParts(canonical: Canonical, selector: NodeSelector, keys: seq<string>) returns (parts: seq<string>)
    requires forall k :: k in keys ==> k in selector.attributes
    ensures parts == [SELECTOR, selector.kind] + PairTokens(canonical, keys, selector.attributes)
  {
    parts := [SELECTOR, selector.kind];
    for index := 0 to |keys|
      invariant parts == [SELECTOR, selector.kind] + PairTokens(canonical, keys[..index], selector.attributes)
    {
      var key := keys[index];
      assert keys[..index + 1] == keys[..index] + [key];
      PairTokensNext(canonical, keys[..index], key, selector.attributes);
      parts := parts + [key, canonical(selector.attributes[key])];
    }
    assert keys[..|keys|] == keys;
  }

  lemma KeysAre(attributes: Props)
    ensures KeysOf(attributes) == SortedKeys(attributes.Keys)
    ensures forall k :: k in SortedKeys(attributes.Keys) ==> k in attributes
  {
  }

  lemma SelectorTokensAre(canonical: Canonical, selector: NodeSelector)
    ensures SelectorTokens(canonical, selector)
      == [SELECTOR, selector.kind] + PairTokens(canonical, KeysOf(selector.attributes), selector.attributes)
  {
  }

  ghost function RelationshipTokens(canonical: Canonical, kind: string, hash: string,
                                    source: NodeSelector, target: NodeSelector): seq<string> {
    ["relationship", kind, hash] + SelectorTokens(canonical, source) + SelectorTokens(canonical, target)
  }

  /** The input of the digest behind RelationshipUID. */
  ghost function RelationshipText(canonical: Canonical, kind: string, hash: string,
                                  source: NodeSelector, target: NodeSelector): string {
    Join(["relationship", kind, hash,
          Join(SelectorTokens(canonical, source), UNIT_SEPARATOR),
          Join(SelectorTokens(canonical, target), UNIT_SEPARATOR)], UNIT_SEPARATOR)
  }

  lemma {:induction false} JoinConcat(a: seq<string>, b: seq<string>, sep: string)
    requires a != [] && b != []
    ensures Join(a + b, sep) == Join(a, sep) + sep + Join(b, sep)
  {
    if |a| == 1 {
      assert (a + b)[1..] == b;
    } else {
      assert (a + b)[1..] == a[1..] + b;
      JoinConcat(a[1..], b, sep);
    }
  }

  /** Joining joined parts is joining all tokens at once: the nesting leaves no trace. */
  lemma RelationshipTextIsFlat(canonical: Canonical, kind: string, hash: string, source: NodeSelector, target: NodeSelector)
    ensures RelationshipText(canonical, kind, hash, source, target)
      == Join(RelationshipTokens(canonical, kind, hash, source, target), UNIT_SEPARATOR)
  {
    var s, t := SelectorTokens(canonical, source), SelectorTokens(canonical, target);
    hide Join, SelectorTokens;
    SelectorTokensAre(canonical, source);
    SelectorTokensAre(canonical, target);
    var head := ["relationship", kind, hash];
    var js, jt := Join(s, UNIT_SEPARATOR), Join(t, UNIT_SEPARATOR);
    JoinOne(js, UNIT_SEPARATOR);
    JoinOne(jt, UNIT_SEPARATOR);
    assert ["relationship", kind, hash, js, jt] == head + [js] + [jt];
    JoinConcat(head + [js], [jt], UNIT_SEPARATOR);
    JoinConcat(head, [js], UNIT_SEPARATOR);
    JoinConcat(head + s, t, UNIT_SEPARATOR);
    JoinConcat(head, s, UNIT_SEPARATOR);
  }

  lemma JoinOne(s: string, sep: string)
    ensures Join([s], sep) == s
  {
  }

  /* ----- the decoder ----- */

  type Pairs = seq<(string, string)>

  function PairsOf(canonical: Canonical, keys: seq<string>, attributes: Props): Pairs
    requires forall k :: k in keys ==> k in attributes
  {
    seq(|keys|, i requires 0 <= i < |keys| => (keys[i], canonical(attributes[keys[i]])))
  }

  /** What an identity keeps of a selector: its type and each key with its canonical text. */
  datatype SelectorView = SelectorView(kind: string, pairs: Pairs)

  ghost function ViewOf(canonical: Canonical, selector: NodeSelector): SelectorView {
    SelectorView(selector.kind, PairsOf(canonical, KeysOf(selector.attributes), selector.attributes))
  }

  datatype RelationshipView = RelationshipView(kind: string, hash: string, source: SelectorView, target: SelectorView)

  /** Pairs up to the next "selector" in the place of a key. */
  function ReadPairs(tokens: seq<string>): (Pairs, seq<string>) {
    if |tokens| < 2 || tokens[0] == SELECTOR then ([], tokens)
    else
      var (pairs, rest) := ReadPairs(tokens[2..]);
      ([(tokens[0], tokens[1])] + pairs, rest)
  }

  function ReadAllPairs(tokens: seq<string>): Pairs {
    if |tokens| < 2 then [] else [(tokens[0], tokens[1])] + ReadAllPairs(tokens[2..])
  }

  function DecodeTokens(tokens: seq<string>): Option<RelationshipView> {
    if |tokens| < 5 then None
    else
      var (pairs, rest) := ReadPairs(tokens[5..]);
      if |rest| < 2 then None
      else Some(RelationshipView(tokens[1], tokens[2],
                                 SelectorView(tokens[4], pairs), SelectorView(rest[1], ReadAllPairs(rest[2..]))))
  }

  function Decode(text: string): Option<RelationshipView> {
    DecodeTokens(Split(text, UNIT))
  }

  lemma {:induction false} ReadPairsBack(canonical: Canonical, keys: seq<string>, attributes: Props, tail: seq<string>)
    requires forall k :: k in keys ==> k in attributes && k != SELECTOR
    requires tail != [] && tail[0] == SELECTOR
    ensures ReadPairs(PairTokens(canonical, keys, attributes) + tail) == (PairsOf(canonical, keys, attributes), tail)
  {
    var tokens := PairTokens(canonical, keys, attributes) + tail;
    if keys == [] {
      assert tokens == tail && PairsOf(canonical, keys, attributes) == [];
    } else {
      assert tokens[2..] == PairTokens(canonical, keys[1..], attributes) + tail;
      assert keys[0] in keys && forall k :: k in keys[1..] ==> k in keys;
      ReadPairsBack(canonical, keys[1..], attributes, tail);
      assert PairsOf(canonical, keys, attributes)
        == [(keys[0], canonical(attributes[keys[0]]))] + PairsOf(canonical, keys[1..], attributes);
    }
  }

  lemma {:induction false} ReadAllPairsBack(canonical: Canonical, keys: seq<string>, attributes: Props)
    requires forall k :: k in keys ==> k in attributes
    ensures ReadAllPairs(PairTokens(canonical, keys, attributes)) == PairsOf(canonical, keys, attributes)
  {
    var tokens := PairTokens(canonical, keys, attributes);
    if keys != [] {
      assert tokens[2..] == PairTokens(canonical, keys[1..], attributes);
      ReadAllPairsBack(canonical, keys[1..], attributes);
      assert PairsOf(canonical, keys, attributes)
        == [(keys[0], canonical(attributes[keys[0]]))] + PairsOf(canonical, keys[1..], attributes);
    }
  }

  ghost predicate CleanSelector(canonical: Canonical, selector: NodeSelector) {
    UNIT !in selector.kind &&
    forall k :: k in selector.attributes ==> UNIT !in k && UNIT !in canonical(selector.attributes[k])
  }

  lemma {:induction false} PairTokensClean(canonical: Canonical, keys: seq<string>, attributes: Props)
    requires forall k :: k in keys ==> k in attributes && UNIT !in k && UNIT !in canonical(attributes[k])
    ensures forall t :: t in PairTokens(canonical, keys, attributes) ==> UNIT !in t
  {
    if keys != [] {
      PairTokensClean(canonical, keys[1..], attributes);
    }
  }

  lemma SelectorTokensClean(canonical: Canonical, selector: NodeSelector)
    requires CleanSelector(canonical, selector)
    ensures forall t :: t in SelectorTokens(canonical, selector) ==> UNIT !in t
  {
    PairTokensClean(canonical, KeysOf(selector.attributes), selector.attributes);
  }

  ghost predicate CleanRelationship(canonical: Canonical, kind: string, hash: string, source: NodeSelector, target: NodeSelector) {
    UNIT !in kind && UNIT !in hash && CleanSelector(canonical, source) && CleanSelector(canonical, target)
  }

  ghost predicate Decodable(canonical: Canonical, kind: string, hash: string, source: NodeSelector, target: NodeSelector) {
    CleanRelationship(canonical, kind, hash, source, target) && SELECTOR !in source.attributes
  }

  lemma DecodeTokensBack(kind: string, hash: string, sk: string, ps: seq<string>, pairs: Pairs, tk: string, pt: seq<string>)
    requires ReadPairs(ps + ([SELECTOR, tk] + pt)) == (pairs, [SELECTOR, tk] + pt)
    ensures DecodeTokens(["relationship", kind, hash] + ([SELECTOR, sk] + ps) + ([SELECTOR, tk] + pt))
      == Some(RelationshipView(kind, hash, SelectorView(sk, pairs), SelectorView(tk, ReadAllPairs(pt))))
  {
    hide ReadPairs, ReadAllPairs;
    var t := [SELECTOR, tk] + pt;
    var tokens := ["relationship", kind, hash] + ([SELECTOR, sk] + ps) + t;
    assert tokens[5..] == ps + t && t[2..] == pt;
  }

  lemma RelationshipTokensClean(canonical: Canonical, kind: string, hash: string, source: NodeSelector, target: NodeSelector)
    requires CleanRelationship(canonical, kind, hash, source, target)
    ensures forall token :: token in RelationshipTokens(canonical, kind, hash, source, target) ==> UNIT !in token
  {
    hide SelectorTokens, CleanSelector;
    SelectorTokensClean(canonical, source);
    SelectorTokensClean(canonical, target);
  }

  lemma SourceReadsBack(canonical: Canonical, source: NodeSelector, tail: seq<string>)
    requires SELECTOR !in source.attributes && tail != [] && tail[0] == SELECTOR
    ensures ReadPairs(PairTokens(canonical, KeysOf(source.attributes), source.attributes) + tail)
      == (PairsOf(canonical, KeysOf(source.attributes), source.attributes), tail)
  {
    hide ReadPairs, PairTokens, PairsOf;
    ReadPairsBack(canonical, KeysOf(source.attributes), source.attributes, tail);
  }

  /** The decoder recovers type, hash and both selectors, up to canonical value text. */
  lemma DecodeRelationship(canonical: Canonical, kind: string, hash: string, source: NodeSelector, target: NodeSelector)
    requires Decodable(canonical, kind, hash, source, target)
    ensures Decode(RelationshipText(canonical, kind, hash, source, target))
      == Some(RelationshipView(kind, hash, ViewOf(canonical, source), ViewOf(canonical, target)))
  {
    hide RelationshipText, SelectorTokens, PairTokens, PairsOf, KeysOf, Join, Split, ReadPairs, ReadAllPairs,
         DecodeTokens, CleanSelector;
    RelationshipTextIsFlat(canonical, kind, hash, source, target);
    RelationshipTokensClean(canonical, kind, hash, source, target);
    SelectorTokensAre(canonical, source);
    SelectorTokensAre(canonical, target);
    SplitJoin(RelationshipTokens(canonical, kind, hash, source, target), UNIT);
    var ps := PairTokens(canonical, KeysOf(source.attributes), source.attributes);
    var pt := PairTokens(canonical, KeysOf(target.attributes), target.attributes);
    SourceReadsBack(canonical, source, [SELECTOR, target.kind] + pt);
    ReadAllPairsBack(canonical, KeysOf(target.attributes), target.attributes);
    DecodeTokensBack(kind, hash, source.kind, ps, PairsOf(canonical, KeysOf(source.attributes), source.attributes), target.kind, pt);
  }

  lemma PairsDetermine(canonical: Canonical, keys: seq<string>, a: Props, keys2: seq<string>, b: Props)
    requires forall k :: k in keys ==> k in a
    requires forall k :: k in keys2 ==> k in b
    requires PairsOf(canonical, keys, a) == PairsOf(canonical, keys2, b)
    ensures keys == keys2 && forall k :: k in keys ==> k in b && canonical(a[k]) == canonical(b[k])
  {
    var pa, pb := PairsOf(canonical, keys, a), PairsOf(canonical, keys2, b);
    assert |keys| == |pa| == |pb| == |keys2|;
    forall i | 0 <= i < |keys|
      ensures keys[i] == keys2[i] && canonical(a[keys[i]]) == canonical(b[keys2[i]])
    {
      assert pa[i] == (keys[i], canonical(a[keys[i]])) && pb[i] == (keys2[i], canonical(b[keys2[i]]));
    }
  }

  lemma SameTextsSamePairs(canonical: Canonical, keys: seq<string>, a: Props, b: Props)
    requires forall k :: k in keys ==> k in a && k in b && canonical(a[k]) == canonical(b[k])
    ensures PairsOf(canonical, keys, a) == PairsOf(canonical, keys, b)
  {
  }

  /** Equal views mean equal types and attribute names, with equal canonical texts. */
  lemma SameView(canonical: Canonical, a: NodeSelector, b: NodeSelector)
    ensures ViewOf(canonical, a) == ViewOf(canonical, b) <==>
      && a.kind == b.kind && a.attributes.Keys == b.attributes.Keys
      && forall k :: k in a.attributes ==> canonical(a.attributes[k]) == canonical(b.attributes[k])
  {
    hide PairsOf;
    var ka, kb := KeysOf(a.attributes), KeysOf(b.attributes);
    hide KeysOf;
    if ViewOf(canonical, a) == ViewOf(canonical, b) {
      PairsDetermine(canonical, ka, a.attributes, kb, b.attributes);
      assert forall k :: k in a.attributes.Keys <==> k in b.attributes.Keys;
    }
    if a.kind == b.kind && a.attributes.Keys == b.attributes.Keys
       && forall k :: k in a.attributes ==> canonical(a.attributes[k]) == canonical(b.attributes[k]) {
      SameKeys(a.attributes, b.attributes);
      SameTextsSamePairs(canonical, ka, a.attributes, b.attributes);
    }
  }

  lemma SameKeys(a: Props, b: Props)
    requires a.Keys == b.Keys
    ensures KeysOf(a) == KeysOf(b)
  {
  }

  /* ----- when two texts agree ----- */

  function Flat(pairs: Pairs): seq<string> {
    if pairs == [] then [] else [pairs[0].0, pairs[0].1] + Flat(pairs[1..])
  }

  lemma {:induction false} PairTokensAreFlat(canonical: Canonical, keys: seq<string>, attributes: Props)
    requires forall k :: k in keys ==> k in attributes
    ensures PairTokens(canonical, keys, attributes) == Flat(PairsOf(canonical, keys, attributes))
  {
    if keys != [] {
      PairTokensAreFlat(canonical, keys[1..], attributes);
      assert PairsOf(canonical, keys, attributes)[1..] == PairsOf(canonical, keys[1..], attributes);
    }
  }

  lemma {:induction false} FlatConcat(a: Pairs, b: Pairs)
    ensures Flat(a + b) == Flat(a) + Flat(b)
  {
    if a == [] {
      assert a + b == b;
    } else {
      assert (a + b)[1..] == a[1..] + b;
      FlatConcat(a[1..], b);
    }
  }

  lemma {:induction false} FlatInjective(a: Pairs, b: Pairs)
    requires Flat(a) == Flat(b)
    ensures a == b
  {
    if a == [] || b == [] {
    } else {
      assert Flat(a)[0] == Flat(b)[0] && Flat(a)[1] == Flat(b)[1];
      assert Flat(a)[2..] == Flat(a[1..]) && Flat(b)[2..] == Flat(b[1..]);
      FlatInjective(a[1..], b[1..]);
      assert a == [a[0]] + a[1..] && b == [b[0]] + b[1..];
    }
  }

  /** Everything after type, hash and source type, read as pairs: the target's type looks like an attribute. */
  function Tail(source: SelectorView, target: SelectorView): Pairs {
    source.pairs + [(SELECTOR, target.kind)] + target.pairs
  }

  lemma TokensByTail(canonical: Canonical, kind: string, hash: string, source: NodeSelector, target: NodeSelector)
    ensures RelationshipTokens(canonical, kind, hash, source, target)
      == ["relationship", kind, hash, SELECTOR, source.kind] + Flat(Tail(ViewOf(canonical, source), ViewOf(canonical, target)))
  {
    hide PairTokens, PairsOf, KeysOf, Flat;
    var s, t := ViewOf(canonical, source), ViewOf(canonical, target);
    SelectorTokensAre(canonical, source);
    SelectorTokensAre(canonical, target);
    PairTokensAreFlat(canonical, KeysOf(source.attributes), source.attributes);
    PairTokensAreFlat(canonical, KeysOf(target.attributes), target.attributes);
    FlatConcat(s.pairs + [(SELECTOR, target.kind)], t.pairs);
    FlatConcat(s.pairs, [(SELECTOR, target.kind)]);
    FlatOne(SELECTOR, target.kind);
  }

  lemma FlatOne(key: string, text: string)
    ensures Flat([(key, text)]) == [key, text]
  {
  }

  /** The target's type is read as an attribute of the longer source, and an attribute of the longer target as a type. */
  ghost predicate Overlap(source: SelectorView, target: SelectorView, source2: SelectorView, target2: SelectorView) {
    source.kind == source2.kind &&
    exists middle: Pairs ::
      && source2.pairs == source.pairs + [(SELECTOR, target.kind)] + middle
      && target.pairs == middle + [(SELECTOR, target2.kind)] + target2.pairs
  }

  lemma ShorterOverlaps(s: SelectorView, t: SelectorView, s2: SelectorView, t2: SelectorView)
    requires s.kind == s2.kind && |s.pairs| < |s2.pairs| && Tail(s, t) == Tail(s2, t2)
    ensures Overlap(s, t, s2, t2)
  {
    var n, m, tail := |s.pairs|, |s2.pairs|, Tail(s, t);
    var middle := s2.pairs[n + 1..];
    assert tail[..n] == s.pairs && tail[..m] == s2.pairs;
    assert tail[n] == (SELECTOR, t.kind) && tail[n + 1..] == t.pairs;
    assert tail[m] == (SELECTOR, t2.kind) && tail[m + 1..] == t2.pairs;
    assert s2.pairs == s.pairs + [(SELECTOR, t.kind)] + middle;
    assert tail[n + 1..] == tail[n + 1..m] + [tail[m]] + tail[m + 1..];
    assert middle == tail[n + 1..m];
  }

  lemma OverlapsAgree(s: SelectorView, t: SelectorView, s2: SelectorView, t2: SelectorView)
    requires Overlap(s, t, s2, t2)
    ensures Tail(s, t) == Tail(s2, t2)
  {
  }

  lemma TailsAgree(s: SelectorView, t: SelectorView, s2: SelectorView, t2: SelectorView)
    requires s.kind == s2.kind
    ensures Tail(s, t) == Tail(s2, t2) <==> (s == s2 && t == t2) || Overlap(s, t, s2, t2) || Overlap(s2, t2, s, t)
  {
    hide Overlap;
    if Overlap(s, t, s2, t2) {
      OverlapsAgree(s, t, s2, t2);
    }
    if Overlap(s2, t2, s, t) {
      OverlapsAgree(s2, t2, s, t);
    }
    if Tail(s, t) == Tail(s2, t2) {
      if |s.pairs| < |s2.pairs| {
        ShorterOverlaps(s, t, s2, t2);
      } else if |s2.pairs| < |s.pairs| {
        ShorterOverlaps(s2, t2, s, t);
      } else {
        SameLengthTails(s, t, s2, t2);
      }
    }
  }

  lemma SameLengthTails(s: SelectorView, t: SelectorView, s2: SelectorView, t2: SelectorView)
    requires |s.pairs| == |s2.pairs| && Tail(s, t) == Tail(s2, t2)
    ensures s.pairs == s2.pairs && t == t2
  {
    var n, tail := |s.pairs|, Tail(s, t);
    assert tail[..n] == s.pairs && tail[n] == (SELECTOR, t.kind) && tail[n + 1..] == t.pairs;
    assert tail[..n] == s2.pairs && tail[n] == (SELECTOR, t2.kind) && tail[n + 1..] == t2.pairs;
  }

  lemma TextsByTokens(canonical: Canonical,
                      kind: string, hash: string, source: NodeSelector, target: NodeSelector,
                      kind2: string, hash2: string, source2: NodeSelector, target2: NodeSelector)
    requires CleanRelationship(canonical, kind, hash, source, target)
    requires CleanRelationship(canonical, kind2, hash2, source2, target2)
    ensures RelationshipText(canonical, kind, hash, source, target) == RelationshipText(canonical, kind2, hash2, source2, target2)
      <==> RelationshipTokens(canonical, kind, hash, source, target) == RelationshipTokens(canonical, kind2, hash2, source2, target2)
  {
    hide RelationshipText, SelectorTokens, Join, Split;
    RelationshipTextIsFlat(canonical, kind, hash, source, target);
    RelationshipTextIsFlat(canonical, kind2, hash2, source2, target2);
    RelationshipTokensClean(canonical, kind, hash, source, target);
    RelationshipTokensClean(canonical, kind2, hash2, source2, target2);
    SplitJoin(RelationshipTokens(canonical, kind, hash, source, target), UNIT);
    SplitJoin(RelationshipTokens(canonical, kind2, hash2, source2, target2), UNIT);
  }

  lemma HeadsAgree(kind: string, hash: string, sk: string, tail: Pairs, kind2: string, hash2: string, sk2: string, tail2: Pairs)
    ensures ["relationship", kind, hash, SELECTOR, sk] + Flat(tail) == ["relationship", kind2, hash2, SELECTOR, sk2] + Flat(tail2)
      <==> kind == kind2 && hash == hash2 && sk == sk2 && tail == tail2
  {
    hide Flat;
    var a, b := ["relationship", kind, hash, SELECTOR, sk] + Flat(tail), ["relationship", kind2, hash2, SELECTOR, sk2] + Flat(tail2);
    if a == b {
      assert a[1] == b[1] && a[2] == b[2] && a[4] == b[4] && a[5..] == b[5..];
      FlatInjective(tail, tail2);
    }
  }

  /**
   * The digest's inputs agree exactly when type and hash agree and both selectors do, up
   * to canonical value text, or one relationship is the other cut at another "selector".
   */
  lemma RelationshipTextsAgree(canonical: Canonical,
                               kind: string, hash: string, source: NodeSelector, target: NodeSelector,
                               kind2: string, hash2: string, source2: NodeSelector, target2: NodeSelector)
    requires CleanRelationship(canonical, kind, hash, source, target)
    requires CleanRelationship(canonical, kind2, hash2, source2, target2)
    ensures var s, t := ViewOf(canonical, source), ViewOf(canonical, target);
      var s2, t2 := ViewOf(canonical, source2), ViewOf(canonical, target2);
      RelationshipText(canonical, kind, hash, source, target) == RelationshipText(canonical, kind2, hash2, source2, target2)
      <==> kind == kind2 && hash == hash2 && ((s == s2 && t == t2) || Overlap(s, t, s2, t2) || Overlap(s2, t2, s, t))
  {
    hide RelationshipText, RelationshipTokens, CleanRelationship, PairsOf, KeysOf, Tail, Flat;
    var s, t, s2, t2 := ViewOf(canonical, source), ViewOf(canonical, target), ViewOf(canonical, source2), ViewOf(canonical, target2);
    TextsByTokens(canonical, kind, hash, source, target, kind2, hash2, source2, target2);
    TokensByTail(canonical, kind, hash, source, target);
    TokensByTail(canonical, kind2, hash2, source2, target2);
    HeadsAgree(kind, hash, source.kind, Tail(s, t), kind2, hash2, source2.kind, Tail(s2, t2));
    if source.kind == source2.kind {
      TailsAgree(s, t, s2, t2);
    }
  }

  lemma OverlapNeedsSelector(canonical: Canonical, s: SelectorView, t: SelectorView, source2: NodeSelector, t2: SelectorView)
    requires Overlap(s, t, ViewOf(canonical, source2), t2)
    ensures SELECTOR in source2.attributes
  {
    hide KeysOf;
    var keys, n := KeysOf(source2.attributes), |s.pairs|;
    assert ViewOf(canonical, source2).pairs[n] == (SELECTOR, t.kind);
    assert keys[n] == SELECTOR;
  }

  /** Without source attributes named "selector", that is: type, hash and both selectors agree. */
  lemma RelationshipTextExactly(canonical: Canonical,
                                kind: string, hash: string, source: NodeSelector, target: NodeSelector,
                                kind2: string, hash2: string, source2: NodeSelector, target2: NodeSelector)
    requires Decodable(canonical, kind, hash, source, target)
    requires Decodable(canonical, kind2, hash2, source2, target2)
    ensures RelationshipText(canonical, kind, hash, source, target) == RelationshipText(canonical, kind2, hash2, source2, target2)
      <==> (&& kind == kind2 && hash == hash2
            && ViewOf(canonical, source) == ViewOf(canonical, source2)
            && ViewOf(canonical, target) == ViewOf(canonical, target2))
  {
    hide RelationshipText, ViewOf, Overlap, CleanSelector;
    var s, t, s2, t2 := ViewOf(canonical, source), ViewOf(canonical, target), ViewOf(canonical, source2), ViewOf(canonical, target2);
    RelationshipTextsAgree(canonical, kind, hash, source, target, kind2, hash2, source2, target2);
    if Overlap(s, t, s2, t2) {
      OverlapNeedsSelector(canonical, s, t, source2, t2);
    }
    if Overlap(s2, t2, s, t) {
      OverlapNeedsSelector(canonical, s2, t2, source, t);
    }
  }

  /** One source attribute named "selector" makes two different relationships collide. */
  lemma SelectorAttributeCollides(canonical: Canonical, kind: string, hash: string)
    requires forall s :: canonical(Text(s)) == s
    ensures var plain := NodeSelector("A", map["a" := Text("1")]);
      var source := NodeSelector("A", map["a" := Text("1"), SELECTOR := Text("B")]);
      var target := NodeSelector("T", map["x" := Text("2")]);
      var target2 := NodeSelector("B", map[SELECTOR := Text("T"), "x" := Text("2")]);
      && RelationshipText(canonical, kind, hash, source, target) == RelationshipText(canonical, kind, hash, plain, target2)
      && ViewOf(canonical, source) != ViewOf(canonical, plain)
  {
    hide *;
    var plain := NodeSelector("A", map["a" := Text("1")]);
    var source := NodeSelector("A", map["a" := Text("1"), SELECTOR := Text("B")]);
    var target := NodeSelector("T", map["x" := Text("2")]);
    var target2 := NodeSelector("B", map[SELECTOR := Text("T"), "x" := Text("2")]);
    OneAttribute(canonical, plain, "a", "1");
    OneAttribute(canonical, target, "x", "2");
    SmallTexts();
    TwoAttributes(canonical, source, "a", "1", SELECTOR, "B");
    TwoAttributes(canonical, target2, SELECTOR, "T", "x", "2");
    RelationshipTextIsFlat(canonical, kind, hash, source, target);
    RelationshipTextIsFlat(canonical, kind, hash, plain, target2);
    TokensAre(canonical, kind, hash, source, target);
    TokensAre(canonical, kind, hash, plain, target2);
    assert ["relationship", kind, hash] + [SELECTOR, "A", "a", "1", SELECTOR, "B"] + [SELECTOR, "T", "x", "2"]
      == ["relationship", kind, hash] + [SELECTOR, "A", "a", "1"] + [SELECTOR, "B", SELECTOR, "T", "x", "2"];
    SameView(canonical, source, plain);
    assert SELECTOR in source.attributes.Keys;
    assert SELECTOR !in plain.attributes.Keys;
  }

  lemma TokensAre(canonical: Canonical, kind: string, hash: string, source: NodeSelector, target: NodeSelector)
    ensures RelationshipTokens(canonical, kind, hash, source, target)
      == ["relationship", kind, hash] + SelectorTokens(canonical, source) + SelectorTokens(canonical, target)
  {
  }

  lemma SmallTexts()
    ensures Less("a", SELECTOR) && Less(SELECTOR, "x") && "a" != SELECTOR && SELECTOR != "x"
  {
  }

  lemma OneAttribute(canonical: Canonical, selector: NodeSelector, key: string, text: string)
    requires canonical(Text(text)) == text && selector.attributes == map[key := Text(text)]
    ensures SelectorTokens(canonical, selector) == [SELECTOR, selector.kind, key, text]
  {
    var keys := KeysOf(selector.attributes);
    SortedKeysListing(selector.attributes.Keys);
    assert keys == [key] by {
      assert |keys| == |selector.attributes.Keys| == |{key}| == 1;
      assert keys[0] in keys;
    }
    OnePair(canonical, key, selector.attributes);
  }

  lemma OnePair(canonical: Canonical, key: string, attributes: Props)
    requires key in attributes
    ensures PairTokens(canonical, [key], attributes) == [key, canonical(attributes[key])]
  {
  }

  lemma TwoAttributes(canonical: Canonical, selector: NodeSelector, a: string, s: string, b: string, t: string)
    requires canonical(Text(s)) == s && canonical(Text(t)) == t
    requires Less(a, b) && a != b && selector.attributes == map[a := Text(s), b := Text(t)]
    ensures SelectorTokens(canonical, selector) == [SELECTOR, selector.kind, a, s, b, t]
  {
    hide *;
    SelectorTokensAre(canonical, selector);
    KeysAre(selector.attributes);
    TwoSortedKeys(selector.attributes.Keys, a, b);
    assert [a, b] == [a] + [b];
    OnePair(canonical, a, selector.attributes);
    PairTokensNext(canonical, [a], b, selector.attributes);
  }

  lemma TwoSortedKeys(keys: set<string>, a: string, b: string)
    requires keys == {a, b} && a != b && Less(a, b)
    ensures SortedKeys(keys) == [a, b]
  {
    var sorted := SortedKeys(keys);
    SortedKeysListing(keys);
    assert |keys| == 2;
    assert sorted[0] in sorted && sorted[1] in sorted && Less(sorted[0], sorted[1]);
    LessIrreflexive(a);
    LessIrreflexive(b);
    if Less(b, a) {
      LessTransitive(a, b, a);
    }
  }
}
