/** Strings: lexicographic order, sorting, trimming, joining and splitting. */
module Strings {

  /* ----- order ----- */

  /** Strict lexicographic order, the order of Go's `sort.Strings`. */
  predicate Less(a: string, b: string) {
    b != [] && (a == [] || a[0] < b[0] || (a[0] == b[0] && Less(a[1..], b[1..])))
  }

  predicate AtMost(a: string, b: string) {
    !Less(b, a)
  }

  lemma LessIrreflexive(a: string)
    ensures !Less(a, a)
  {
  }

  lemma {:induction false} LessTransitive(a: string, b: string, c: string)
    requires Less(a, b) && Less(b, c)
    ensures Less(a, c)
  {
    if a != [] && a[0] == b[0] && b[0] == c[0] {
      LessTransitive(a[1..], b[1..], c[1..]);
    }
  }

  lemma {:induction false} LessTotal(a: string, b: string)
    ensures Less(a, b) || a == b || Less(b, a)
  {
    if a != [] && b != [] && a[0] == b[0] {
      LessTotal(a[1..], b[1..]);
      assert a == [a[0]] + a[1..] && b == [b[0]] + b[1..];
    }
  }

  /** The first position where two strings differ decides; if there is none, the shorter one comes first. */
  lemma {:induction false} LessMeans(a: string, b: string, n: nat)
    requires n <= |a| && n <= |b| && a[..n] == b[..n]
    requires n < |a| && n < |b| ==> a[n] != b[n]
    ensures Less(a, b) <==> n < |b| && (n == |a| || a[n] < b[n])
  {
    if n > 0 {
      assert a[0] == a[..n][0] && b[0] == b[..n][0];
      assert a[1..][..n - 1] == a[..n][1..] && b[1..][..n - 1] == b[..n][1..];
      LessMeans(a[1..], b[1..], n - 1);
    }
  }

  lemma AtMostTransitive(a: string, b: string, c: string)
    requires AtMost(a, b) && AtMost(b, c)
    ensures AtMost(a, c)
  {
    LessTotal(a, b);
    LessTotal(b, c);
    if Less(c, a) {
      LessTotal(c, b);
      if Less(c, b) {
      } else if c == b {
      } else {
        LessTransitive(b, c, a);
      }
    }
  }

  /* ----- sorting ----- */

  predicate Sorted(s: seq<string>) {
    forall i, j :: 0 <= i < j < |s| ==> AtMost(s[i], s[j])
  }

  predicate StrictlySorted(s: seq<string>) {
    forall i, j :: 0 <= i < j < |s| ==> Less(s[i], s[j])
  }

  function Insert(x: string, s: seq<string>): (r: seq<string>)
    ensures multiset(r) == multiset(s) + multiset{x}
  {
    if s == [] then [x]
    else if Less(s[0], x) then
      assert s == [s[0]] + s[1..];
      [s[0]] + Insert(x, s[1..])
    else [x] + s
  }

  /** Go's `sort.Strings`, specified as a sorted permutation (see SortIsCanonical). */
  function Sort(s: seq<string>): (r: seq<string>)
    ensures multiset(r) == multiset(s)
  {
    if s == [] then []
    else
      assert s == [s[0]] + s[1..];
      Insert(s[0], Sort(s[1..]))
  }

  lemma {:induction false} InsertSorted(x: string, s: seq<string>)
    requires Sorted(s)
    ensures Sorted(Insert(x, s))
  {
    if s == [] {
    } else if Less(s[0], x) {
      var t := Insert(x, s[1..]);
      InsertSorted(x, s[1..]);
      forall j | 0 <= j < |t|
        ensures AtMost(s[0], t[j])
      {
        assert t[j] in multiset(t);
        assert multiset(t) == multiset(s[1..]) + multiset{x};
        if t[j] == x {
          LessTotal(s[0], x);
          if Less(x, s[0]) {
            LessTransitive(s[0], x, s[0]);
            LessIrreflexive(s[0]);
          }
        } else {
          assert t[j] in s[1..];
          var k :| 1 <= k < |s| && s[k] == t[j];
        }
      }
    } else {
      forall j | 0 <= j < |s|
        ensures AtMost(x, s[j])
      {
        if j > 0 {
          AtMostTransitive(x, s[0], s[j]);
        }
      }
    }
  }

  lemma {:induction false} SortSorted(s: seq<string>)
    ensures Sorted(Sort(s))
  {
    if s != [] {
      SortSorted(s[1..]);
      InsertSorted(s[0], Sort(s[1..]));
    }
  }

  lemma SortedHeadIsLeast(a: seq<string>, x: string)
    requires Sorted(a) && x in a
    ensures AtMost(a[0], x)
  {
    LessIrreflexive(x);
  }

  lemma SameHead(a: seq<string>, b: seq<string>)
    requires Sorted(a) && Sorted(b) && a != []
    requires multiset(a) == multiset(b)
    ensures b != [] && a[0] == b[0]
  {
    assert a[0] in multiset(b);
    assert b[0] in multiset(a);
    SortedHeadIsLeast(a, b[0]);
    SortedHeadIsLeast(b, a[0]);
    LessTotal(a[0], b[0]);
  }

  /** A sorted sequence is determined by its elements and their multiplicities. */
  lemma {:induction false} SortedIsUnique(a: seq<string>, b: seq<string>)
    requires Sorted(a) && Sorted(b)
    requires multiset(a) == multiset(b)
    ensures a == b
  {
    if a == [] {
      assert |b| == |multiset(b)|;
    } else {
      SameHead(a, b);
      assert a == [a[0]] + a[1..] && b == [b[0]] + b[1..];
      SortedIsUnique(a[1..], b[1..]) by {
        assert multiset(a) == multiset{a[0]} + multiset(a[1..]);
        assert multiset(b) == multiset{b[0]} + multiset(b[1..]);
        assert multiset(a[1..]) == multiset(a) - multiset{a[0]};
        assert multiset(b[1..]) == multiset(b) - multiset{b[0]};
      }
    }
  }

  /** Sorting forgets exactly the order of its input. */
  lemma SortIsCanonical(a: seq<string>, b: seq<string>)
    ensures Sort(a) == Sort(b) <==> multiset(a) == multiset(b)
  {
    SortSorted(a);
    SortSorted(b);
    if multiset(a) == multiset(b) {
      SortedIsUnique(Sort(a), Sort(b));
    }
  }

  /* ----- sets of keys in sorted order ----- */

  /** The keys of a Go map collected in any order and then sorted. */
  ghost function SortedKeys(keys: set<string>): (r: seq<string>)
    ensures multiset(r) == multiset(keys)
  {
    if keys == {} then []
    else
      var k :| k in keys;
      Insert(k, SortedKeys(keys - {k}))
  }

  lemma {:induction false} SortedKeysSorted(keys: set<string>)
    ensures Sorted(SortedKeys(keys))
  {
    if keys != {} {
      var k :| k in keys && SortedKeys(keys) == Insert(k, SortedKeys(keys - {k}));
      SortedKeysSorted(keys - {k});
      InsertSorted(k, SortedKeys(keys - {k}));
    }
  }

  lemma MultisetOfSet(s: seq<string>, keys: set<string>)
    requires multiset(s) == multiset(keys)
    ensures forall x :: x in s <==> x in keys
    ensures forall i, j :: 0 <= i < j < |s| ==> s[i] != s[j]
    ensures |s| == |keys|
  {
    forall x
      ensures x in s <==> x in keys
    {
      assert x in s <==> x in multiset(s);
      assert x in keys <==> x in multiset(keys);
    }
    forall i, j | 0 <= i < j < |s|
      ensures s[i] != s[j]
    {
      assert s == s[..j] + s[j..];
      assert s[j..][0] == s[j];
      assert multiset(s)[s[j]] == multiset(s[..j])[s[j]] + multiset(s[j..])[s[j]];
      assert s[j] !in multiset(s[..j]);
      assert s[..j][i] == s[i];
    }
    assert |s| == |multiset(s)|;
  }

  /** SortedKeys lists every key once, in strictly increasing order. */
  lemma SortedKeysListing(keys: set<string>)
    ensures StrictlySorted(SortedKeys(keys))
    ensures forall x :: x in SortedKeys(keys) <==> x in keys
    ensures |SortedKeys(keys)| == |keys|
  {
    var s := SortedKeys(keys);
    SortedKeysSorted(keys);
    MultisetOfSet(s, keys);
    forall i, j | 0 <= i < j < |s|
      ensures Less(s[i], s[j])
    {
      LessTotal(s[i], s[j]);
    }
  }

  /** Any duplicate-free enumeration of the keys sorts to SortedKeys. */
  lemma SortOfEnumeration(s: seq<string>, keys: set<string>)
    requires multiset(s) == multiset(keys)
    ensures Sort(s) == SortedKeys(keys)
  {
    SortSorted(s);
    SortedKeysSorted(keys);
    SortedIsUnique(Sort(s), SortedKeys(keys));
  }

  /** Collects map keys in whatever order the map yields them, then sorts them. */
  method CollectSorted(keys: set<string>) returns (sorted: seq<string>)
    ensures sorted == SortedKeys(keys)
  {
    sorted := [];
    var rest := keys;
    while rest != {}
      invariant rest <= keys
      invariant multiset(sorted) == multiset(keys - rest)
    {
      var key :| key in rest;
      sorted := sorted + [key];
      assert keys - (rest - {key}) == (keys - rest) + {key};
      rest := rest - {key};
    }
    assert keys - rest == keys;
    SortOfEnumeration(sorted, keys);
    sorted := Sort(sorted);
  }

  /* ----- trimming (strings.TrimSpace, unicode.IsSpace) ----- */

  predicate IsSpace(c: char) {
    || '\t' <= c <= '\r'
    || c in {' ', '\U{85}', '\U{A0}', '\U{1680}', '\U{2028}', '\U{2029}', '\U{202F}', '\U{205F}', '\U{3000}'}
    || '\U{2000}' <= c <= '\U{200A}'
  }

  function TrimLeft(s: string): string {
    if s != [] && IsSpace(s[0]) then TrimLeft(s[1..]) else s
  }

  function TrimRight(s: string): string {
    if s != [] && IsSpace(s[|s| - 1]) then TrimRight(s[..|s| - 1]) else s
  }

  function TrimSpace(s: string): string {
    TrimRight(TrimLeft(s))
  }

  predicate Trimmed(s: string) {
    s != [] ==> !IsSpace(s[0]) && !IsSpace(s[|s| - 1])
  }

  lemma {:induction false} TrimLeftResult(s: string)
    ensures TrimLeft(s) != [] ==> !IsSpace(TrimLeft(s)[0])
  {
    if s != [] && IsSpace(s[0]) {
      TrimLeftResult(s[1..]);
    }
  }

  lemma {:induction false} TrimRightResult(s: string)
    ensures TrimRight(s) <= s
    ensures TrimRight(s) != [] ==> !IsSpace(TrimRight(s)[|TrimRight(s)| - 1])
  {
    if s != [] && IsSpace(s[|s| - 1]) {
      TrimRightResult(s[..|s| - 1]);
    }
  }

  lemma TrimSpaceTrims(s: string)
    ensures Trimmed(TrimSpace(s))
  {
    TrimLeftResult(s);
    TrimRightResult(TrimLeft(s));
  }

  lemma {:induction false} TrimLeftDrops(s: string) returns (n: nat)
    ensures n <= |s| && s[n..] == TrimLeft(s) && forall i :: 0 <= i < n ==> IsSpace(s[i])
  {
    n := 0;
    if s != [] && IsSpace(s[0]) {
      n := TrimLeftDrops(s[1..]);
      n := n + 1;
    }
  }

  lemma {:induction false} TrimRightDrops(s: string)
    ensures TrimRight(s) <= s && forall i :: |TrimRight(s)| <= i < |s| ==> IsSpace(s[i])
  {
    if s != [] && IsSpace(s[|s| - 1]) {
      TrimRightDrops(s[..|s| - 1]);
    }
  }

  /** Trimming takes white space off both ends and nothing else. */
  lemma TrimSpaceDrops(s: string) returns (first: nat, last: nat)
    ensures first <= last <= |s| && TrimSpace(s) == s[first..last] && Trimmed(TrimSpace(s))
    ensures forall i :: 0 <= i < |s| && !(first <= i < last) ==> IsSpace(s[i])
  {
    first := TrimLeftDrops(s);
    TrimRightDrops(TrimLeft(s));
    last := first + |TrimSpace(s)|;
    TrimSpaceTrims(s);
    forall i | last <= i < |s|
      ensures IsSpace(s[i])
    {
      assert s[i] == TrimLeft(s)[i - first];
    }
  }

  lemma TrimmedIsFixed(s: string)
    requires Trimmed(s)
    ensures TrimSpace(s) == s
  {
  }

  /* ----- joining and splitting ----- */

  const UNIT: char := '\U{1F}'
  const UNIT_SEPARATOR: string := [UNIT]

  function Join(parts: seq<string>, sep: string): string {
    if parts == [] then ""
    else if |parts| == 1 then parts[0]
    else parts[0] + sep + Join(parts[1..], sep)
  }

  lemma {:induction false} JoinSnoc(parts: seq<string>, last: string, sep: string)
    requires parts != []
    ensures Join(parts + [last], sep) == Join(parts, sep) + sep + last
  {
    if |parts| == 1 {
      assert (parts + [last])[1..] == [last];
    } else {
      assert (parts + [last])[1..] == parts[1..] + [last];
      JoinSnoc(parts[1..], last, sep);
    }
  }

  /** Cuts at every separator character: the decoder that undoes Join. */
  function Split(s: string, sep: char): (parts: seq<string>)
    ensures parts != []
  {
    if s == [] then [""]
    else
      var rest := Split(s[1..], sep);
      if s[0] == sep then [""] + rest
      else [[s[0]] + rest[0]] + rest[1..]
  }

  lemma {:induction false} SplitPlain(s: string, sep: char)
    requires sep !in s
    ensures Split(s, sep) == [s]
  {
    if s != [] {
      SplitPlain(s[1..], sep);
      assert [s[0]] + s[1..] == s;
    }
  }

  lemma {:induction false} SplitAtFirst(head: string, tail: string, sep: char)
    requires sep !in head
    ensures Split(head + [sep] + tail, sep) == [head] + Split(tail, sep)
  {
    var s := head + [sep] + tail;
    if head == [] {
      assert s[1..] == tail;
    } else {
      assert s[1..] == head[1..] + [sep] + tail;
      SplitAtFirst(head[1..], tail, sep);
      assert [head[0]] + head[1..] == head;
    }
  }

  /** Splitting undoes joining when no part contains the separator. */
  lemma {:induction false} SplitJoin(parts: seq<string>, sep: char)
    requires parts != []
    requires forall p :: p in parts ==> sep !in p
    ensures Split(Join(parts, [sep]), sep) == parts
  {
    if |parts| == 1 {
      SplitPlain(parts[0], sep);
    } else {
      SplitAtFirst(parts[0], Join(parts[1..], [sep]), sep);
      SplitJoin(parts[1..], sep);
    }
  }

  /** Joining undoes splitting, whatever the text. */
  lemma {:induction false} JoinSplit(s: string, sep: char)
    ensures Join(Split(s, sep), [sep]) == s
  {
    if s != [] {
      JoinSplit(s[1..], sep);
      var rest := Split(s[1..], sep);
      if s[0] == sep {
        assert ([""] + rest)[1..] == rest;
      } else {
        assert ([[s[0]] + rest[0]] + rest[1..])[1..] == rest[1..];
      }
      assert [s[0]] + s[1..] == s;
    }
  }

  lemma {:induction false} SplitConcat(head: string, tail: string, sep: char)
    ensures Split(head + [sep] + tail, sep) == Split(head, sep) + Split(tail, sep)
  {
    var s := head + [sep] + tail;
    if head == [] {
      assert s[1..] == tail;
    } else {
      assert s[1..] == head[1..] + [sep] + tail;
      SplitConcat(head[1..], tail, sep);
    }
  }

  /** The pieces of a joined list: those of its parts. An empty list reads like one empty part. */
  function Pieces(parts: seq<string>, sep: char): seq<string> {
    if parts == [] then [""]
    else if |parts| == 1 then Split(parts[0], sep)
    else Split(parts[0], sep) + Pieces(parts[1..], sep)
  }

  lemma {:induction false} SplitJoined(parts: seq<string>, sep: char)
    ensures Split(Join(parts, [sep]), sep) == Pieces(parts, sep)
  {
    if |parts| > 1 {
      SplitConcat(parts[0], Join(parts[1..], [sep]), sep);
      SplitJoined(parts[1..], sep);
    }
  }

  /** Two lists join to one text exactly when they have the same pieces. */
  lemma JoinedAlike(a: seq<string>, b: seq<string>, sep: char)
    ensures Join(a, [sep]) == Join(b, [sep]) <==> Pieces(a, sep) == Pieces(b, sep)
  {
    hide Join, Split, Pieces;
    SplitJoined(a, sep);
    SplitJoined(b, sep);
    JoinSplit(Join(a, [sep]), sep);
    JoinSplit(Join(b, [sep]), sep);
  }

  lemma {:induction false} PlainPieces(parts: seq<string>, sep: char)
    requires parts != [] && forall p :: p in parts ==> sep !in p
    ensures Pieces(parts, sep) == parts
  {
    SplitPlain(parts[0], sep);
    if |parts| > 1 {
      PlainPieces(parts[1..], sep);
    }
  }

  lemma {:induction false} JoinAvoids(parts: seq<string>, sep: char, c: char)
    requires c != sep
    requires forall p :: p in parts ==> c !in p
    ensures c !in Join(parts, [sep])
  {
    if |parts| > 1 {
      JoinAvoids(parts[1..], sep, c);
    }
  }
}
