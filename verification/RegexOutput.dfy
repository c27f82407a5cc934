/**
 * The output templates of REGEX processors: scanning `$digits` references, validating
 * them and expanding them (property_transforms.go, validate.go).
 */
module RegexOutput {
  import opened Prelude

  predicate IsDigit(c: char) {
    '0' <= c <= '9'
  }

  predicate Digits(s: string) {
    s != [] && forall i :: 0 <= i < |s| ==> IsDigit(s[i])
  }

  /** A match of \$(\d+), or one character outside all matches. */
  datatype Piece = Literal(c: char) | Reference(digits: string)

  function DigitRun(s: string): (n: nat)
    ensures n <= |s| && forall i :: 0 <= i < n ==> IsDigit(s[i])
    ensures n < |s| ==> !IsDigit(s[n])
  {
    if s != [] && IsDigit(s[0]) then 1 + DigitRun(s[1..]) else 0
  }

  /** The leftmost, longest, non-overlapping matches, and what lies between them. */
  function Scan(s: string): seq<Piece>
    decreases |s|
  {
    if s == [] then []
    else if s[0] == '$' && DigitRun(s[1..]) > 0 then
      var n := DigitRun(s[1..]);
      [Reference(s[1..1 + n])] + Scan(s[1 + n..])
    else [Literal(s[0])] + Scan(s[1..])
  }

  function Show(piece: Piece): string {
    match piece case Literal(c) => [c] case Reference(digits) => ['$'] + digits
  }

  function Print(pieces: seq<Piece>): string {
    if pieces == [] then [] else Show(pieces[0]) + Print(pieces[1..])
  }

  lemma PrintCons(piece: Piece, rest: seq<Piece>)
    ensures Print([piece] + rest) == Show(piece) + Print(rest)
  {
  }

  lemma {:induction false} PrintScan(s: string)
    ensures Print(Scan(s)) == s
    decreases |s|
  {
    hide Print;
    if s == [] {
      assert Print([]) == [] by { PrintNothing(); }
    } else if s[0] == '$' && DigitRun(s[1..]) > 0 {
      var n := DigitRun(s[1..]);
      PrintScan(s[1 + n..]);
      PrintCons(Reference(s[1..1 + n]), Scan(s[1 + n..]));
      assert s == ['$'] + s[1..1 + n] + s[1 + n..];
    } else {
      PrintScan(s[1..]);
      PrintCons(Literal(s[0]), Scan(s[1..]));
      assert s == [s[0]] + s[1..];
    }
  }

  lemma PrintNothing()
    ensures Print([]) == []
  {
  }

  predicate StartsWithDigit(pieces: seq<Piece>) {
    pieces != [] && pieces[0].Literal? && IsDigit(pieces[0].c)
  }

  /** References are as long as they can be, and no literal `$` could start one. */
  predicate Maximal(pieces: seq<Piece>) {
    pieces != [] ==>
      && Maximal(pieces[1..])
      && (pieces[0].Reference? ==> Digits(pieces[0].digits))
      && (pieces[0].Reference? || pieces[0].c == '$' ==> !StartsWithDigit(pieces[1..]))
  }

  lemma {:induction false} PrintStart(pieces: seq<Piece>)
    requires Maximal(pieces)
    ensures var s := Print(pieces); (s != [] && IsDigit(s[0])) <==> StartsWithDigit(pieces)
  {
  }

  lemma {:induction false} DigitRunOf(digits: string, rest: string)
    requires forall i :: 0 <= i < |digits| ==> IsDigit(digits[i])
    requires rest != [] ==> !IsDigit(rest[0])
    ensures DigitRun(digits + rest) == |digits|
  {
    if digits == [] {
      assert digits + rest == rest;
    } else {
      assert (digits + rest)[1..] == digits[1..] + rest;
      DigitRunOf(digits[1..], rest);
    }
  }

  predicate DigitFirst(s: string) {
    s != [] && IsDigit(s[0])
  }

  lemma ScanLiteral(c: char, rest: string)
    requires c == '$' ==> !DigitFirst(rest)
    ensures Scan([c] + rest) == [Literal(c)] + Scan(rest)
  {
  }

  lemma ScanReference(digits: string, rest: string)
    requires Digits(digits) && !DigitFirst(rest)
    ensures Scan((['$'] + digits) + rest) == [Reference(digits)] + Scan(rest)
  {
    var s := (['$'] + digits) + rest;
    assert s[1..] == digits + rest && s[1..1 + |digits|] == digits && s[1 + |digits|..] == rest;
    DigitRunOf(digits, rest);
  }

  lemma MaximalParts(pieces: seq<Piece>)
    requires Maximal(pieces) && pieces != []
    ensures Maximal(pieces[1..]) && pieces == [pieces[0]] + pieces[1..]
    ensures pieces[0].Reference? ==> Digits(pieces[0].digits)
    ensures pieces[0].Reference? || pieces[0].c == '$' ==> !DigitFirst(Print(pieces[1..]))
  {
  }

  lemma ScanShown(piece: Piece, rest: string)
    requires piece.Reference? ==> Digits(piece.digits)
    requires piece.Reference? || piece.c == '$' ==> !DigitFirst(rest)
    ensures Scan(Show(piece) + rest) == [piece] + Scan(rest)
  {
    hide Scan, DigitFirst, Digits;
    match piece
    case Literal(c) => ScanLiteral(c, rest);
    case Reference(digits) => ScanReference(digits, rest);
  }

  /** The scan is the only way to read a text as maximal references and literals. */
  lemma {:induction false} ScanPrint(pieces: seq<Piece>)
    requires Maximal(pieces)
    ensures Scan(Print(pieces)) == pieces
  {
    hide *;
    if pieces == [] {
      PrintNothing();
      ScanNothing();
    } else {
      MaximalParts(pieces);
      PrintCons(pieces[0], pieces[1..]);
      ScanShown(pieces[0], Print(pieces[1..]));
      ScanPrint(pieces[1..]);
    }
  }

  lemma ScanNothing()
    ensures Scan([]) == []
  {
  }

  lemma {:induction false} ScanMaximal(s: string)
    ensures Maximal(Scan(s))
    decreases |s|
  {
    if s == [] {
    } else if s[0] == '$' && DigitRun(s[1..]) > 0 {
      var n := DigitRun(s[1..]);
      ScanMaximal(s[1 + n..]);
      assert Scan(s)[1..] == Scan(s[1 + n..]);
      PrintScan(s[1 + n..]);
      PrintStart(Scan(s[1 + n..]));
      assert s[1 + n..] != [] ==> s[1 + n..][0] == s[1..][n];
    } else {
      ScanMaximal(s[1..]);
      assert Scan(s)[1..] == Scan(s[1..]);
      PrintScan(s[1..]);
      PrintStart(Scan(s[1..]));
    }
  }

  /* ----- strconv.Atoi ----- */

  const MAX_INT: nat := 0x7FFF_FFFF_FFFF_FFFF

  function Number(digits: string): nat
    requires forall i :: 0 <= i < |digits| ==> IsDigit(digits[i])
  {
    if digits == [] then 0
    else
      var last := digits[|digits| - 1];
      assert IsDigit(last);
      10 * Number(digits[..|digits| - 1]) + (last as int - '0' as int)
  }

  /** None is the range error of a number that does not fit an int. */
  function Atoi(digits: string): Option<nat> {
    if Digits(digits) && Number(digits) <= MAX_INT then Some(Number(digits)) else None
  }

  /* ----- validation ----- */

  /** regexOutputGroupReferences: references that do not fit an int are left out. */
  function References(pieces: seq<Piece>): seq<nat> {
    if pieces == [] then []
    else
      var before := References(pieces[..|pieces| - 1]);
      match pieces[|pieces| - 1]
      case Literal(_) => before
      case Reference(digits) => (match Atoi(digits) case None => before case Some(n) => before + [n])
  }

  method RegexOutputGroupReferences(output: string) returns (references: seq<nat>)
    ensures references == References(Scan(output))
  {
    var matches := Scan(output);
    references := [];
    for index := 0 to |matches|
      invariant references == References(matches[..index])
    {
      assert matches[..index + 1][..index] == matches[..index];
      if matches[index].Reference? {
        var reference := Atoi(matches[index].digits);
        if reference.Some? {
          references := references + [reference.value];
        }
      }
    }
    assert matches[..|matches|] == matches;
  }

  /** What the validator demands of the references of an output. */
  predicate AcceptedOutput(output: string, groups: nat) {
    var references := References(Scan(output));
    references != [] && forall n :: n in references ==> 1 <= n <= groups
  }

  method ValidateOutput(output: string, groups: nat) returns (ok: bool)
    ensures ok <==> AcceptedOutput(output, groups)
  {
    var references := RegexOutputGroupReferences(output);
    if |references| == 0 {
      return false;
    }
    for index := 0 to |references|
      invariant forall n :: n in references[..index] ==> 1 <= n <= groups
    {
      var reference := references[index];
      assert reference in references;
      if reference == 0 {
        return false;
      }
      if reference > groups {
        return false;
      }
      assert references[..index + 1] == references[..index] + [reference];
    }
    assert references[..|references|] == references;
    return true;
  }

  /* ----- expansion ----- */

  function ExpandPiece(piece: Piece, groups: seq<string>): string {
    match piece
    case Literal(c) => [c]
    case Reference(digits) =>
      match Atoi(digits)
      case None => ""
      case Some(n) => if n <= 0 || n >= |groups| then "" else groups[n]
  }

  function ExpandPieces(pieces: seq<Piece>, groups: seq<string>): string {
    if pieces == [] then [] else ExpandPiece(pieces[0], groups) + ExpandPieces(pieces[1..], groups)
  }

  /** expandRegexOutput: group 0 is the whole match. */
  function Expand(output: string, groups: seq<string>): string {
    ExpandPieces(Scan(output), groups)
  }

  /** A piece is either kept as it is or replaced by the group it names. */
  predicate Exact(piece: Piece, groups: seq<string>) {
    piece.Reference? ==>
      Digits(piece.digits) && 1 <= Number(piece.digits) < |groups|
      && ExpandPiece(piece, groups) == groups[Number(piece.digits)]
  }

  predicate Fits(piece: Piece) {
    piece.Reference? ==> Digits(piece.digits) && Number(piece.digits) <= MAX_INT
  }

  lemma {:induction false} ReferenceListed(pieces: seq<Piece>, i: nat)
    requires i < |pieces| && pieces[i].Reference? && Atoi(pieces[i].digits).Some?
    ensures Atoi(pieces[i].digits).value in References(pieces)
  {
    if i < |pieces| - 1 {
      ReferenceListed(pieces[..|pieces| - 1], i);
    }
  }

  /**
   * For an accepted output and a match with one text per group, every reference is
   * replaced by exactly the group it names if and only if every reference fits an int.
   */
  lemma ExpansionExactly(output: string, groups: seq<string>)
    requires 0 < |groups| <= MAX_INT + 1 && AcceptedOutput(output, |groups| - 1)
    ensures (forall piece :: piece in Scan(output) ==> Exact(piece, groups))
            <==> (forall piece :: piece in Scan(output) ==> Fits(piece))
  {
    var pieces := Scan(output);
    if forall piece :: piece in pieces ==> Fits(piece) {
      forall piece | piece in pieces
        ensures Exact(piece, groups)
      {
        var i :| 0 <= i < |pieces| && pieces[i] == piece;
        if piece.Reference? {
          ReferenceListed(pieces, i);
        }
      }
    }
    if forall piece :: piece in pieces ==> Exact(piece, groups) {
      forall piece | piece in pieces
        ensures Fits(piece)
      {
        assert Exact(piece, groups);
      }
    }
  }

  /** The predicted length: literals, and the groups that the references name. */
  function PredictedLength(pieces: seq<Piece>, groups: seq<string>): nat
    requires forall piece :: piece in pieces ==> Exact(piece, groups)
  {
    if pieces == [] then 0
    else
      assert Exact(pieces[0], groups);
      (match pieces[0] case Literal(_) => 1 case Reference(digits) => |groups[Number(digits)]|)
      + PredictedLength(pieces[1..], groups)
  }

  lemma {:induction false} ExpansionLength(pieces: seq<Piece>, groups: seq<string>)
    requires forall piece :: piece in pieces ==> Exact(piece, groups)
    ensures |ExpandPieces(pieces, groups)| == PredictedLength(pieces, groups)
  {
    if pieces != [] {
      assert pieces[0] in pieces;
      ExpansionLength(pieces[1..], groups);
    }
  }

  /** An expansion of two lists of pieces is the two expansions in turn. */
  lemma {:induction false} ExpansionKeepsOrder(a: seq<Piece>, b: seq<Piece>, groups: seq<string>)
    ensures ExpandPieces(a + b, groups) == ExpandPieces(a, groups) + ExpandPieces(b, groups)
  {
    if a == [] {
      assert a + b == b;
    } else {
      assert (a + b)[1..] == a[1..] + b;
      ExpansionKeepsOrder(a[1..], b, groups);
    }
  }

  /** What the output asks for at one piece: a literal as it is, or the group that is named. */
  function Wanted(piece: Piece, groups: seq<string>): string
    requires Exact(piece, groups)
  {
    match piece case Literal(c) => [c] case Reference(digits) => groups[Number(digits)]
  }

  /** Where each piece ends up: behind everything before it in the output, and intact. */
  lemma ExpansionPlaces(output: string, groups: seq<string>, i: nat)
    requires i < |Scan(output)| && forall piece :: piece in Scan(output) ==> Exact(piece, groups)
    ensures var pieces, text := Scan(output), Expand(output, groups);
      var at, wanted := PredictedLength(pieces[..i], groups), Wanted(pieces[i], groups);
      at + |wanted| <= |text| && text[at..at + |wanted|] == wanted
  {
    hide Scan, Exact, PredictedLength;
    var pieces := Scan(output);
    assert pieces == pieces[..i] + pieces[i..] && pieces[i..][1..] == pieces[i + 1..];
    ExpansionKeepsOrder(pieces[..i], pieces[i..], groups);
    ExpansionLength(pieces[..i], groups);
    WantedIsExpanded(pieces[i], groups);
  }

  lemma WantedIsExpanded(piece: Piece, groups: seq<string>)
    requires Exact(piece, groups)
    ensures Wanted(piece, groups) == ExpandPiece(piece, groups)
  {
  }

  const HUGE: string := "99999999999999999999"

  /** An accepted output can hold a reference too large for an int, which is silently dropped. */
  lemma HugeReferenceIsDropped()
    ensures AcceptedOutput("$1$" + HUGE, 1)
    ensures Expand("$1$" + HUGE, ["ab", "a"]) == "a"
  {
    hide *;
    var one, huge := Reference("1"), Reference(HUGE);
    HugeNumber();
    NumberOne();
    TwoReferences("1", HUGE);
    assert (['$'] + "1") + (['$'] + HUGE) == "$1$" + HUGE;
    AtoiOf("1");
    AtoiOf(HUGE);
    ReferencesOfTwo("1", HUGE);
    assert [one] + [huge] == [one, huge];
    ExpansionKeepsOrder([one], [huge], ["ab", "a"]);
    ExpandOne("1", ["ab", "a"]);
    ExpandOne(HUGE, ["ab", "a"]);
    AcceptedMeans("$1$" + HUGE, 1);
    ExpandMeans("$1$" + HUGE, ["ab", "a"]);
  }

  lemma AcceptedMeans(output: string, groups: nat)
    ensures AcceptedOutput(output, groups) <==>
      References(Scan(output)) != [] && forall n :: n in References(Scan(output)) ==> 1 <= n <= groups
  {
  }

  lemma ExpandMeans(output: string, groups: seq<string>)
    ensures Expand(output, groups) == ExpandPieces(Scan(output), groups)
  {
  }

  lemma TwoReferences(a: string, b: string)
    requires Digits(a) && Digits(b)
    ensures Scan((['$'] + a) + (['$'] + b)) == [Reference(a), Reference(b)]
  {
    var pieces := [Reference(a), Reference(b)];
    OneReference(b);
    PrintCons(Reference(a), [Reference(b)]);
    assert pieces == [Reference(a)] + [Reference(b)] && pieces[1..] == [Reference(b)];
    assert Maximal(pieces);
    ScanPrint(pieces);
  }

  lemma AtoiOf(digits: string)
    requires Digits(digits)
    ensures Atoi(digits) == if Number(digits) <= MAX_INT then Some(Number(digits)) else None
  {
  }

  lemma ReferencesOfTwo(a: string, b: string)
    requires Atoi(a).Some? && Atoi(b).None?
    ensures References([Reference(a), Reference(b)]) == [Atoi(a).value]
  {
    var pieces := [Reference(a), Reference(b)];
    assert pieces[..1] == [Reference(a)] && pieces[..1][..0] == [];
    assert References([]) == [];
    assert References(pieces[..1]) == [Atoi(a).value];
  }

  lemma ExpandOne(digits: string, groups: seq<string>)
    ensures ExpandPieces([Reference(digits)], groups) ==
      match Atoi(digits) case None => "" case Some(n) => if n == 0 || n >= |groups| then "" else groups[n]
  {
  }

  lemma OneReference(digits: string)
    requires Digits(digits)
    ensures Maximal([Reference(digits)]) && Print([Reference(digits)]) == ['$'] + digits
  {
  }

  lemma NumberOne()
    ensures Digits("1") && Number("1") == 1 <= MAX_INT
  {
  }

  lemma HugeNumber()
    ensures Digits(HUGE) && Number(HUGE) > MAX_INT
  {
    NumberGrows("9999999999", "9999999999");
    assert "9999999999" + "9999999999" == HUGE;
    TenNines();
  }

  lemma TenNines()
    ensures Number("9999999999") == 9_999_999_999
  {
    assert "9999999999"[..9] == "999999999";
    assert "999999999"[..8] == "99999999";
    assert "99999999"[..7] == "9999999";
    assert "9999999"[..6] == "999999";
    assert "999999"[..5] == "99999";
    assert "99999"[..4] == "9999";
    assert "9999"[..3] == "999";
    assert "999"[..2] == "99";
    assert "99"[..1] == "9";
    assert "9"[..0] == "";
  }

  function Power10(n: nat): nat {
    if n == 0 then 1 else 10 * Power10(n - 1)
  }

  lemma NumberNext(digits: string, c: char)
    requires forall i :: 0 <= i < |digits| ==> IsDigit(digits[i])
    requires IsDigit(c)
    ensures Digits(digits + [c]) && Number(digits + [c]) >= 10 * Number(digits)
  {
  }

  lemma Scaled(n: nat, p: nat)
    ensures 10 * (n * p) == n * (10 * p)
  {
  }

  lemma {:induction false} NumberGrows(a: string, b: string)
    requires Digits(a) && forall i :: 0 <= i < |b| ==> IsDigit(b[i])
    ensures Digits(a + b) && Number(a + b) >= Number(a) * Power10(|b|)
  {
    hide Number;
    if b == [] {
      assert a + b == a;
    } else {
      var init, last := b[..|b| - 1], b[|b| - 1];
      NumberGrows(a, init);
      NumberNext(a + init, last);
      assert a + b == a + init + [last];
      Scaled(Number(a), Power10(|init|));
    }
  }
}
