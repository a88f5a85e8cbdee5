/** The unique names and workspace IDs of infrastructure, printed and parsed: internal/models/infra.go. */
module WorkspaceId {
  import opened Text
  import opened Options

  const DASH := '-'

  /** hex.EncodedLen(10) */
  const UID_LENGTH: nat := 20

  datatype Infra = Infra(kind: string, projectID: nat, id: nat, suffix: string)

  datatype Parsed<T> =
    | Parsed(value: T)
    | Malformed       // the wrong number of parts
    | BadNumber       // the project or infra ID is not a 64-bit number
    | BadUID          // the operation UID has the wrong length

  function GetUniqueName(infra: Infra): string {
    infra.kind + "-" + Decimal(infra.projectID) + "-" + Decimal(infra.id) + "-" + infra.suffix
  }

  function GetWorkspaceID(infra: Infra, uid: string): string {
    infra.kind + "-" + Decimal(infra.projectID) + "-" + Decimal(infra.id) + "-" + infra.suffix + "-" + uid
  }

  function ParseUniqueName(name: string): Parsed<Infra> {
    var parts := Split(name, DASH);
    if |parts| != 4 then Malformed
    else if ParseUint(parts[1]).None? then BadNumber
    else if ParseUint(parts[2]).None? then BadNumber
    else Parsed(Infra(parts[0], ParseUint(parts[1]).value, ParseUint(parts[2]).value, parts[3]))
  }

  function ParseWorkspaceID(workspaceID: string): Parsed<(Infra, string)> {
    var parts := Split(workspaceID, DASH);
    if |parts| != 5 then Malformed
    else if ParseUint(parts[1]).None? then BadNumber
    else if ParseUint(parts[2]).None? then BadNumber
    else if |parts[4]| != UID_LENGTH then BadUID
    else Parsed((Infra(parts[0], ParseUint(parts[1]).value, ParseUint(parts[2]).value, parts[3]), parts[4]))
  }

  // ---- Round trips ---------------------------------------------------------------------------

  predicate DashFree(s: string) { DASH !in s }

  /** The IDs fit the source's 64-bit integers. */
  predicate Fits(infra: Infra) { infra.projectID <= MAX_UINT64 && infra.id <= MAX_UINT64 }

  /** Only a dash-free string is its own only part. */
  lemma WholeIffDashFree(s: string)
    ensures |Split(s, DASH)| == 1 <==> DashFree(s)
    ensures DashFree(s) ==> Split(s, DASH) == [s]
  {
    SplitLength(s, DASH);
    CountZero(s, DASH);
    if DashFree(s) {
      SplitWhole(s, DASH);
    }
  }

  /** The parts of a printed name: those of the kind, the two numbers, and those of the suffix. */
  lemma NamePieces(infra: Infra)
    ensures Split(GetUniqueName(infra), DASH) ==
            Split(infra.kind, DASH) + [Decimal(infra.projectID), Decimal(infra.id)] + Split(infra.suffix, DASH)
  {
    var a, b := Decimal(infra.projectID), Decimal(infra.id);
    DigitsOfDecimal(infra.projectID);
    DigitsOfDecimal(infra.id);
    WholeIffDashFree(a);
    WholeIffDashFree(b);
    SplitConcat(infra.kind, a, DASH);
    SplitConcat(infra.kind + "-" + a, b, DASH);
    SplitConcat(infra.kind + "-" + a + "-" + b, infra.suffix, DASH);
  }

  lemma WorkspacePieces(infra: Infra, uid: string)
    ensures Split(GetWorkspaceID(infra, uid), DASH) == Split(GetUniqueName(infra), DASH) + Split(uid, DASH)
  {
    SplitConcat(GetUniqueName(infra), uid, DASH);
    assert GetWorkspaceID(infra, uid) == GetUniqueName(infra) + [DASH] + uid;
  }

  /** Parsing a printed unique name gives the infra back exactly when its kind and suffix have no dash;
      otherwise the name is rejected. */
  lemma UniqueNameRoundTrip(infra: Infra)
    requires Fits(infra)
    ensures ParseUniqueName(GetUniqueName(infra)) ==
            if DashFree(infra.kind) && DashFree(infra.suffix) then Parsed(infra) else Malformed
  {
    NamePieces(infra);
    WholeIffDashFree(infra.kind);
    WholeIffDashFree(infra.suffix);
    ParsePrinted(infra.projectID);
    ParsePrinted(infra.id);
  }

  /** Likewise for workspace IDs, whose operation UID must also have 20 characters. */
  lemma WorkspaceRoundTrip(infra: Infra, uid: string)
    requires Fits(infra)
    ensures ParseWorkspaceID(GetWorkspaceID(infra, uid)) ==
            if !(DashFree(infra.kind) && DashFree(infra.suffix) && DashFree(uid)) then Malformed
            else if |uid| != UID_LENGTH then BadUID
            else Parsed((infra, uid))
  {
    NamePieces(infra);
    WorkspacePieces(infra, uid);
    WholeIffDashFree(infra.kind);
    WholeIffDashFree(infra.suffix);
    WholeIffDashFree(uid);
    ParsePrinted(infra.projectID);
    ParsePrinted(infra.id);
  }

  /** Infras with the same parts before and after their numbers are the same. */
  lemma SamePieces(a: Infra, b: Infra)
    requires Split(GetUniqueName(a), DASH) == Split(GetUniqueName(b), DASH)
    requires |Split(a.kind, DASH)| == |Split(b.kind, DASH)|
    ensures a == b
  {
    var parts, n := Split(GetUniqueName(a), DASH), |Split(a.kind, DASH)|;
    NamePieces(a);
    NamePieces(b);
    assert Split(a.kind, DASH) == parts[..n] == Split(b.kind, DASH);
    assert Split(a.suffix, DASH) == parts[n + 2..] == Split(b.suffix, DASH);
    assert Decimal(a.projectID) == parts[n] == Decimal(b.projectID);
    assert Decimal(a.id) == parts[n + 1] == Decimal(b.id);
    JoinSplit(a.kind, DASH);
    JoinSplit(b.kind, DASH);
    JoinSplit(a.suffix, DASH);
    JoinSplit(b.suffix, DASH);
    DigitsOfDecimal(a.projectID);
    DigitsOfDecimal(b.projectID);
    DigitsOfDecimal(a.id);
    DigitsOfDecimal(b.id);
  }

  /** For suffixes and operation UIDs without dashes, such as the hexadecimal ones the program makes,
      both printers are injective, whatever the kinds; and the name parser rejects workspace IDs. */
  lemma PrintersInjectiveAndApart(a: Infra, b: Infra, uidA: string, uidB: string)
    requires DashFree(a.suffix) && DashFree(uidA) && DashFree(b.suffix) && DashFree(uidB)
    ensures GetUniqueName(a) == GetUniqueName(b) ==> a == b
    ensures GetWorkspaceID(a, uidA) == GetWorkspaceID(b, uidB) ==> a == b && uidA == uidB
    ensures ParseUniqueName(GetWorkspaceID(a, uidA)) == Malformed
  {
    NamePieces(a);
    NamePieces(b);
    WorkspacePieces(a, uidA);
    WorkspacePieces(b, uidB);
    WholeIffDashFree(a.suffix);
    WholeIffDashFree(b.suffix);
    WholeIffDashFree(uidA);
    WholeIffDashFree(uidB);
    var p, q := Split(GetUniqueName(a), DASH), Split(GetUniqueName(b), DASH);
    if GetUniqueName(a) == GetUniqueName(b) {
      SamePieces(a, b);
    }
    if GetWorkspaceID(a, uidA) == GetWorkspaceID(b, uidB) {
      assert p + [uidA] == q + [uidB];
      assert (p + [uidA])[..|p|] == p && (q + [uidB])[..|q|] == q;
      assert (p + [uidA])[|p|] == uidA && (q + [uidB])[|q|] == uidB;
      SamePieces(a, b);
    }
  }

  /** The workspace parser takes a name for a workspace ID only if the suffix has the length of an
      operation UID, which generated suffixes of 12 characters do not, and the kind ends in a number. */
  lemma NameReadAsWorkspaceIff(infra: Infra)
    requires Fits(infra) && DashFree(infra.suffix)
    ensures ParseWorkspaceID(GetUniqueName(infra)).Parsed? <==>
            && |infra.suffix| == UID_LENGTH
            && |Split(infra.kind, DASH)| == 2 && ParseUint(Split(infra.kind, DASH)[1]).Some?
  {
    NamePieces(infra);
    WholeIffDashFree(infra.suffix);
    ParsePrinted(infra.projectID);
  }

  // ---- Which texts are printed names ---------------------------------------------------------

  /** The form in which numbers are printed. */
  predicate Canonical(digits: string) { digits != "" && (|digits| == 1 || digits[0] != '0') }

  lemma {:induction false} PrintParsed(digits: string)
    requires digits != "" && Digits(digits).Some?
    ensures Decimal(Digits(digits).value) == digits <==> Canonical(digits)
    ensures Canonical(digits) && digits[0] != '0' ==> Digits(digits).value > 0
  {
    var n, init := Digits(digits).value, digits[..|digits| - 1];
    var last := DigitValue(digits[|digits| - 1]).value;
    assert Digit(last) == digits[|digits| - 1];
    assert digits == init + [digits[|digits| - 1]];
    if init == "" {
      assert digits == [Digit(last)];
    } else {
      PrintParsed(init);
      assert init[0] == digits[0];
      var m := Digits(init).value;
      assert n == 10 * m + last;
      if m == 0 {
        assert !Canonical(digits);
        assert |Decimal(n)| == 1;
      } else {
        assert n / 10 == m && n % 10 == last;
        if Decimal(n) == digits {
          assert Decimal(n)[..|Decimal(n)| - 1] == Decimal(m);
        }
      }
    }
  }

  /** A number as it is printed, of 64 bits. */
  predicate Numeral(s: string) { ParseUint(s).Some? && Canonical(s) }

  lemma PrintedNumeral(n: nat)
    ensures Numeral(Decimal(n)) <==> n <= MAX_UINT64
  {
    ParsePrinted(n);
    DigitsOfDecimal(n);
    PrintParsed(Decimal(n));
  }

  /** The parts from i on can be read as project ID, infra ID and suffix, with a kind before them. */
  predicate ReadsAt(parts: seq<string>, i: nat) {
    1 <= i && i + 2 < |parts| && Numeral(parts[i]) && Numeral(parts[i + 1])
  }

  lemma NumeralPrinted(s: string) returns (n: nat)
    requires Numeral(s)
    ensures Decimal(n) == s && n <= MAX_UINT64
  {
    n := ParseUint(s).value;
    PrintParsed(s);
  }

  lemma InfraAt(name: string, i: nat) returns (infra: Infra)
    requires ReadsAt(Split(name, DASH), i)
    ensures Fits(infra) && GetUniqueName(infra) == name && |Split(infra.kind, DASH)| == i
  {
    hide Split, Join, GetUniqueName, Numeral, ParseUint, Decimal;
    var parts := Split(name, DASH);
    var before, after := parts[..i], parts[i + 2..];
    var projectID := NumeralPrinted(parts[i]);
    var id := NumeralPrinted(parts[i + 1]);
    infra := Infra(Join(before, DASH), projectID, id, Join(after, DASH));
    SplitPartsClean(name, DASH);
    SplitJoin(before, DASH);
    SplitJoin(after, DASH);
    NamePieces(infra);
    assert parts == before + [parts[i], parts[i + 1]] + after;
    JoinSplit(GetUniqueName(infra), DASH);
    JoinSplit(name, DASH);
  }

  /** Exactly when another infra prints the same name: when its parts can be read as number, number and
      suffix at another place as well.  With two dash-free suffixes they cannot. */
  lemma CollidesIff(a: Infra)
    ensures (exists b :: b != a && Fits(b) && GetUniqueName(b) == GetUniqueName(a)) <==>
            exists i: nat :: i != |Split(a.kind, DASH)| && ReadsAt(Split(GetUniqueName(a), DASH), i)
  {
    var parts := Split(GetUniqueName(a), DASH);
    if b :| b != a && Fits(b) && GetUniqueName(b) == GetUniqueName(a) {
      NamePieces(b);
      PrintedNumeral(b.projectID);
      PrintedNumeral(b.id);
      if |Split(b.kind, DASH)| == |Split(a.kind, DASH)| {
        SamePieces(a, b);
      }
      assert ReadsAt(parts, |Split(b.kind, DASH)|);
    }
    if i: nat :| i != |Split(a.kind, DASH)| && ReadsAt(parts, i) {
      var b := InfraAt(GetUniqueName(a), i);
    }
  }

  /** A kind that ends in a number collides with some kind without it and a suffix with a dash. */
  lemma DashesCollide(kind: string, a: nat, b: nat, c: nat, suffix: string)
    ensures GetUniqueName(Infra(kind + "-" + Decimal(a), b, c, suffix)) ==
            GetUniqueName(Infra(kind, a, b, Decimal(c) + "-" + suffix))
  {
    var front := kind + "-" + Decimal(a) + "-" + Decimal(b) + "-";
    assert front + Decimal(c) + "-" + suffix == front + (Decimal(c) + "-" + suffix);
  }

  /** A unique name that is accepted is the printed form of what it is parsed to exactly when its two
      numbers are written without leading zeros. */
  lemma ParsedNameIsPrintedIff(name: string)
    requires ParseUniqueName(name).Parsed?
    ensures GetUniqueName(ParseUniqueName(name).value) == name <==>
            Canonical(Split(name, DASH)[1]) && Canonical(Split(name, DASH)[2])
  {
    var infra, parts := ParseUniqueName(name).value, Split(name, DASH);
    SplitPartsClean(name, DASH);
    NamePieces(infra);
    WholeIffDashFree(infra.kind);
    WholeIffDashFree(infra.suffix);
    PrintParsed(parts[1]);
    PrintParsed(parts[2]);
    JoinSplit(name, DASH);
    JoinSplit(GetUniqueName(infra), DASH);
    var printed := [parts[0], Decimal(infra.projectID), Decimal(infra.id), parts[3]];
    assert Split(GetUniqueName(infra), DASH) == printed;
    assert printed == parts <==> printed[1] == parts[1] && printed[2] == parts[2];
  }

  // ---- Which texts are accepted --------------------------------------------------------------

  /** The dash-free parts make up the text. */
  ghost predicate MadeOf(text: string, parts: seq<string>) {
    text == Join(parts, '-') && forall i :: 0 <= i < |parts| ==> '-' !in parts[i]
  }

  lemma PartsOf(text: string, parts: seq<string>)
    requires parts != []
    ensures MadeOf(text, parts) <==> Split(text, DASH) == parts
  {
    JoinSplit(text, DASH);
    SplitPartsClean(text, DASH);
    if MadeOf(text, parts) {
      SplitJoin(parts, DASH);
    }
  }

  ghost predicate Numeric(s: string) { exists n: nat :: IsNumber(s, n) }

  lemma NumericIff(s: string)
    ensures Numeric(s) <==> ParseUint(s).Some?
  {
    if n: nat :| IsNumber(s, n) {
      ParsesIff(s, n);
    }
    if ParseUint(s).Some? {
      ParsesIff(s, ParseUint(s).value);
    }
  }

  /** What the name parser answers for any text: it wants three dashes, two numbers between them, and
      takes the parts as they are. */
  lemma NameParses(text: string, kind: string, p: string, q: string, suffix: string)
    ensures ParseUniqueName(text) == Malformed <==> CountOf(text, '-') != 3
    ensures MadeOf(text, [kind, p, q, suffix]) ==>
            && (ParseUniqueName(text) == BadNumber <==> !Numeric(p) || !Numeric(q))
            && (forall a: nat, b: nat :: IsNumber(p, a) && IsNumber(q, b) ==>
                  ParseUniqueName(text) == Parsed(Infra(kind, a, b, suffix)))
  {
    hide Split, Join, ParseUint, IsNumber, Numeric;
    SplitLength(text, DASH);
    PartsOf(text, [kind, p, q, suffix]);
    NumericIff(p);
    NumericIff(q);
    forall a: nat | IsNumber(p, a) ensures ParseUint(p) == Some(a) { ParsesIff(p, a); }
    forall b: nat | IsNumber(q, b) ensures ParseUint(q) == Some(b) { ParsesIff(q, b); }
  }

  /** And the workspace parser: four dashes, two numbers, and a last part of 20 characters. */
  lemma WorkspaceParses(text: string, kind: string, p: string, q: string, suffix: string, uid: string)
    ensures ParseWorkspaceID(text) == Malformed <==> CountOf(text, '-') != 4
    ensures MadeOf(text, [kind, p, q, suffix, uid]) ==>
            && (ParseWorkspaceID(text) == BadNumber <==> !Numeric(p) || !Numeric(q))
            && (ParseWorkspaceID(text) == BadUID <==> Numeric(p) && Numeric(q) && |uid| != 20)
            && (forall a: nat, b: nat :: IsNumber(p, a) && IsNumber(q, b) && |uid| == 20 ==>
                  ParseWorkspaceID(text) == Parsed((Infra(kind, a, b, suffix), uid)))
  {
    hide Split, Join, ParseUint, IsNumber, Numeric;
    SplitLength(text, DASH);
    PartsOf(text, [kind, p, q, suffix, uid]);
    NumericIff(p);
    NumericIff(q);
    forall a: nat | IsNumber(p, a) ensures ParseUint(p) == Some(a) { ParsesIff(p, a); }
    forall b: nat | IsNumber(q, b) ensures ParseUint(q) == Some(b) { ParsesIff(q, b); }
  }

  /** Every text is made of one part more than it has dashes. */
  lemma SomeParts(text: string)
    ensures exists parts :: |parts| == CountOf(text, '-') + 1 && MadeOf(text, parts)
  {
    SplitLength(text, DASH);
    PartsOf(text, Split(text, DASH));
  }
}
