/**
 * cmd/releaseprep/main.go: versions of releases, read and ordered as Semantic
 * Versioning 2.0.0 has it (grammar: sections 2, 9 and 10; precedence: section 11).
 */
module SemVer {
  import opened Common
  import opened DecimalText
  import opened Strings

  predicate IdentifierChar(c: char) {
    IsDigit(c) || 'A' <= c <= 'Z' || 'a' <= c <= 'z' || c == '-'
  }

  predicate Identifier(s: string) {
    s != "" && forall i :: 0 <= i < |s| ==> IdentifierChar(s[i])
  }

  predicate Numeric(s: string) {
    s != "" && AllDigits(s)
  }

  /** A numeric identifier of a prerelease has no leading zero; one of the build may. */
  predicate PrereleaseIdentifier(s: string) {
    Identifier(s) && (Numeric(s) ==> Plain(s))
  }

  datatype Version = Version(major: string, minor: string, patch: string, prerelease: seq<string>)

  predicate ValidPrerelease(ids: seq<string>) {
    forall i :: 0 <= i < |ids| ==> PrereleaseIdentifier(ids[i])
  }

  predicate Valid(v: Version) {
    Plain(v.major) && Plain(v.minor) && Plain(v.patch) && ValidPrerelease(v.prerelease)
  }

  // ------------------------------------------------------------------
  // Reading a version.

  /** The identifiers between the separators of a version text. */
  datatype Reading = Reading(core: seq<string>, prerelease: Option<seq<string>>, build: Option<seq<string>>)

  function Tail(mark: char, ids: Option<seq<string>>): string {
    match ids
    case None => ""
    case Some(parts) => [mark] + Join(parts, '.')
  }

  function Text(r: Reading): string {
    Join(r.core, '.') + Tail('-', r.prerelease) + Tail('+', r.build)
  }

  predicate WellFormed(r: Reading) {
    && |r.core| == 3 && (forall i :: 0 <= i < 3 ==> Plain(r.core[i]))
    && (r.prerelease.Some? ==> r.prerelease.value != [] && ValidPrerelease(r.prerelease.value))
    && (r.build.Some? ==>
          && r.build.value != []
          && forall i :: 0 <= i < |r.build.value| ==> Identifier(r.build.value[i]))
  }

  function SplitTail(h: Halves): Option<seq<string>> {
    if h.found then Some(Split(h.after, '.')) else None
  }

  function Read(raw: string): Reading {
    var outer := Cut(raw, '+');
    var inner := Cut(outer.before, '-');
    Reading(Split(inner.before, '.'), SplitTail(inner), SplitTail(outer))
  }

  function VersionOf(r: Reading): Version
    requires |r.core| == 3
  {
    Version(r.core[0], r.core[1], r.core[2], if r.prerelease.Some? then r.prerelease.value else [])
  }

  lemma TextOfRead(raw: string)
    ensures Text(Read(raw)) == raw
  {
    hide Split, Join, Cut;
    var outer := Cut(raw, '+');
    var inner := Cut(outer.before, '-');
    JoinSplit(inner.before, '.');
    if inner.found { JoinSplit(inner.after, '.'); }
    if outer.found { JoinSplit(outer.after, '.'); }
  }

  lemma {:induction false} JoinLacks(parts: seq<string>, c: char)
    requires c != '.' && forall i :: 0 <= i < |parts| ==> c !in parts[i]
    ensures c !in Join(parts, '.')
  {
    if |parts| > 1 {
      JoinLacks(parts[1..], c);
    }
  }

  lemma ReadOfText(r: Reading)
    requires WellFormed(r)
    ensures Read(Text(r)) == r
  {
    hide Split, Join, Cut;
    var core := Join(r.core, '.');
    var precedence := core + Tail('-', r.prerelease);
    JoinLacks(r.core, '+');
    JoinLacks(r.core, '-');
    SplitJoin(r.core, '.');
    if r.prerelease.Some? {
      var text := Join(r.prerelease.value, '.');
      JoinLacks(r.prerelease.value, '+');
      SplitJoin(r.prerelease.value, '.');
      CutAt(core, '-', text);
      assert precedence == core + ['-'] + text;
    } else {
      CutAt(core, '-', "");
      assert precedence == core;
    }
    if r.build.Some? {
      var text := Join(r.build.value, '.');
      SplitJoin(r.build.value, '.');
      CutAt(precedence, '+', text);
      assert Text(r) == precedence + ['+'] + text;
    } else {
      CutAt(precedence, '+', "");
      assert Text(r) == precedence;
    }
  }

  /** What is read is exactly what the grammar writes, and only one way. */
  lemma ReadsTheGrammar(raw: string)
    ensures WellFormed(Read(raw)) <==> exists r :: WellFormed(r) && Text(r) == raw
    ensures forall r :: WellFormed(r) && Text(r) == raw ==> r == Read(raw)
  {
    hide Read, Text;
    TextOfRead(raw);
    forall r | WellFormed(r) && Text(r) == raw
      ensures r == Read(raw)
    {
      ReadOfText(r);
    }
  }

  method ValidateSemVersionIdentifiers(raw: string, prerelease: bool) returns (ok: bool)
    ensures ok <==>
            forall s :: s in Split(raw, '.') ==> if prerelease then PrereleaseIdentifier(s) else Identifier(s)
  {
    hide Split, Identifier, AllDigits;
    var identifiers := Split(raw, '.');
    for i := 0 to |identifiers|
      invariant forall k :: 0 <= k < i ==>
        if prerelease then PrereleaseIdentifier(identifiers[k]) else Identifier(identifiers[k])
    {
      var identifier := identifiers[i];
      if !Identifier(identifier) { return false; }
      if prerelease && Numeric(identifier) && |identifier| > 1 && identifier[0] == '0' { return false; }
    }
    return true;
  }

  /** parseSemVersion: the version, when the whole text is one. */
  method ParseSemVersion(raw: string) returns (r: Option<Version>)
    ensures r == if WellFormed(Read(raw)) then Some(VersionOf(Read(raw))) else None
    ensures r.Some? ==> Valid(r.value)
  {
    hide Split, Cut;
    if raw == "" {
      EmptyIsNoVersion();
      return None;
    }
    var outer := Cut(raw, '+');
    if outer.found {
      var ok := ValidateSemVersionIdentifiers(outer.after, false);
      if !ok { return None; }
      if '+' in outer.after {
        ghost var ids := Split(outer.after, '.');
        forall i | 0 <= i < |ids|
          ensures '+' !in ids[i]
        {
          assert ids[i] in ids;
          assert Identifier(ids[i]) && !IdentifierChar('+');
        }
        JoinSplit(outer.after, '.');
        JoinLacks(ids, '+');
        assert false;
      }
    }
    var inner := Cut(outer.before, '-');
    var prerelease := [];
    if inner.found {
      var ok := ValidateSemVersionIdentifiers(inner.after, true);
      if !ok { return None; }
      prerelease := Split(inner.after, '.');
    }
    var parts := Split(inner.before, '.');
    if |parts| != 3 { return None; }
    var values := new string[3];
    for i := 0 to 3
      invariant forall k :: 0 <= k < i ==> Plain(parts[k]) && values[k] == parts[k]
    {
      var part := parts[i];
      if !Numeric(part) || (|part| > 1 && part[0] == '0') { return None; }
      values[i] := part;
    }
    r := Some(Version(values[0], values[1], values[2], prerelease));
  }

  lemma EmptyIsNoVersion()
    ensures !WellFormed(Read(""))
  {}

  // ------------------------------------------------------------------
  // Precedence: section 11, on numbers.

  function Sign(n: int): int {
    if n < 0 then -1 else if n > 0 then 1 else 0
  }

  /** Order of texts by their characters; all of them are ASCII here. */
  function TextOrder(a: string, b: string): int {
    if a == "" || b == "" then Sign(|a| - |b|)
    else if a[0] != b[0] then Sign(a[0] as int - b[0] as int)
    else TextOrder(a[1..], b[1..])
  }

  function IdentifierOrder(a: string, b: string): int {
    if Numeric(a) && Numeric(b) then Sign(Number(a) - Number(b))
    else if Numeric(a) then -1
    else if Numeric(b) then 1
    else TextOrder(a, b)
  }

  function IdentifiersOrder(p: seq<string>, q: seq<string>): int {
    if p == [] || q == [] then Sign(|p| - |q|)
    else if IdentifierOrder(p[0], q[0]) != 0 then IdentifierOrder(p[0], q[0])
    else IdentifiersOrder(p[1..], q[1..])
  }

  /** A version without prerelease comes after those with one. */
  function PrereleaseOrder(p: seq<string>, q: seq<string>): int {
    if p == [] || q == [] then Sign(|q| - |p|) else IdentifiersOrder(p, q)
  }

  function Then(first: int, second: int): int {
    if first != 0 then first else second
  }

  function Precedence(a: Version, b: Version): int
    requires Valid(a) && Valid(b)
  {
    Then(Sign(Number(a.major) - Number(b.major)),
    Then(Sign(Number(a.minor) - Number(b.minor)),
    Then(Sign(Number(a.patch) - Number(b.patch)),
         PrereleaseOrder(a.prerelease, b.prerelease))))
  }

  // The original compares numbers as texts: first by length, then by character.

  lemma {:induction false} NumberBelowPower(s: string)
    requires AllDigits(s)
    ensures Number(s) < Pow10(|s|)
  {
    if s != "" {
      NumberBelowPower(s[..|s| - 1]);
    }
  }

  lemma NumberFront(s: string)
    requires AllDigits(s) && s != ""
    ensures Number(s) == DigitOf(s[0]) * Pow10(|s| - 1) + Number(s[1..])
  {
    NumberOfConcat(s[..1], s[1..]);
    assert s == s[..1] + s[1..];
    assert s[..1][..0] == "";
  }

  lemma {:induction false} TextOrderOfDigits(a: string, b: string)
    requires AllDigits(a) && AllDigits(b) && |a| == |b|
    ensures TextOrder(a, b) == Sign(Number(a) - Number(b))
  {
    hide Pow10, Number;
    if a == "" {
      assert a == b;
    } else {
      NumberFront(a);
      NumberFront(b);
      NumberBelowPower(a[1..]);
      NumberBelowPower(b[1..]);
      var p := Pow10(|a| - 1);
      if a[0] == b[0] {
        TextOrderOfDigits(a[1..], b[1..]);
      } else if a[0] < b[0] {
        DigitsApart(DigitOf(a[0]), DigitOf(b[0]), p);
      } else {
        DigitsApart(DigitOf(b[0]), DigitOf(a[0]), p);
      }
    }
  }

  lemma DigitsApart(d: nat, e: nat, p: nat)
    requires d < e
    ensures d * p + p <= e * p
  {
    var k := e - d - 1;
    assert e * p == (d + 1 + k) * p == d * p + p + k * p;
  }

  lemma LongerIsGreater(a: string, b: string)
    requires Plain(a) && Plain(b) && |a| < |b|
    ensures Number(a) < Number(b)
  {}

  lemma {:induction false} PowerGrows(m: nat, n: nat)
    requires m <= n
    ensures Pow10(m) <= Pow10(n)
  {
    if m < n {
      PowerGrows(m, n - 1);
    }
  }

  /** compareNumericIdentifier: by length, then by character, is the order of the numbers. */
  function CompareNumericIdentifier(left: string, right: string): (order: int)
    requires Plain(left) && Plain(right)
    ensures order == Sign(Number(left) - Number(right))
  {
    if |left| < |right| then
      LongerIsGreater(left, right);
      -1
    else if |left| > |right| then
      LongerIsGreater(right, left);
      1
    else
      TextOrderOfDigits(left, right);
      if TextOrder(left, right) < 0 then -1 else if TextOrder(left, right) > 0 then 1 else 0
  }

  /** compareSemVersion, with its loops over the core and the identifiers. */
  method CompareSemVersion(left: Version, right: Version) returns (order: int)
    requires Valid(left) && Valid(right)
    ensures order == Precedence(left, right)
  {
    hide Number, Numeric, TextOrder, IdentifiersOrder;
    var pairs := [(left.major, right.major), (left.minor, right.minor), (left.patch, right.patch)];
    for k := 0 to 3
      invariant forall j :: 0 <= j < k ==> Number(pairs[j].0) == Number(pairs[j].1)
    {
      assert pairs[0] == (left.major, right.major) && pairs[1] == (left.minor, right.minor);
      order := CompareNumericIdentifier(pairs[k].0, pairs[k].1);
      if order != 0 { return; }
    }
    assert pairs[0] == (left.major, right.major) && pairs[1] == (left.minor, right.minor);
    assert pairs[2] == (left.patch, right.patch);
    assert Precedence(left, right) == PrereleaseOrder(left.prerelease, right.prerelease);
    if left.prerelease == [] || right.prerelease == [] {
      if |left.prerelease| == |right.prerelease| { return 0; }
      return if left.prerelease == [] then 1 else -1;
    }
    order := CompareIdentifiers(left.prerelease, right.prerelease);
  }

  /** The loop over the prerelease identifiers. */
  method CompareIdentifiers(left: seq<string>, right: seq<string>) returns (order: int)
    requires ValidPrerelease(left) && ValidPrerelease(right)
    ensures order == IdentifiersOrder(left, right)
  {
    hide Number, Plain, TextOrder, Identifier;
    var i := 0;
    while i < |left| && i < |right|
      invariant i <= |left| && i <= |right|
      invariant IdentifiersOrder(left, right) == IdentifiersOrder(left[i..], right[i..])
    {
      var leftID, rightID := left[i], right[i];
      assert left[i..][1..] == left[i + 1..] && right[i..][1..] == right[i + 1..];
      IdentifierOrderZero(leftID, rightID);
      if leftID != rightID {
        var leftNumeric, rightNumeric := Numeric(leftID), Numeric(rightID);
        if leftNumeric && rightNumeric { return CompareNumericIdentifier(leftID, rightID); }
        if leftNumeric { return -1; }
        if rightNumeric { return 1; }
        TextOrderRange(leftID, rightID);
        return if TextOrder(leftID, rightID) < 0 then -1 else 1;
      }
      i := i + 1;
    }
    if |left| < |right| { return -1; }
    if |left| > |right| { return 1; }
    return 0;
  }

  lemma {:induction false} TextOrderRange(a: string, b: string)
    ensures -1 <= TextOrder(a, b) <= 1 && TextOrder(a, b) == -TextOrder(b, a)
    ensures TextOrder(a, b) == 0 <==> a == b
  {
    if a != "" && b != "" && a[0] == b[0] {
      TextOrderRange(a[1..], b[1..]);
      assert a == [a[0]] + a[1..] && b == [b[0]] + b[1..];
    }
  }

  lemma IdentifierOrderZero(a: string, b: string)
    requires PrereleaseIdentifier(a) && PrereleaseIdentifier(b)
    ensures IdentifierOrder(a, b) == 0 <==> a == b
    ensures IdentifierOrder(a, b) == -IdentifierOrder(b, a)
  {
    hide Number, Digits, TextOrder;
    TextOrderRange(a, b);
    if Numeric(a) && Numeric(b) {
      PlainIsDigits(a);
      PlainIsDigits(b);
    }
  }

  lemma {:induction false} IdentifiersOrderZero(p: seq<string>, q: seq<string>)
    requires ValidPrerelease(p) && ValidPrerelease(q)
    ensures IdentifiersOrder(p, q) == 0 <==> p == q
    ensures IdentifiersOrder(p, q) == -IdentifiersOrder(q, p)
  {
    hide IdentifierOrder, PrereleaseIdentifier;
    if p != [] && q != [] {
      IdentifierOrderZero(p[0], q[0]);
      IdentifiersOrderZero(p[1..], q[1..]);
      assert p == [p[0]] + p[1..] && q == [q[0]] + q[1..];
    }
  }

  /**
   * Two versions have the same precedence exactly if they have the same core
   * and the same prerelease identifiers; the build does not count.
   */
  lemma PrecedenceZero(a: Version, b: Version)
    requires Valid(a) && Valid(b)
    ensures Precedence(a, b) == 0 <==> a == b
    ensures Precedence(a, b) == -Precedence(b, a)
  {
    hide Number, Digits, IdentifiersOrder, ValidPrerelease;
    IdentifiersOrderZero(a.prerelease, b.prerelease);
    forall x, y | Plain(x) && Plain(y) && Number(x) == Number(y)
      ensures x == y
    {
      PlainIsDigits(x);
      PlainIsDigits(y);
    }
  }

  lemma {:induction false} TextOrderTransitive(a: string, b: string, c: string)
    requires TextOrder(a, b) <= 0 && TextOrder(b, c) <= 0
    ensures TextOrder(a, c) <= 0
    ensures TextOrder(a, b) < 0 || TextOrder(b, c) < 0 ==> TextOrder(a, c) < 0
  {
    if a != "" && b != "" && c != "" && a[0] == b[0] && b[0] == c[0] {
      TextOrderTransitive(a[1..], b[1..], c[1..]);
    }
  }

  lemma IdentifierOrderTransitive(a: string, b: string, c: string)
    requires IdentifierOrder(a, b) <= 0 && IdentifierOrder(b, c) <= 0
    ensures IdentifierOrder(a, c) <= 0
    ensures IdentifierOrder(a, b) < 0 || IdentifierOrder(b, c) < 0 ==> IdentifierOrder(a, c) < 0
  {
    hide Number, TextOrder;
    if !Numeric(a) && !Numeric(b) && !Numeric(c) {
      TextOrderTransitive(a, b, c);
    }
  }

  lemma {:induction false} IdentifiersOrderTransitive(p: seq<string>, q: seq<string>, r: seq<string>)
    requires IdentifiersOrder(p, q) <= 0 && IdentifiersOrder(q, r) <= 0
    ensures IdentifiersOrder(p, r) <= 0
    ensures IdentifiersOrder(p, q) < 0 || IdentifiersOrder(q, r) < 0 ==> IdentifiersOrder(p, r) < 0
  {
    hide IdentifierOrder;
    if p != [] && q != [] && r != [] {
      IdentifierOrderTransitive(p[0], q[0], r[0]);
      if IdentifierOrder(p[0], q[0]) == 0 && IdentifierOrder(q[0], r[0]) == 0 {
        IdentifiersOrderTransitive(p[1..], q[1..], r[1..]);
      }
    }
  }

  /** Precedence is a total preorder: transitive here, total and antisymmetric by PrecedenceZero. */
  lemma PrecedenceTransitive(a: Version, b: Version, c: Version)
    requires Valid(a) && Valid(b) && Valid(c)
    requires Precedence(a, b) <= 0 && Precedence(b, c) <= 0
    ensures Precedence(a, c) <= 0
    ensures Precedence(a, b) < 0 || Precedence(b, c) < 0 ==> Precedence(a, c) < 0
  {
    hide Number, Plain, IdentifiersOrder, ValidPrerelease;
    if IdentifiersOrder(a.prerelease, b.prerelease) <= 0 && IdentifiersOrder(b.prerelease, c.prerelease) <= 0 {
      IdentifiersOrderTransitive(a.prerelease, b.prerelease, c.prerelease);
    }
  }

  // ------------------------------------------------------------------
  // signedUpdateV2Required

  const FIRST_SIGNED_UPDATE := "0.2.3-0"
  const FLOOR := Version("0", "2", "3", ["0"])

  lemma FloorIsRead()
    ensures WellFormed(Read(FIRST_SIGNED_UPDATE)) && VersionOf(Read(FIRST_SIGNED_UPDATE)) == FLOOR && Valid(FLOOR)
  {
    var r := Reading(["0", "2", "3"], Some(["0"]), None);
    assert Join(["0"], '.') == "0" && Join(["2", "3"], '.') == "2.3" by { assert ["2", "3"][1..] == ["3"]; }
    assert Join(["0", "2", "3"], '.') == "0.2.3" by { assert ["0", "2", "3"][1..] == ["2", "3"]; }
    assert Text(r) == FIRST_SIGNED_UPDATE;
    ReadOfText(r);
  }

  /** The core is 0.2.3 or later, whatever the prerelease. */
  predicate CoreReachesFloor(v: Version)
    requires Valid(v)
  {
    var major, minor, patch := Number(v.major), Number(v.minor), Number(v.patch);
    major > 0 || minor > 2 || (minor == 2 && patch >= 3)
  }

  lemma FloorIsLeast(v: Version)
    requires Valid(v) && Valid(FLOOR)
    ensures Precedence(v, FLOOR) >= 0 <==> CoreReachesFloor(v)
  {
    assert Number("0") == 0 && Number("2") == 2 && Number("3") == 3 by {
      assert "0"[..0] == "2"[..0] == "3"[..0] == "";
    }
    var ids := v.prerelease;
    if ids != [] {
      assert Numeric("0") && IdentifierOrder(ids[0], "0") >= 0;
      assert IdentifiersOrder(ids[1..], ["0"][1..]) == Sign(|ids| - 1) by { assert ["0"][1..] == []; }
      assert IdentifiersOrder(ids, ["0"]) >= 0;
    }
  }

  /** The answer: required or not, or an error (None) when the tag is no version after its "v". */
  method SignedUpdateV2Required(releaseTag: string) returns (required: Option<bool>)
    ensures
      var raw := if releaseTag == "" then "" else releaseTag[1..];
      required ==
      if releaseTag != "" && releaseTag[0] == 'v' && WellFormed(Read(raw))
      then Some(CoreReachesFloor(VersionOf(Read(raw)))) else None
  {
    hide Read, Text, Number, Precedence, CoreReachesFloor;
    if releaseTag == "" || releaseTag[0] != 'v' { return None; }
    if releaseTag[1..] == "" {
      EmptyIsNoVersion();
      return None;
    }
    var version := ParseSemVersion(releaseTag[1..]);
    if version == None { return None; }
    var floor := ParseSemVersion(FIRST_SIGNED_UPDATE);
    FloorIsRead();
    FloorIsLeast(version.value);
    var order := CompareSemVersion(version.value, floor.value);
    required := Some(order >= 0);
  }
}
