/**
 * pkg/e2bapi/backend.go: telling an FC endpoint from a native E2B one by
 * following the CNAME records of its host.
 */
module BackendDetection {
  import opened Common
  import opened Strings

  const FC_DOMAIN := "e2b.fc.aliyuncs.com"
  const NATIVE_E2B_DOMAIN := "e2b.app"
  const MAX_CNAME_HOPS := 8

  function NormalizeDnsName(name: string): string {
    ToLower(if name != "" && name[|name| - 1] == '.' then name[..|name| - 1] else name)
  }

  /** The length of a name without one dot at its end. */
  function Undotted(name: string): (n: nat)
    ensures n <= |name|
  {
    if name != "" && name[|name| - 1] == '.' then |name| - 1 else |name|
  }

  predicate SameLetter(c: char, d: char) {
    c == d || ('A' <= c <= 'Z' && d as int == c as int + 32) || ('A' <= d <= 'Z' && c as int == d as int + 32)
  }

  /** The names are spelled alike but for the case of letters and one dot at the end. */
  predicate SameSpelling(a: string, b: string) {
    Undotted(a) == Undotted(b) && forall i :: 0 <= i < Undotted(a) ==> SameLetter(a[i], b[i])
  }

  /**
   * Exactly the spellings of one name have the same normal form, which is one of
   * them and in lower case; it is a fixed point unless two dots end the name.
   */
  lemma NormalFormIsTheName(a: string, b: string)
    ensures NormalizeDnsName(a) == NormalizeDnsName(b) <==> SameSpelling(a, b)
    ensures
      var r := NormalizeDnsName(a);
      && |r| == Undotted(a)
      && forall i :: 0 <= i < |r| ==> !('A' <= r[i] <= 'Z') && SameLetter(a[i], r[i])
    ensures
      NormalizeDnsName(NormalizeDnsName(a)) == NormalizeDnsName(a) <==>
      !(|a| > 1 && a[|a| - 2] == '.' && a[|a| - 1] == '.')
  {
    var r, q := NormalizeDnsName(a), NormalizeDnsName(b);
    assert |r| == Undotted(a) && |q| == Undotted(b);
    if |r| == |q| {
      assert forall i :: 0 <= i < |r| ==> (r[i] == q[i] <==> SameLetter(a[i], b[i]));
    }
    assert forall i :: 0 <= i < |r| ==> !('A' <= r[i] <= 'Z');
    assert |r| > 0 ==> (r[|r| - 1] == '.' <==> a[|r| - 1] == '.');
    if r == "" || r[|r| - 1] != '.' {
      assert NormalizeDnsName(r) == r;
    } else {
      assert |NormalizeDnsName(r)| == |r| - 1;
    }
  }

  predicate HasSuffix(s: string, suffix: string) {
    |s| >= |suffix| && s[|s| - |suffix|..] == suffix
  }

  predicate DomainWithin(name: string, suffix: string) {
    name == suffix || HasSuffix(name, "." + suffix)
  }

  /** A name is within a domain exactly if its last labels are those of the domain. */
  lemma WithinByLabels(name: string, domain: string)
    ensures
      var n, d := Split(name, '.'), Split(domain, '.');
      DomainWithin(name, domain) <==> |n| >= |d| && n[|n| - |d|..] == d
  {
    hide Split, Join;
    var n, d := Split(name, '.'), Split(domain, '.');
    JoinSplit(name, '.');
    JoinSplit(domain, '.');
    if HasSuffix(name, "." + domain) {
      var front := name[..|name| - |domain| - 1];
      assert name == front + ['.'] + domain;
      SplitAcross(front, '.', domain);
      assert n[|n| - |d|..] == d;
    }
    if |n| > |d| && n[|n| - |d|..] == d {
      var front := n[..|n| - |d|];
      assert n == front + d;
      JoinAcross(front, d, '.');
      assert name[|name| - |domain| - 1..] == "." + domain;
    }
    if |n| == |d| && n[|n| - |d|..] == d {
      assert n == d;
    }
  }

  predicate InFc(name: string) {
    DomainWithin(name, FC_DOMAIN)
  }

  predicate ValidLabel(part: string) {
    && 0 < |part| <= 63 && part[0] != '-' && part[|part| - 1] != '-'
    && forall i :: 0 <= i < |part| ==>
         'a' <= part[i] <= 'z' || '0' <= part[i] <= '9' || part[i] == '-' || part[i] == '_'
  }

  predicate ValidDnsName(name: string) {
    0 < |name| <= 253 && forall part :: part in Split(name, '.') ==> ValidLabel(part)
  }

  /**
   * The same without labels: lower-case letters, digits, hyphens, underscores
   * and dots, no dot or hyphen at an end or beside a dot, and a dot among any 64
   * characters in a row.
   */
  predicate Spelled(s: string) {
    Lettered(s) && Dotted(s)
  }

  predicate Lettered(s: string) {
    && s != "" && s[0] !in ".-" && s[|s| - 1] !in ".-"
    && (forall i :: 0 <= i < |s| ==> 'a' <= s[i] <= 'z' || '0' <= s[i] <= '9' || s[i] in "-_.")
    && (forall i :: 0 < i < |s| ==> Apart(s[i - 1], s[i]))
  }

  /** No dot with a dot or hyphen beside it. */
  predicate Apart(c: char, d: char) {
    !(c == '.' && d in ".-") && !(d == '.' && c in ".-")
  }

  predicate Dotted(s: string) {
    forall i :: 0 <= i <= |s| - 64 ==> DotFrom(s, i)
  }

  predicate DotFrom(s: string, i: nat)
    requires i <= |s| - 64
  {
    '.' in s[i..i + 64]
  }

  lemma OneLabelSpelled(s: string)
    requires '.' !in s
    ensures ValidLabel(s) <==> Spelled(s)
  {
    if |s| >= 64 {
      assert '.' !in s[0..64];
      assert !DotFrom(s, 0);
    }
  }

  lemma DottedParts(before: string, after: string)
    requires '.' !in before
    ensures Dotted(before + ['.'] + after) <==> |before| <= 63 && Dotted(after)
  {
    hide DotFrom;
    var s, n := before + ['.'] + after, |before|;
    forall i | 0 <= i <= |s| - 64
      ensures DotFrom(s, i) <==> if n < 64 + i then (i > n ==> DotFrom(after, i - n - 1)) else false
    {
      DotSeen(before, after, i);
    }
    if n >= 64 {
      assert !DotFrom(s, 0);
    } else if Dotted(s) {
      forall i | 0 <= i <= |after| - 64 ensures DotFrom(after, i) {
        assert DotFrom(s, n + 1 + i);
      }
    }
  }

  lemma SameWindow(s: string, i: nat, t: string, k: nat)
    requires i + 64 <= |s| && k + 64 <= |t| && forall j :: i <= j < i + 64 ==> s[j] == t[j - i + k]
    ensures s[i..i + 64] == t[k..k + 64]
  {
    var a, b := s[i..i + 64], t[k..k + 64];
    forall j | 0 <= j < 64
      ensures a[j] == b[j]
    {
      assert a[j] == s[i + j] == t[i + j - i + k] && b[j] == t[k + j];
    }
  }

  lemma DotSeen(before: string, after: string, i: nat)
    requires '.' !in before && i <= |before| + 1 + |after| - 64
    ensures
      var s, n := before + ['.'] + after, |before|;
      DotFrom(s, i) <==> if n < 64 + i then (i > n ==> DotFrom(after, i - n - 1)) else false
  {
    var s, n := before + ['.'] + after, |before|;
    if i > n {
      SameWindow(s, i, after, i - n - 1);
    } else if n < 64 + i {
      assert s[i..i + 64][n - i] == '.';
    } else {
      SameWindow(s, i, before, i);
    }
  }

  lemma LetteredParts(before: string, after: string)
    requires '.' !in before
    ensures Lettered(before + ['.'] + after) && |before| <= 63 <==> ValidLabel(before) && Lettered(after)
  {
    var s := before + ['.'] + after;
    assert forall i :: 0 <= i < |before| ==> s[i] == before[i];
    if Lettered(s) && |before| <= 63 {
      FrontLettered(before, after);
    }
    if ValidLabel(before) && Lettered(after) {
      WholeLettered(before, after);
    }
  }

  lemma WholeLettered(before: string, after: string)
    requires ValidLabel(before) && Lettered(after)
    ensures Lettered(before + ['.'] + after)
  {
    hide Apart;
    var s, n := before + ['.'] + after, |before|;
    assert s[n] == '.' && forall i :: 0 <= i < n ==> s[i] == before[i];
    assert forall i :: n < i < |s| ==> s[i] == after[i - n - 1];
    forall i | 0 < i < |s|
      ensures Apart(s[i - 1], s[i])
    {
      if i > n + 1 {
        assert Apart(after[i - n - 2], after[i - n - 1]);
      } else {
        BesideDot(if i == n + 1 then s[i] else s[i - 1]);
        LettersApart(s[i - 1], s[i]);
      }
    }
  }

  lemma LettersApart(c: char, d: char)
    ensures c != '.' && d != '.' ==> Apart(c, d)
  {
  }

  lemma FrontLettered(before: string, after: string)
    requires '.' !in before && Lettered(before + ['.'] + after)
    ensures before != "" && before[|before| - 1] != '-' && Lettered(after)
  {
    hide Apart;
    var s, n := before + ['.'] + after, |before|;
    assert s[n] == '.' && s[0] != '.';
    assert after != "" by { assert s[|s| - 1] != '.'; }
    assert s[n - 1] == before[n - 1] && Apart(s[n - 1], s[n]);
    assert s[n + 1] == after[0] && Apart(s[n], s[n + 1]) && s[|s| - 1] == after[|after| - 1];
    BesideDot(before[n - 1]);
    BesideDot(after[0]);
    forall i | 0 < i < |after|
      ensures Apart(after[i - 1], after[i])
    {
      assert s[n + 1 + i] == after[i] && s[n + 1 + i - 1] == after[i - 1];
    }
    assert forall i :: 0 <= i < |after| ==> s[n + 1 + i] == after[i];
  }

  lemma BesideDot(c: char)
    ensures Apart(c, '.') <==> c !in ".-"
    ensures Apart('.', c) <==> c !in ".-"
  {
  }

  lemma SpelledParts(before: string, after: string)
    requires '.' !in before
    ensures Spelled(before + ['.'] + after) <==> ValidLabel(before) && Spelled(after)
  {
    hide Lettered, Dotted;
    DottedParts(before, after);
    LetteredParts(before, after);
  }

  lemma {:induction false} LabelsAreSpelled(s: string)
    ensures (forall part :: part in Split(s, '.') ==> ValidLabel(part)) <==> Spelled(s)
    decreases |s|
  {
    hide Spelled, ValidLabel;
    var h := Cut(s, '.');
    if h.found {
      LabelsAreSpelled(h.after);
      SpelledParts(h.before, h.after);
      SplitAt(h.before, '.', h.after);
    } else {
      SplitAt(s, '.', "");
      OneLabelSpelled(s);
    }
  }

  /** The names that an answer may hold, told by their characters. */
  lemma ValidNamesBySpelling(name: string)
    ensures ValidDnsName(name) <==> |name| <= 253 && Spelled(name)
  {
    hide Split, ValidLabel;
    LabelsAreSpelled(name);
  }

  /** A lookup gives the answer's owner and target pairs, in any order, or fails. */
  datatype Answer = Answer(pairs: seq<(string, string)>) | LookupFailed | TimedOut

  /** The reasons of the original; all from CnameLoop on come with an error. */
  datatype Verdict =
    | Fc | E2bDomain | IpEndpoint | NoFcCname
    | CnameLoop | HopLimit | DnsTimeout | DnsLookupFailed | InvalidCname | ConflictingCname

  // ------------------------------------------------------------------
  // The plain chain: each name has at most one alias.

  type Aliases = string -> Option<string>

  function Chain(f: Aliases, name: string, hops: nat): Option<string>
    decreases hops
  {
    if hops == 0 then Some(name)
    else
      match f(name)
      case None => None
      case Some(next) => Chain(f, next, hops - 1)
  }

  /** The domains: a host is FC for itself, and native E2B, exactly by its last labels. */
  lemma DomainsByLabels(name: string)
    ensures
      var n := Split(name, '.');
      && (InFc(name) <==> |n| >= 4 && n[|n| - 4..] == ["e2b", "fc", "aliyuncs", "com"])
      && (DomainWithin(name, NATIVE_E2B_DOMAIN) <==> |n| >= 2 && n[|n| - 2..] == ["e2b", "app"])
  {
    hide Split, DomainWithin;
    WithinByLabels(name, FC_DOMAIN);
    WithinByLabels(name, NATIVE_E2B_DOMAIN);
    var fc := ["e2b", "fc", "aliyuncs", "com"];
    assert fc[1..] == ["fc", "aliyuncs", "com"] && fc[1..][1..] == ["aliyuncs", "com"] && fc[1..][1..][1..] == ["com"];
    assert ["e2b", "app"][1..] == ["app"];
    assert Join(fc, '.') == "e2b.fc.aliyuncs.com" && Join(["e2b", "app"], '.') == "e2b.app";
    SplitJoin(fc, '.');
    SplitJoin(["e2b", "app"], '.');
  }

  ghost predicate ReachesFc(f: Aliases, name: string, hops: nat) {
    Chain(f, name, hops).Some? && InFc(Chain(f, name, hops).value)
  }

  /** Some name at most `limit` hops away is in the FC domain. */
  ghost predicate FcWithin(f: Aliases, name: string, limit: nat) {
    exists h :: 0 <= h <= limit && ReachesFc(f, name, h)
  }

  /** The chain stops before `limit` hops without having met the FC domain. */
  ghost predicate EndsWithin(f: Aliases, name: string, limit: nat) {
    exists h :: 0 <= h < limit && Chain(f, name, h).Some? && f(Chain(f, name, h).value) == None
  }

  /** The walk of the original along the chain, one name after the other. */
  function Walk(f: Aliases, current: string, hop: nat, seen: set<string>): Verdict
    requires hop <= MAX_CNAME_HOPS
    decreases MAX_CNAME_HOPS - hop
  {
    if InFc(current) then Fc
    else if current in seen then CnameLoop
    else if hop == MAX_CNAME_HOPS then HopLimit
    else
      match f(current)
      case None => NoFcCname
      case Some(next) => Walk(f, next, hop + 1, seen + {current})
  }

  /** The walk came from names outside the FC domain, each leading to the next. */
  ghost predicate Walked(f: Aliases, current: string, seen: set<string>) {
    forall s :: s in seen ==> !InFc(s) && f(s).Some? && (f(s).value in seen || f(s).value == current)
  }

  lemma {:induction false} LoopNeverLeaves(f: Aliases, name: string, seen: set<string>, hops: nat)
    requires name in seen && forall s :: s in seen ==> !InFc(s) && f(s).Some? && f(s).value in seen
    ensures Chain(f, name, hops).Some? && Chain(f, name, hops).value in seen
    decreases hops
  {
    if hops > 0 {
      LoopNeverLeaves(f, f(name).value, seen, hops - 1);
    }
  }

  lemma {:induction false} WalkFindsFc(f: Aliases, current: string, hop: nat, seen: set<string>)
    requires hop <= MAX_CNAME_HOPS && Walked(f, current, seen)
    ensures Walk(f, current, hop, seen).Fc? <==> FcWithin(f, current, MAX_CNAME_HOPS - hop)
    decreases MAX_CNAME_HOPS - hop
  {
    hide InFc;
    var limit := MAX_CNAME_HOPS - hop;
    assert ReachesFc(f, current, 0) <==> InFc(current);
    if InFc(current) {
    } else if current in seen {
      forall h | 0 <= h <= limit
        ensures !ReachesFc(f, current, h)
      {
        LoopNeverLeaves(f, current, seen, h);
      }
    } else if limit > 0 && f(current).Some? {
      var next := f(current).value;
      WalkFindsFc(f, next, hop + 1, seen + {current});
      forall h | 0 < h <= limit
        ensures ReachesFc(f, current, h) <==> ReachesFc(f, next, h - 1)
      {}
      if FcWithin(f, next, limit - 1) {
        var h :| 0 <= h <= limit - 1 && ReachesFc(f, next, h);
        assert ReachesFc(f, current, h + 1);
      }
    } else {
      assert forall h :: 0 < h <= limit ==> !ReachesFc(f, current, h);
    }
  }

  lemma {:induction false} WalkFindsEnd(f: Aliases, current: string, hop: nat, seen: set<string>)
    requires hop <= MAX_CNAME_HOPS && Walked(f, current, seen)
    ensures Walk(f, current, hop, seen).NoFcCname? <==>
            EndsWithin(f, current, MAX_CNAME_HOPS - hop) && !FcWithin(f, current, MAX_CNAME_HOPS - hop)
    decreases MAX_CNAME_HOPS - hop
  {
    hide InFc;
    var limit := MAX_CNAME_HOPS - hop;
    WalkFindsFc(f, current, hop, seen);
    if InFc(current) {
    } else if current in seen {
      forall h | 0 <= h < limit
        ensures Chain(f, current, h).Some? && f(Chain(f, current, h).value).Some?
      {
        LoopNeverLeaves(f, current, seen, h);
      }
    } else if limit > 0 && f(current).Some? {
      var next := f(current).value;
      WalkFindsEnd(f, next, hop + 1, seen + {current});
      forall h | 0 < h <= limit
        ensures Chain(f, current, h) == Chain(f, next, h - 1)
      {}
      WalkFindsFc(f, next, hop + 1, seen + {current});
      if EndsWithin(f, next, limit - 1) {
        var h :| 0 <= h < limit - 1 && Chain(f, next, h).Some? && f(Chain(f, next, h).value) == None;
        assert Chain(f, current, h + 1) == Chain(f, next, h);
      }
      if EndsWithin(f, current, limit) {
        var h :| 0 <= h < limit && Chain(f, current, h).Some? && f(Chain(f, current, h).value) == None;
        assert Chain(f, current, 0) == Some(current);
        assert Chain(f, current, h) == Chain(f, next, h - 1);
      }
    } else if limit > 0 {
      assert Chain(f, current, 0) == Some(current);
    }
  }

  // ------------------------------------------------------------------
  // The answers of the resolver.

  function Normalized(pair: (string, string)): (string, string) {
    (NormalizeDnsName(pair.0), NormalizeDnsName(pair.1))
  }

  predicate ValidPair(pair: (string, string)) {
    ValidDnsName(NormalizeDnsName(pair.0)) && ValidDnsName(NormalizeDnsName(pair.1))
  }

  /**
   * Every lookup succeeds and tells nothing but valid aliases of `f`, among
   * them the alias of the name asked for; it may tell any number of others.
   */
  ghost predicate Tells(lookup: string -> Answer, f: Aliases) {
    forall name :: TellsOf(lookup(name), name, f)
  }

  ghost predicate TellsOf(answer: Answer, name: string, f: Aliases) {
    && answer.Answer?
    && (forall i :: 0 <= i < |answer.pairs| ==>
          ValidPair(answer.pairs[i]) && f(Normalized(answer.pairs[i]).0) == Some(Normalized(answer.pairs[i]).1))
    && (f(name).Some? ==> exists i :: 0 <= i < |answer.pairs| && Normalized(answer.pairs[i]).0 == name)
  }

  ghost predicate AreAliases(records: map<string, string>, f: Aliases) {
    forall owner :: owner in records ==> f(owner) == Some(records[owner])
  }

  /** The records all come from the answers that were given. */
  ghost predicate Heard(records: map<string, string>, lookup: string -> Answer, asked: seq<string>) {
    forall owner :: owner in records ==> Told(owner, records[owner], lookup, asked)
  }

  ghost predicate Told(owner: string, target: string, lookup: string -> Answer, asked: seq<string>) {
    exists k, i ::
      && 0 <= k < |asked| && lookup(asked[k]).Answer? && 0 <= i < |lookup(asked[k]).pairs|
      && Normalized(lookup(asked[k]).pairs[i]) == (owner, target)
      && ValidDnsName(owner) && ValidDnsName(target)
  }

  /** Names from `host` on, each an alias of the one before by some answer given. */
  ghost predicate Trail(names: seq<string>, host: string, lookup: string -> Answer, asked: seq<string>) {
    && names != [] && names[0] == host
    && forall i :: 0 < i < |names| ==> Told(names[i - 1], names[i], lookup, asked)
  }

  /** The answers tell two aliases of one name. */
  ghost predicate Contradicted(lookup: string -> Answer, asked: seq<string>) {
    exists owner, s, t :: Told(owner, s, lookup, asked) && Told(owner, t, lookup, asked) && s != t
  }

  ghost predicate HasInvalid(answer: Answer) {
    answer.Answer? && exists i :: 0 <= i < |answer.pairs| && !ValidPair(answer.pairs[i])
  }

  /** An answer that tells no alias of the name. */
  ghost predicate Silent(answer: Answer, name: string) {
    answer.Answer? && forall i :: 0 <= i < |answer.pairs| ==> Normalized(answer.pairs[i]).0 != name
  }

  /** What the last lookup, of the last name, was answered with, when that ends the walk. */
  ghost predicate EndsAt(verdict: Verdict, last: string, lookup: string -> Answer, asked: seq<string>) {
    && asked != [] && asked[|asked| - 1] == last
    && match verdict
       case NoFcCname => Silent(lookup(last), last)
       case DnsTimeout => lookup(last).TimedOut?
       case DnsLookupFailed => lookup(last).LookupFailed?
       case InvalidCname => HasInvalid(lookup(last))
       case ConflictingCname => lookup(last).Answer? && Contradicted(lookup, asked)
       case _ => false
  }

  /** What each verdict means, in terms of the host, the names followed and the lookups made. */
  ghost predicate Reason(verdict: Verdict, names: seq<string>, lookup: string -> Answer, asked: seq<string>,
                         isIp: string -> bool)
    requires names != []
  {
    var host, last := names[0], names[|names| - 1];
    match verdict
    case Fc => InFc(last)
    case E2bDomain => asked == [] && DomainWithin(host, "e2b.app")
    case IpEndpoint => asked == [] && !DomainWithin(host, "e2b.app") && isIp(host)
    case CnameLoop => exists i :: 0 <= i < |names| - 1 && names[i] == last
    case HopLimit => |names| == 9
    case _ => EndsAt(verdict, last, lookup, asked)
  }

  lemma ToldStays(owner: string, target: string, lookup: string -> Answer, asked: seq<string>, name: string)
    requires Told(owner, target, lookup, asked)
    ensures Told(owner, target, lookup, asked + [name])
  {
    hide ValidDnsName, Normalized;
    var k, i :| 0 <= k < |asked| && lookup(asked[k]).Answer? && 0 <= i < |lookup(asked[k]).pairs|
      && Normalized(lookup(asked[k]).pairs[i]) == (owner, target);
    assert (asked + [name])[k] == asked[k];
  }

  lemma KeepHeard(names: seq<string>, host: string, records: map<string, string>, lookup: string -> Answer,
                  asked: seq<string>, name: string)
    requires Heard(records, lookup, asked) && Trail(names, host, lookup, asked)
    ensures Heard(records, lookup, asked + [name]) && Trail(names, host, lookup, asked + [name])
  {
    hide Told;
    forall owner, target | Told(owner, target, lookup, asked)
      ensures Told(owner, target, lookup, asked + [name])
    {
      ToldStays(owner, target, lookup, asked, name);
    }
  }

  /** The loop over one answer: records gains its pairs, unless one is invalid or contradicts another. */
  method Absorb(before: map<string, string>, pairs: seq<(string, string)>,
                ghost lookup: string -> Answer, ghost asked: seq<string>, ghost f: Aliases)
    returns (records: map<string, string>, problem: Option<Verdict>)
    requires asked != [] && lookup(asked[|asked| - 1]) == Answer(pairs) && Heard(before, lookup, asked)
    ensures problem.Some? ==>
              || (problem.value.InvalidCname? && HasInvalid(Answer(pairs)))
              || (problem.value.ConflictingCname? && Contradicted(lookup, asked))
    ensures Heard(records, lookup, asked)
    ensures AreAliases(before, f) && TellsOf(Answer(pairs), asked[|asked| - 1], f) ==>
            && problem == None && AreAliases(records, f)
            && (asked[|asked| - 1] in records <==> f(asked[|asked| - 1]).Some?)
    ensures problem == None ==>
              && (forall owner :: owner in before ==> owner in records && records[owner] == before[owner])
              && forall i :: 0 <= i < |pairs| ==> Holds(records, pairs[i])
  {
    hide ValidDnsName, NormalizeDnsName;
    records := before;
    for i := 0 to |pairs|
      invariant Heard(records, lookup, asked)
      invariant forall owner :: owner in before ==> owner in records && records[owner] == before[owner]
      invariant forall k :: 0 <= k < i ==> Holds(records, pairs[k])
      invariant AreAliases(before, f) && TellsOf(Answer(pairs), asked[|asked| - 1], f) ==> AreAliases(records, f)
    {
      var owner, target := NormalizeDnsName(pairs[i].0), NormalizeDnsName(pairs[i].1);
      if !ValidDnsName(owner) || !ValidDnsName(target) {
        assert !ValidPair(Answer(pairs).pairs[i]);
        return records, Some(InvalidCname);
      }
      assert Told(owner, target, lookup, asked) by {
        assert lookup(asked[|asked| - 1]).pairs[i] == pairs[i];
      }
      if owner in records && records[owner] != target {
        assert Told(owner, records[owner], lookup, asked);
        return records, Some(ConflictingCname);
      }
      records := records[owner := target];
    }
    problem := None;
  }

  ghost predicate Holds(records: map<string, string>, pair: (string, string)) {
    ValidPair(pair) && Normalized(pair).0 in records && records[Normalized(pair).0] == Normalized(pair).1
  }

  /** The alias of `current`: from the records, or from the answer to a lookup of it. */
  method Follow(current: string, before: map<string, string>, lookup: string -> Answer,
                ghost start: string, ghost names: seq<string>, ghost earlier: seq<string>, ghost f: Aliases)
    returns (next: Option<string>, verdict: Verdict, records: map<string, string>, ghost asked: seq<string>)
    requires Heard(before, lookup, earlier) && Trail(names, start, lookup, earlier) && names[|names| - 1] == current
    ensures asked == earlier || asked == earlier + [current]
    ensures next.Some? ==>
              Heard(records, lookup, asked) && Trail(names + [next.value], start, lookup, asked)
    ensures next.Some? && asked != earlier ==> lookup(current).Answer?
    ensures next == None ==>
              && EndsAt(verdict, current, lookup, asked) && asked == earlier + [current]
              && Trail(names, start, lookup, asked)
    ensures Tells(lookup, f) && AreAliases(before, f) ==>
              next == f(current) && AreAliases(records, f) && (next == None ==> verdict == NoFcCname)
  {
    hide ValidDnsName, Told, Normalized, HasInvalid, Contradicted;
    verdict, records, asked := NoFcCname, before, earlier;
    if current !in records {
      var answer := lookup(current);
      assert Tells(lookup, f) ==> TellsOf(answer, current, f);
      KeepHeard(names, start, records, lookup, asked, current);
      asked := asked + [current];
      if answer.TimedOut? { return None, DnsTimeout, records, asked; }
      if answer.LookupFailed? { return None, DnsLookupFailed, records, asked; }
      var problem;
      records, problem := Absorb(records, answer.pairs, lookup, asked, f);
      if problem.Some? { return None, problem.value, records, asked; }
      if current !in records { return None, NoFcCname, records, asked; }
    }
    next := Some(records[current]);
    assert Told(current, records[current], lookup, asked);
  }

  /**
   * identifyBackend.  `lookup` is the resolver, `isIp` is net.ParseIP; `asked`
   * are the names looked up, `names` those followed, and `f` any chain.
   */
  method IdentifyBackend(host: string, lookup: string -> Answer, isIp: string -> bool, ghost f: Aliases)
    returns (verdict: Verdict, ghost asked: seq<string>, ghost names: seq<string>)
    ensures |asked| <= 8 && forall i, j :: 0 <= i < j < |asked| ==> asked[i] != asked[j]
    // The names followed are backed by the answers; FC is said exactly when the last
    // of them is in the FC domain, none before it is, and every other verdict has its reason.
    ensures |names| <= 9 && Trail(names, NormalizeDnsName(host), lookup, asked)
    ensures verdict.Fc? <==> InFc(names[|names| - 1])
    ensures forall i :: 0 <= i < |names| - 1 ==> !InFc(names[i])
    ensures Reason(verdict, names, lookup, asked, isIp)
    ensures asked != [] ==> !DomainWithin(names[0], "e2b.app") && !isIp(names[0])
    ensures forall i :: 0 <= i < |asked| - 1 ==> lookup(asked[i]).Answer?
    // When the resolver tells the chain f, the verdict is that of the walk along f.
    ensures Tells(lookup, f) ==> verdict == Expected(f, NormalizeDnsName(host), isIp)
  {
    hide InFc, DomainWithin, NormalizeDnsName, Tells, Heard, Trail, AreAliases, EndsAt;
    asked := [];
    var current := NormalizeDnsName(host);
    ghost var start := current;
    names := [current];
    TrailStarts(start, lookup);
    FcIsWithin(current);
    if DomainWithin(current, FC_DOMAIN) { verdict := Fc; return; }
    if DomainWithin(current, NATIVE_E2B_DOMAIN) { verdict := E2bDomain; return; }
    if isIp(current) { verdict := IpEndpoint; return; }
    var seen: set<string>, records: map<string, string> := {}, map[];
    assert AreAliases(records, f) by { NoAliasesYet(f); }
    var hop := 0;
    while hop <= MAX_CNAME_HOPS
      invariant hop <= MAX_CNAME_HOPS
      invariant |asked| <= hop && (forall i :: 0 <= i < |asked| ==> asked[i] in seen)
      invariant forall i, j :: 0 <= i < j < |asked| ==> asked[i] != asked[j]
      invariant |names| == hop + 1 && names[hop] == current
      invariant forall i :: 0 <= i < hop ==> !InFc(names[i]) && names[i] in seen
      invariant forall name :: name in seen ==> name in names[..hop]
      invariant forall i :: 0 <= i < |asked| ==> lookup(asked[i]).Answer?
      invariant names[0] == start && !DomainWithin(start, NATIVE_E2B_DOMAIN) && !isIp(start)
      invariant Trail(names, start, lookup, asked) && Heard(records, lookup, asked)
      invariant Tells(lookup, f) ==> AreAliases(records, f) && Walk(f, current, hop, seen) == Walk(f, start, 0, {})
      decreases MAX_CNAME_HOPS - hop
    {
      FcIsWithin(current);
      if DomainWithin(current, FC_DOMAIN) { verdict := Fc; return; }
      if current in seen { verdict := CnameLoop; return; }
      seen := seen + {current};
      if hop == MAX_CNAME_HOPS { verdict := HopLimit; return; }
      var next;
      next, verdict, records, asked := Follow(current, records, lookup, start, names, asked, f);
      if next == None {
        EndIsReason(verdict, names, lookup, asked, isIp);
        return;
      }
      names := names + [next.value];
      current := next.value;
      hop := hop + 1;
    }
  }

  lemma EndIsReason(verdict: Verdict, names: seq<string>, lookup: string -> Answer, asked: seq<string>,
                    isIp: string -> bool)
    requires names != [] && EndsAt(verdict, names[|names| - 1], lookup, asked)
    ensures Reason(verdict, names, lookup, asked, isIp) && !verdict.Fc?
  {
    hide Silent, HasInvalid, Contradicted;
  }

  lemma TrailStarts(start: string, lookup: string -> Answer)
    ensures Trail([start], start, lookup, []) && Heard(map[], lookup, [])
  {}

  lemma NoAliasesYet(f: Aliases)
    ensures AreAliases(map[], f)
  {}

  lemma FcIsWithin(name: string)
    ensures InFc(name) <==> DomainWithin(name, FC_DOMAIN)
  {}

  ghost function Expected(f: Aliases, name: string, isIp: string -> bool): Verdict {
    if InFc(name) then Fc
    else if DomainWithin(name, NATIVE_E2B_DOMAIN) then E2bDomain
    else if isIp(name) then IpEndpoint
    else Walk(f, name, 0, {})
  }

  /** A host that is neither an E2B name nor an address is FC exactly if its chain is within 8 hops. */
  lemma FcExactlyWithinEightHops(f: Aliases, name: string, isIp: string -> bool)
    requires !DomainWithin(name, NATIVE_E2B_DOMAIN) && !isIp(name)
    ensures Expected(f, name, isIp).Fc? <==> FcWithin(f, name, 8)
    ensures Expected(f, name, isIp).NoFcCname? <==> EndsWithin(f, name, 8) && !FcWithin(f, name, 8)
  {
    hide InFc, DomainWithin;
    WalkFindsFc(f, name, 0, {});
    WalkFindsEnd(f, name, 0, {});
    assert InFc(name) ==> ReachesFc(f, name, 0);
  }
}
