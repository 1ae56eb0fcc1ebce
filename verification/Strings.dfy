/** The parts of Go's strings package that several components use. */
module Strings {
  /** unicode.IsSpace */
  predicate IsSpace(c: char) {
    var n := c as int;
    || 9 <= n <= 13 || n == 0x20 || n == 0x85 || n == 0xA0 || n == 0x1680
    || 0x2000 <= n <= 0x200A || n == 0x2028 || n == 0x2029 || n == 0x202F || n == 0x205F || n == 0x3000
  }

  /** strings.TrimSpace */
  function TrimSpace(s: string): (t: string)
    ensures t != "" ==> !IsSpace(t[0]) && !IsSpace(t[|t| - 1])
  {
    if s == "" then ""
    else if IsSpace(s[0]) then TrimSpace(s[1..])
    else if IsSpace(s[|s| - 1]) then TrimSpace(s[..|s| - 1])
    else s
  }

  lemma TrimKeeps(s: string)
    requires s != "" && !IsSpace(s[0]) && !IsSpace(s[|s| - 1])
    ensures TrimSpace(s) == s
  {}

  lemma TrimOne(s: string)
    requires |s| > 1 && !IsSpace(s[0]) && IsSpace(s[|s| - 1]) && !IsSpace(s[|s| - 2])
    ensures TrimSpace(s) == s[..|s| - 1]
  {
    TrimKeeps(s[..|s| - 1]);
  }

  /** Nothing in front of a character that is no space is trimmed, when the text starts with one too. */
  lemma {:induction false} TrimKeepsFront(s: string, i: nat) returns (k: nat)
    requires i < |s| && !IsSpace(s[0]) && !IsSpace(s[i])
    ensures i < k <= |s| && TrimSpace(s) == s[..k]
    decreases |s|
  {
    hide IsSpace;
    k := |s|;
    assert s[..k] == s;
    if IsSpace(s[|s| - 1]) {
      var front := s[..|s| - 1];
      k := TrimKeepsFront(front, i);
      assert front[..k] == s[..k];
    }
  }

  predicate AllSpaces(s: string) {
    forall i :: 0 <= i < |s| ==> IsSpace(s[i])
  }

  lemma TrimFirst(s: string)
    requires s != "" && IsSpace(s[0])
    ensures TrimSpace(s) == TrimSpace(s[1..])
  {
  }

  lemma TrimLast(s: string)
    requires s != "" && !IsSpace(s[0]) && IsSpace(s[|s| - 1])
    ensures TrimSpace(s) == TrimSpace(s[..|s| - 1])
  {
  }

  /** Space on either side of a text that neither begins nor ends with one is all that is trimmed. */
  lemma {:induction false} TrimAround(lead: string, s: string, trail: string)
    requires AllSpaces(lead) && AllSpaces(trail)
    requires s != "" ==> !IsSpace(s[0]) && !IsSpace(s[|s| - 1])
    ensures TrimSpace(lead + s + trail) == s
    decreases |lead| + |trail|
  {
    hide IsSpace, TrimSpace;
    var all := lead + s + trail;
    if lead != "" {
      assert all[0] == lead[0] && all[1..] == lead[1..] + s + trail;
      TrimFirst(all);
      TrimAround(lead[1..], s, trail);
    } else if trail == "" {
      assert all == s;
      TrimWhole(s);
    } else if s == "" {
      assert all[0] == trail[0] && all[1..] == "" + s + trail[1..];
      TrimFirst(all);
      TrimAround("", s, trail[1..]);
    } else {
      var n := |trail| - 1;
      assert all[0] == s[0] && all[|all| - 1] == trail[n] && all[..|all| - 1] == "" + s + trail[..n];
      TrimLast(all);
      TrimAround("", s, trail[..n]);
    }
  }

  lemma TrimWhole(s: string)
    requires s != "" ==> !IsSpace(s[0]) && !IsSpace(s[|s| - 1])
    ensures TrimSpace(s) == s
  {
    if s != "" {
      TrimKeeps(s);
    }
  }

  /** strings.ToLower, for ASCII. */
  function ToLower(s: string): string {
    seq(|s|, i requires 0 <= i < |s| => if 'A' <= s[i] <= 'Z' then ((s[i] as int) + 32) as char else s[i])
  }

  /** strings.IndexByte: the first occurrence, or -1. */
  function IndexByte(s: string, c: char): (k: int)
    ensures -1 <= k < |s|
    ensures k >= 0 ==> s[k] == c && c !in s[..k]
    ensures k < 0 ==> c !in s
  {
    if s == "" then -1
    else if s[0] == c then 0
    else
      var k := IndexByte(s[1..], c);
      assert k >= 0 ==> s[..k + 1] == [s[0]] + s[1..][..k];
      assert s == [s[0]] + s[1..];
      if k < 0 then -1 else k + 1
  }

  lemma IndexAt(before: string, c: char, after: string)
    requires c !in before
    ensures
      var s := before + [c] + after;
      IndexByte(s, c) == |before| && s[..|before|] == before && s[|before| + 1..] == after
  {
    hide IndexByte;
    var s := before + [c] + after;
    var k := IndexByte(s, c);
    assert s[|before|] == c && (forall i :: 0 <= i < |before| ==> s[i] == before[i] != c);
    assert forall i :: 0 <= i < k ==> s[i] == s[..k][i] != c;
  }

  datatype Halves = Halves(before: string, after: string, found: bool)

  /** strings.Cut around the first `c`. */
  function Cut(s: string, c: char): (h: Halves)
    ensures c !in h.before
    ensures if h.found then s == h.before + [c] + h.after else s == h.before && h.after == ""
  {
    var k := IndexByte(s, c);
    if k < 0 then Halves(s, "", false) else Halves(s[..k], s[k + 1..], true)
  }

  lemma CutAt(before: string, c: char, after: string)
    requires c !in before
    ensures Cut(before, c) == Halves(before, "", false)
    ensures Cut(before + [c] + after, c) == Halves(before, after, true)
  {
    IndexAt(before, c, after);
  }

  /** strings.Split around each `c`. */
  function Split(s: string, c: char): (parts: seq<string>)
    ensures parts != [] && forall p :: p in parts ==> c !in p
    decreases |s|
  {
    var h := Cut(s, c);
    if h.found then [h.before] + Split(h.after, c) else [s]
  }

  lemma SplitAt(before: string, c: char, after: string)
    requires c !in before
    ensures Split(before, c) == [before] && Split(before + [c] + after, c) == [before] + Split(after, c)
  {
    hide Cut;
    CutAt(before, c, after);
  }

  lemma {:induction false} SplitAcross(a: string, c: char, b: string)
    ensures Split(a + [c] + b, c) == Split(a, c) + Split(b, c)
    decreases |a|
  {
    hide Cut, Split;
    var h := Cut(a, c);
    if h.found {
      SplitAt(h.before, c, h.after);
      SplitAt(h.before, c, h.after + [c] + b);
      assert a + [c] + b == h.before + [c] + (h.after + [c] + b);
      assert |a| == |h.before| + 1 + |h.after|;
      SplitAcross(h.after, c, b);
      assert [h.before] + (Split(h.after, c) + Split(b, c)) == [h.before] + Split(h.after, c) + Split(b, c);
    } else {
      SplitAt(a, c, b);
    }
  }

  /** strings.Join */
  function Join(parts: seq<string>, c: char): string {
    if parts == [] then "" else if |parts| == 1 then parts[0] else parts[0] + [c] + Join(parts[1..], c)
  }

  lemma {:induction false} JoinSplit(s: string, c: char)
    ensures Join(Split(s, c), c) == s
    decreases |s|
  {
    var h := Cut(s, c);
    if h.found {
      JoinSplit(h.after, c);
      assert Split(s, c)[1..] == Split(h.after, c);
    }
  }

  lemma {:induction false} JoinAcross(front: seq<string>, back: seq<string>, c: char)
    requires front != [] && back != []
    ensures Join(front + back, c) == Join(front, c) + [c] + Join(back, c)
  {
    var all := front + back;
    assert all[1..] == front[1..] + back;
    if |front| > 1 {
      JoinAcross(front[1..], back, c);
    }
  }

  lemma {:induction false} SplitJoin(parts: seq<string>, c: char)
    requires parts != [] && forall i :: 0 <= i < |parts| ==> c !in parts[i]
    ensures Split(Join(parts, c), c) == parts
    decreases |parts|
  {
    if |parts| == 1 {
      CutAt(parts[0], c, "");
    } else {
      SplitJoin(parts[1..], c);
      CutAt(parts[0], c, Join(parts[1..], c));
    }
  }
}
