/**
 * pkg/aliyun/location.go: the edit distance behind "did you mean", with two
 * rows instead of a table, and the choice of the closest region.
 */
module RegionDistance {
  function Min(a: nat, b: nat): nat {
    if a <= b then a else b
  }

  /** The textbook recurrence on last characters. */
  function Distance(a: string, b: string): nat {
    if a == "" then |b|
    else if b == "" then |a|
    else
      var a', b' := a[..|a| - 1], b[..|b| - 1];
      var cost := if a[|a| - 1] == b[|b| - 1] then 0 else 1;
      Min(Min(Distance(a, b') + 1, Distance(a', b) + 1), Distance(a', b') + cost)
  }

  // ------------------------------------------------------------------
  // What the number means: edits, one character at a time, anywhere.

  datatype Edit = Insert(at: nat, c: char) | Delete(at: nat) | Replace(at: nat, c: char)

  predicate Applies(e: Edit, s: string) {
    match e
    case Insert(at, _) => at <= |s|
    case Delete(at) => at < |s|
    case Replace(at, _) => at < |s|
  }

  function Apply(e: Edit, s: string): string
    requires Applies(e, s)
  {
    match e
    case Insert(at, c) => s[..at] + [c] + s[at..]
    case Delete(at) => s[..at] + s[at + 1..]
    case Replace(at, c) => s[..at] + [c] + s[at + 1..]
  }

  /** `edits`, done one after the other, turn a into b. */
  predicate Turns(a: string, edits: seq<Edit>, b: string)
    decreases |edits|
  {
    if edits == [] then a == b
    else Applies(edits[0], a) && Turns(Apply(edits[0], a), edits[1..], b)
  }

  lemma {:induction false} DistanceSelf(a: string)
    ensures Distance(a, a) == 0
  {
    if a != "" {
      DistanceSelf(a[..|a| - 1]);
    }
  }

  lemma {:induction false} DistanceSymmetric(a: string, b: string)
    ensures Distance(a, b) == Distance(b, a)
    decreases |a| + |b|
  {
    if a != "" && b != "" {
      var a', b' := a[..|a| - 1], b[..|b| - 1];
      DistanceSymmetric(a, b');
      DistanceSymmetric(a', b);
      DistanceSymmetric(a', b');
    }
  }

  lemma {:induction false} DistanceToEmpty(a: string, b: string)
    ensures |a| <= Distance(a, b) + |b| && |b| <= Distance(a, b) + |a|
    decreases |a| + |b|
  {
    if a != "" && b != "" {
      var a', b' := a[..|a| - 1], b[..|b| - 1];
      DistanceToEmpty(a, b');
      DistanceToEmpty(a', b);
      DistanceToEmpty(a', b');
    }
  }

  lemma {:induction false} DistanceTriangle(a: string, b: string, c: string)
    ensures Distance(a, c) <= Distance(a, b) + Distance(b, c)
    decreases |a| + |b| + |c|
  {
    if a == "" || c == "" {
      DistanceToEmpty(b, c);
      DistanceToEmpty(a, b);
    } else if b == "" {
      DistanceAtMostLengths(a, c);
    } else {
      var a', b', c' := a[..|a| - 1], b[..|b| - 1], c[..|c| - 1];
      DistanceTriangle(a', b, c);
      DistanceTriangle(a, b, c');
      DistanceTriangle(a, b', c);
      DistanceTriangle(a, b', c');
      DistanceTriangle(a', b', c);
      DistanceTriangle(a', b', c');
    }
  }

  lemma {:induction false} DistanceAtMostLengths(a: string, c: string)
    ensures Distance(a, c) <= |a| + |c|
  {
    if a != "" && c != "" {
      DistanceAtMostLengths(a[..|a| - 1], c);
    }
  }

  /** Distance, one step unfolded. */
  lemma DistanceStep(a: string, b: string)
    requires a != "" && b != ""
    ensures
      var a', b' := a[..|a| - 1], b[..|b| - 1];
      var cost := if a[|a| - 1] == b[|b| - 1] then 0 else 1;
      Distance(a, b) == Min(Min(Distance(a, b') + 1, Distance(a', b) + 1), Distance(a', b') + cost)
  {
  }

  /** A common ending adds nothing. */
  lemma {:induction false} CommonSuffix(a: string, b: string, t: string)
    ensures Distance(a + t, b + t) <= Distance(a, b)
    decreases |t|
  {
    hide Distance;
    if t == "" {
      assert a + t == a && b + t == b;
    } else {
      DistanceStep(a + t, b + t);
      var k := |t| - 1;
      CommonSuffix(a, b, t[..k]);
      assert (a + t)[..|a + t| - 1] == a + t[..k];
      assert (b + t)[..|b + t| - 1] == b + t[..k];
    }
  }

  lemma LastCharIsNear(p: string, x: string, y: string)
    requires |x| <= 1 && |y| <= 1
    ensures Distance(p + x, p + y) <= 1
  {
    DistanceSelf(p);
    if x == "" {
      assert p + x == p;
    } else {
      assert (p + x)[..|p|] == p;
    }
    if y == "" {
      assert p + y == p;
    } else {
      assert (p + y)[..|p|] == p;
    }
  }

  /** One character more, less or changed between a common beginning and a common ending. */
  lemma MiddleIsNear(p: string, x: string, y: string, t: string)
    requires |x| <= 1 && |y| <= 1
    ensures Distance(p + x + t, p + y + t) <= 1
  {
    LastCharIsNear(p, x, y);
    CommonSuffix(p + x, p + y, t);
  }

  lemma OneEditIsNear(e: Edit, s: string)
    requires Applies(e, s)
    ensures Distance(s, Apply(e, s)) <= 1
  {
    hide Distance;
    var p := s[..e.at];
    match e
    case Insert(at, c) =>
      MiddleIsNear(p, "", [c], s[at..]);
      assert s == p + "" + s[at..];
    case Delete(at) =>
      MiddleIsNear(p, [s[at]], "", s[at + 1..]);
      assert s == p + [s[at]] + s[at + 1..];
      assert Apply(e, s) == p + "" + s[at + 1..];
    case Replace(at, c) =>
      MiddleIsNear(p, [s[at]], [c], s[at + 1..]);
      assert s == p + [s[at]] + s[at + 1..];
  }

  /** No list of edits is shorter than the distance. */
  lemma {:induction false} DistanceIsLeast(a: string, edits: seq<Edit>, b: string)
    requires Turns(a, edits, b)
    ensures Distance(a, b) <= |edits|
    decreases |edits|
  {
    if edits == [] {
      DistanceSelf(a);
    } else {
      var a1 := Apply(edits[0], a);
      OneEditIsNear(edits[0], a);
      DistanceIsLeast(a1, edits[1..], b);
      DistanceTriangle(a, a1, b);
    }
  }

  lemma ApplyBeforeSuffix(e: Edit, s: string, t: string)
    requires Applies(e, s)
    ensures Applies(e, s + t) && Apply(e, s + t) == Apply(e, s) + t
  {
    assert (s + t)[..e.at] == s[..e.at];
    assert (s + t)[e.at..] == s[e.at..] + t;
    if !e.Insert? {
      assert (s + t)[e.at + 1..] == s[e.at + 1..] + t;
    }
  }

  /** Edits that happen before a common ending. */
  lemma {:induction false} TurnsBeforeSuffix(a: string, edits: seq<Edit>, b: string, t: string)
    requires Turns(a, edits, b)
    ensures Turns(a + t, edits, b + t)
    decreases |edits|
  {
    if edits != [] {
      var a1 := Apply(edits[0], a);
      ApplyBeforeSuffix(edits[0], a, t);
      TurnsBeforeSuffix(a1, edits[1..], b, t);
    }
  }

  lemma {:induction false} TurnsThen(a: string, edits: seq<Edit>, b: string, e: Edit)
    requires Turns(a, edits, b) && Applies(e, b)
    ensures Turns(a, edits + [e], Apply(e, b))
    decreases |edits|
  {
    if edits == [] {
      assert edits + [e] == [e] && [e][1..] == [];
    } else {
      TurnsThen(Apply(edits[0], a), edits[1..], b, e);
      assert (edits + [e])[1..] == edits[1..] + [e];
    }
  }

  /** And some list of edits is exactly as long as the distance. */
  lemma {:induction false} DistanceIsReached(a: string, b: string) returns (edits: seq<Edit>)
    ensures Turns(a, edits, b) && |edits| == Distance(a, b)
    decreases |a| + |b|
  {
    hide Turns;
    if a == "" && b == "" {
      edits := [];
      NoEdits(a);
    } else if a == "" || (b != "" && Distance(a, b) == Distance(a, b[..|b| - 1]) + 1) {
      edits := DistanceIsReached(a, b[..|b| - 1]);
      edits := AddLast(a, edits, b);
    } else if b == "" || Distance(a, b) == Distance(a[..|a| - 1], b) + 1 {
      edits := DistanceIsReached(a[..|a| - 1], b);
      edits := DropLast(a, edits, b);
    } else {
      edits := DistanceIsReached(a[..|a| - 1], b[..|b| - 1]);
      edits := MatchLast(a, edits, b);
    }
  }

  lemma NoEdits(a: string)
    ensures Turns(a, [], a)
  {
  }

  lemma AddLast(a: string, edits: seq<Edit>, b: string) returns (more: seq<Edit>)
    requires b != "" && Turns(a, edits, b[..|b| - 1])
    ensures Turns(a, more, b) && |more| == |edits| + 1
  {
    var k := |b| - 1;
    more := edits + [Insert(k, b[k])];
    TurnsThen(a, edits, b[..k], Insert(k, b[k]));
    assert Apply(Insert(k, b[k]), b[..k]) == b;
  }

  lemma DropLast(a: string, edits: seq<Edit>, b: string) returns (more: seq<Edit>)
    requires a != "" && Turns(a[..|a| - 1], edits, b)
    ensures Turns(a, more, b) && |more| == |edits| + 1
  {
    var j := |a| - 1;
    more := [Delete(j)] + edits;
    assert Apply(Delete(j), a) == a[..j];
    assert more[1..] == edits;
  }

  lemma MatchLast(a: string, edits: seq<Edit>, b: string) returns (more: seq<Edit>)
    requires a != "" && b != "" && Turns(a[..|a| - 1], edits, b[..|b| - 1])
    ensures Turns(a, more, b) && |more| == |edits| + if a[|a| - 1] == b[|b| - 1] then 0 else 1
  {
    hide Turns;
    var j, k := |a| - 1, |b| - 1;
    TurnsBeforeSuffix(a[..j], edits, b[..k], [a[j]]);
    assert a == a[..j] + [a[j]];
    more := edits;
    if a[j] == b[k] {
      assert b == b[..k] + [a[j]];
    } else {
      TurnsThen(a, edits, b[..k] + [a[j]], Replace(k, b[k]));
      assert Apply(Replace(k, b[k]), b[..k] + [a[j]]) == b;
      more := edits + [Replace(k, b[k])];
    }
  }

  // ------------------------------------------------------------------
  // The code.

  lemma Recurrence(a: string, b: string, i: nat, j: nat)
    requires 1 <= i <= |a| && 1 <= j <= |b|
    ensures
      var cost := if a[i - 1] == b[j - 1] then 0 else 1;
      Distance(a[..i], b[..j]) ==
      Min(Min(Distance(a[..i], b[..j - 1]) + 1, Distance(a[..i - 1], b[..j]) + 1),
          Distance(a[..i - 1], b[..j - 1]) + cost)
  {
    hide Distance;
    assert a[..i][..i - 1] == a[..i - 1] && b[..j][..j - 1] == b[..j - 1];
    DistanceStep(a[..i], b[..j]);
  }

  lemma Edges(a: string, b: string)
    ensures forall k :: 0 <= k <= |b| ==> Distance(a[..0], b[..k]) == k
    ensures forall k :: 0 <= k <= |a| ==> Distance(a[..k], b[..0]) == k
  {
  }

  /** levenshteinDistance */
  method LevenshteinDistance(a: string, b: string) returns (d: nat)
    ensures d == Distance(a, b)
  {
    hide Distance;
    Edges(a, b);
    assert a[..|a|] == a && b[..|b|] == b && a[..0] == b[..0];
    if a == b {
      DistanceSelf(a);
      return 0;
    }
    if |a| == 0 { return |b|; }
    if |b| == 0 { return |a|; }
    var prev, curr := new nat[|b| + 1], new nat[|b| + 1];
    for j := 0 to prev.Length
      invariant forall k :: 0 <= k < j ==> prev[k] == k
    {
      prev[j] := j;
    }
    for i := 1 to |a| + 1
      invariant prev != curr && prev.Length == curr.Length == |b| + 1
      invariant fresh(prev) && fresh(curr)
      invariant forall k :: 0 <= k <= |b| ==> prev[k] == Distance(a[..i - 1], b[..k])
    {
      curr[0] := i;
      for j := 1 to |b| + 1
        invariant forall k :: 0 <= k <= |b| ==> prev[k] == Distance(a[..i - 1], b[..k])
        invariant forall k :: 0 <= k < j ==> curr[k] == Distance(a[..i], b[..k])
      {
        var cost := if a[i - 1] == b[j - 1] then 0 else 1;
        var ins := curr[j - 1] + 1;
        var del := prev[j] + 1;
        var sub := prev[j - 1] + cost;
        curr[j] := ins;
        if del < curr[j] { curr[j] := del; }
        if sub < curr[j] { curr[j] := sub; }
        Recurrence(a, b, i, j);
      }
      prev, curr := curr, prev;
    }
    d := prev[|b|];
  }

  /** closestRegion: the first candidate at the least distance, ignoring case. */
  method ClosestRegion(input: string, candidates: seq<string>, lower: string -> string)
    returns (best: string, bestDistance: int)
    ensures candidates == [] ==> best == "" && bestDistance == -1
    ensures candidates != [] ==>
      exists k ::
        && 0 <= k < |candidates| && best == candidates[k]
        && bestDistance == Distance(lower(input), lower(candidates[k]))
        && (forall j :: 0 <= j < |candidates| ==> bestDistance <= Distance(lower(input), lower(candidates[j])))
        && (forall j :: 0 <= j < k ==> bestDistance < Distance(lower(input), lower(candidates[j])))
  {
    hide Distance;
    best, bestDistance := "", -1;
    ghost var at := 0;
    for i := 0 to |candidates|
      invariant i == 0 ==> best == "" && bestDistance == -1
      invariant i > 0 ==> 0 <= at < i && best == candidates[at]
      invariant i > 0 ==> bestDistance == Distance(lower(input), lower(candidates[at]))
      invariant forall j :: 0 <= j < i ==> bestDistance <= Distance(lower(input), lower(candidates[j]))
      invariant forall j :: 0 <= j < at < |candidates| ==> bestDistance < Distance(lower(input), lower(candidates[j]))
    {
      var d := LevenshteinDistance(lower(input), lower(candidates[i]));
      if bestDistance < 0 || d < bestDistance {
        best, bestDistance, at := candidates[i], d, i;
      }
    }
  }
}
