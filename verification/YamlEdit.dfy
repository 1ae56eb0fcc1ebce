/**
 * internal/specsync/specsync.go: the line editor that adds entries to the YAML
 * specifications, finding its way by two-space indentation alone.
 */
module YamlEdit {
  import opened Common
  import opened Strings

  // ------------------------------------------------------------------
  // Lines, blocks and paths.

  /** lineIndent: the number of leading spaces. */
  function LineIndent(line: string): (n: nat)
    ensures n <= |line|
  {
    if line == "" || line[0] != ' ' then 0 else 1 + LineIndent(line[1..])
  }

  /** lineKey: the text before the first colon, without a list dash; empty when there is none. */
  function LineKey(line: string): string {
    var all := TrimSpace(line);
    var trimmed := if all != "" && all[0] == '-' then TrimSpace(all[1..]) else all;
    var index := IndexByte(trimmed, ':');
    if index <= 0 then "" else TrimSpace(trimmed[..index])
  }

  type Lines = seq<string>

  /** The first line from `from` on that is not deeper than `indent`. */
  function EndFrom(lines: Lines, indent: nat, from: nat): (end: nat)
    requires from <= |lines|
    ensures from <= end <= |lines|
    ensures forall j :: from <= j < end ==> LineIndent(lines[j]) > indent
    ensures end < |lines| ==> LineIndent(lines[end]) <= indent
    decreases |lines| - from
  {
    if from == |lines| || LineIndent(lines[from]) <= indent then from else EndFrom(lines, indent, from + 1)
  }

  /** The end of the block of a line; the document itself is the block of line -1. */
  function End(lines: Lines, block: int): (end: nat)
    requires -1 <= block < |lines|
    ensures block < end <= |lines|
  {
    if block < 0 then |lines| else EndFrom(lines, LineIndent(lines[block]), block + 1)
  }

  predicate Matches(lines: Lines, i: int, indent: nat, key: string) {
    0 <= i < |lines| && LineIndent(lines[i]) == indent && LineKey(lines[i]) == key
  }

  function First(lines: Lines, from: nat, stop: nat, indent: nat, key: string): (r: Option<int>)
    requires from <= stop <= |lines|
    ensures r.Some? ==> from <= r.value < stop && Matches(lines, r.value, indent, key)
    ensures forall j :: from <= j < (if r.Some? then r.value else stop) ==> !Matches(lines, j, indent, key)
    decreases stop - from
  {
    if from == stop then None
    else if Matches(lines, from, indent, key) then Some(from)
    else First(lines, from + 1, stop, indent, key)
  }

  /** The line that a path of keys leads to; each key is sought in the block of the one before. */
  function Resolve(lines: Lines, keys: seq<string>): (r: Option<int>)
    ensures r.Some? ==> -1 <= r.value < |lines| && (keys == [] <==> r.value == -1)
    ensures r.Some? && keys != [] ==> LineIndent(lines[r.value]) == 2 * (|keys| - 1)
    decreases |keys|
  {
    if keys == [] then Some(-1)
    else
      var n := |keys| - 1;
      match Resolve(lines, keys[..n])
      case None => None
      case Some(block) => First(lines, block + 1, End(lines, block), 2 * n, keys[n])
  }

  lemma ResolveStep(lines: Lines, keys: seq<string>)
    requires keys != []
    ensures
      var n := |keys| - 1;
      Resolve(lines, keys) ==
      match Resolve(lines, keys[..n])
      case None => None
      case Some(block) => First(lines, block + 1, End(lines, block), 2 * n, keys[n])
  {
    hide First, End, Matches, LineIndent, LineKey;
  }

  /** The same for a path with one more key. */
  lemma ChildStep(lines: Lines, path: seq<string>, key: string)
    ensures
      Resolve(lines, path + [key]) ==
      match Resolve(lines, path)
      case None => None
      case Some(block) => First(lines, block + 1, End(lines, block), 2 * |path|, key)
  {
    hide *;
    var keys := path + [key];
    assert keys[..|keys| - 1] == path && keys[|keys| - 1] == key && |keys| - 1 == |path|;
    ResolveStep(lines, keys);
  }

  function Insert(lines: Lines, at: nat, added: Lines): Lines
    requires at <= |lines|
  {
    lines[..at] + added + lines[at..]
  }

  // ------------------------------------------------------------------
  // What an insertion leaves as it was.

  function Shift(i: int, at: nat, count: nat): int {
    if i < at then i else i + count
  }

  /**
   * The added lines are one entry at depth `n`: its first line at that depth,
   * the others deeper.  They go into, or to the end of, the block of a line of
   * the depth before, where no deeper line follows them.
   */
  predicate Entry(added: Lines, n: nat) {
    added != [] && LineIndent(added[0]) == 2 * n && forall k :: 0 < k < |added| ==> LineIndent(added[k]) > 2 * n
  }

  predicate Place(lines: Lines, block: int, at: nat, n: nat) {
    && n > 0 && 0 <= block < at <= |lines| && LineIndent(lines[block]) == 2 * (n - 1)
    && at <= End(lines, block) && (at < |lines| ==> LineIndent(lines[at]) <= 2 * n)
  }

  predicate Absent(lines: Lines, block: int, n: nat, key: string)
    requires 0 <= block < |lines|
  {
    First(lines, block + 1, End(lines, block), 2 * n, key) == None
  }

  ghost predicate Goes(lines: Lines, block: int, at: nat, n: nat, added: Lines) {
    Place(lines, block, at, n) && Entry(added, n) && Absent(lines, block, n, LineKey(added[0]))
  }

  lemma InsertedLines(lines: Lines, at: nat, added: Lines)
    requires at <= |lines|
    ensures
      var after := Insert(lines, at, added);
      && |after| == |lines| + |added|
      && (forall i :: 0 <= i < |lines| ==> after[Shift(i, at, |added|)] == lines[i])
      && (forall k :: 0 <= k < |added| ==> after[at + k] == added[k])
  {}

  lemma EndIs(lines: Lines, block: int, end: int)
    requires -1 <= block < end <= |lines|
    requires block >= 0 ==> forall j :: block < j < end ==> LineIndent(lines[j]) > LineIndent(lines[block])
    requires if block < 0 then end == |lines| else end < |lines| ==> LineIndent(lines[end]) <= LineIndent(lines[block])
    ensures End(lines, block) == end
  {
    hide LineIndent, EndFrom;
  }

  /** An old block keeps its lines; it takes the added ones in if they are inside, or deeper at its end. */
  lemma EndShifts(lines: Lines, b: int, block: int, at: nat, n: nat, added: Lines)
    requires Place(lines, block, at, n) && Entry(added, n) && -1 <= b < |lines|
    ensures
      var after, end := Insert(lines, at, added), End(lines, b);
      var takes := b < at < end || (at == end && (b < 0 || LineIndent(lines[b]) < 2 * n));
      End(after, Shift(b, at, |added|)) == if takes || b >= at then end + |added| else end
  {
    hide LineIndent, EndFrom;
    InsertedLines(lines, at, added);
    var after, end, m := Insert(lines, at, added), End(lines, b), |added|;
    var b' := Shift(b, at, m);
    var takes := b < at < end || (at == end && (b < 0 || LineIndent(lines[b]) < 2 * n));
    var end' := if takes || b >= at then end + m else end;
    if b >= 0 {
      forall j | b' < j < end'
        ensures LineIndent(after[j]) > LineIndent(after[b'])
      {
        if j < at {
          assert after[j] == lines[j];
        } else if j < at + m {
          assert after[j] == added[j - at];
        } else {
          assert after[j] == lines[j - m];
        }
      }
      if end' < |after| {
        if end' == at && !takes && b < at {
          assert after[end'] == added[0];
        } else {
          assert after[end'] == lines[end];
        }
      }
    }
    EndIs(after, b', end');
  }

  lemma FirstIs(lines: Lines, from: nat, stop: nat, indent: nat, key: string, r: Option<int>)
    requires from <= stop <= |lines|
    requires r.Some? ==> from <= r.value < stop && Matches(lines, r.value, indent, key)
    requires forall j :: from <= j < (if r.Some? then r.value else stop) ==> !Matches(lines, j, indent, key)
    ensures First(lines, from, stop, indent, key) == r
  {
    hide Matches;
  }

  /** Of the added lines only the first one is ever sought, and only in the block it was added to. */
  lemma AddedMatchesOnlyHere(lines: Lines, b: int, d: nat, key: string,
                             block: int, at: nat, n: nat, added: Lines, k: nat)
    requires Place(lines, block, at, n) && Entry(added, n) && k < |added|
    requires -1 <= b < at <= End(lines, b) && (if b < 0 then d == 0 else d > 0 && LineIndent(lines[b]) == 2 * (d - 1))
    requires at == End(lines, b) ==> b < 0 || LineIndent(lines[b]) < 2 * n
    requires Matches(added, k, 2 * d, key)
    ensures k == 0 && d == n && b == block && key == LineKey(added[0])
  {
    hide LineIndent, LineKey;
    assert 0 <= b && at < End(lines, b) ==> LineIndent(lines[at]) > LineIndent(lines[b]);
  }

  /** An inserted document matches where the old lines and the added ones did. */
  lemma MatchesShift(lines: Lines, at: nat, added: Lines, j: int, indent: nat, key: string)
    requires at <= |lines| && 0 <= j < |lines| + |added|
    ensures Matches(Insert(lines, at, added), j, indent, key) <==>
            if j < at then Matches(lines, j, indent, key)
            else if j < at + |added| then Matches(added, j - at, indent, key)
            else Matches(lines, j - |added|, indent, key)
  {
    hide LineIndent, LineKey;
  }

  /** One step of a path that led on leads to the same line. */
  lemma FirstStays(lines: Lines, b: int, d: nat, key: string, block: int, at: nat, n: nat, added: Lines)
    requires Goes(lines, block, at, n, added)
    requires -1 <= b < |lines| && (if b < 0 then d == 0 else d > 0 && LineIndent(lines[b]) == 2 * (d - 1))
    ensures
      var after, b' := Insert(lines, at, added), Shift(b, at, |added|);
      var r := First(lines, b + 1, End(lines, b), 2 * d, key);
      && -1 <= b' < |after|
      && (r.Some? ==> First(after, b' + 1, End(after, b'), 2 * d, key) == Some(Shift(r.value, at, |added|)))
  {
    hide LineIndent, LineKey, EndFrom, End, Place, Entry, Absent, Insert, Matches, First, Goes;
    GoesParts(lines, block, at, n, added);
    PlaceFits(lines, block, at, n);
    InsertedLength(lines, at, added);
    EndShifts(lines, b, block, at, n, added);
    var after, b', m := Insert(lines, at, added), Shift(b, at, |added|), |added|;
    var r := First(lines, b + 1, End(lines, b), 2 * d, key);
    if r == None { return; }
    var i := r.value;
    forall j | b' < j < Shift(i, at, m)
      ensures !Matches(after, j, 2 * d, key)
    {
      MatchesShift(lines, at, added, j, 2 * d, key);
      if at <= j < at + m && Matches(added, j - at, 2 * d, key) {
        AddedMatchesOnlyHere(lines, b, d, key, block, at, n, added, j - at);
        AbsentIs(lines, block, n, key);
        assert false;
      }
    }
    MatchesShift(lines, at, added, Shift(i, at, m), 2 * d, key);
    FirstIs(after, b' + 1, End(after, b'), 2 * d, key, Some(Shift(i, at, m)));
  }

  /** One step of a path that led nowhere leads at most to the added entry. */
  lemma FirstAppears(lines: Lines, b: int, d: nat, key: string, block: int, at: nat, n: nat, added: Lines)
    requires Goes(lines, block, at, n, added)
    requires -1 <= b < |lines| && (if b < 0 then d == 0 else d > 0 && LineIndent(lines[b]) == 2 * (d - 1))
    requires First(lines, b + 1, End(lines, b), 2 * d, key) == None
    ensures
      var after, b' := Insert(lines, at, added), Shift(b, at, |added|);
      var r' := First(after, b' + 1, End(after, b'), 2 * d, key);
      r' == None || (r' == Some(at) && d == n && b == block && key == LineKey(added[0]))
  {
    hide LineIndent, LineKey, EndFrom, End, Place, Entry, Absent, Insert, Matches, First, Goes;
    GoesParts(lines, block, at, n, added);
    PlaceFits(lines, block, at, n);
    InsertedLength(lines, at, added);
    EndShifts(lines, b, block, at, n, added);
    var after, b', m := Insert(lines, at, added), Shift(b, at, |added|), |added|;
    var r' := First(after, b' + 1, End(after, b'), 2 * d, key);
    if r'.Some? {
      MatchesShift(lines, at, added, r'.value, 2 * d, key);
      AddedMatchesOnlyHere(lines, b, d, key, block, at, n, added, r'.value - at);
    }
  }

  lemma AbsentIs(lines: Lines, block: int, n: nat, key: string)
    requires 0 <= block < |lines|
    ensures Absent(lines, block, n, key) <==> First(lines, block + 1, End(lines, block), 2 * n, key) == None
  {}

  lemma InsertedLength(lines: Lines, at: nat, added: Lines)
    requires at <= |lines|
    ensures |Insert(lines, at, added)| == |lines| + |added|
  {}

  lemma GoesParts(lines: Lines, block: int, at: nat, n: nat, added: Lines)
    requires Goes(lines, block, at, n, added)
    ensures Place(lines, block, at, n) && Entry(added, n) && Absent(lines, block, n, LineKey(added[0]))
    ensures added != [] && at <= |lines|
  {}

  lemma PlaceFits(lines: Lines, block: int, at: nat, n: nat)
    requires Place(lines, block, at, n)
    ensures at <= |lines| && 0 <= block < |lines|
  {}

  lemma PathsEndInAdded(lines: Lines, block: int, at: nat, n: nat, added: Lines, b: int)
    requires Goes(lines, block, at, n, added) && at <= b < at + |added|
    ensures End(Insert(lines, at, added), b) <= at + |added|
  {
    hide LineIndent, EndFrom, Absent;
    InsertedLines(lines, at, added);
    var after := Insert(lines, at, added);
    assert after[b] == added[b - at];
    if at < |lines| {
      assert after[Shift(at, at, |added|)] == lines[at];
    }
  }

  lemma SameBlock(lines: Lines, a: int, b: int, i: int)
    requires -1 <= a < i < |lines| && -1 <= b < i && i < End(lines, a) && i < End(lines, b)
    requires if a < 0 then b < 0 else b >= 0 && LineIndent(lines[a]) == LineIndent(lines[b])
    ensures a == b
  {
    hide LineIndent, EndFrom;
  }

  /** Only one path leads to a line. */
  lemma {:induction false} PathsAreUnique(lines: Lines, keys: seq<string>, others: seq<string>)
    requires Resolve(lines, keys).Some? && Resolve(lines, others) == Resolve(lines, keys)
    ensures keys == others
    decreases |keys|
  {
    hide LineIndent, First, Resolve, End, LineKey;
    if keys == [] {
    } else {
      assert LineIndent(lines[Resolve(lines, keys).value]) == 2 * (|keys| - 1) == 2 * (|others| - 1);
      ResolveStep(lines, keys);
      ResolveStep(lines, others);
      var n := |keys| - 1;
      var a, b := Resolve(lines, keys[..n]).value, Resolve(lines, others[..n]).value;
      SameBlock(lines, a, b, Resolve(lines, keys).value);
      PathsAreUnique(lines, keys[..n], others[..n]);
      assert keys[n] == LineKey(lines[Resolve(lines, keys).value]) == others[n];
      assert keys == keys[..n] + [keys[n]] && others == others[..n] + [others[n]];
    }
  }

  lemma ResolveNothing(lines: Lines)
    ensures Resolve(lines, []) == Some(-1)
  {}

  /** What becomes of a path: it leads to the same line, or if it led nowhere, nowhere or through the new entry. */
  predicate KeepsPath(before: Lines, after: Lines, entry: seq<string>, at: nat, count: nat, keys: seq<string>) {
    match Resolve(before, keys)
    case Some(i) => Resolve(after, keys) == Some(Shift(i, at, count))
    case None => Resolve(after, keys).Some? ==> entry <= keys && at <= Resolve(after, keys).value < at + count
  }

  /** The parent of a path that goes on from an old line, before and after. */
  ghost predicate Parent(lines: Lines, at: nat, added: Lines, keys: seq<string>, b: int)
    requires keys != [] && at <= |lines|
  {
    var d := |keys| - 1;
    && -1 <= b < |lines| && (if b < 0 then d == 0 else d > 0 && LineIndent(lines[b]) == 2 * (d - 1))
    && Resolve(lines, keys) == First(lines, b + 1, End(lines, b), 2 * d, keys[d])
    && var after, b' := Insert(lines, at, added), Shift(b, at, |added|);
       b' < |after| && Resolve(after, keys) == First(after, b' + 1, End(after, b'), 2 * d, keys[d])
  }

  lemma ParentIs(lines: Lines, entry: seq<string>, at: nat, added: Lines, keys: seq<string>)
    requires keys != [] && at <= |lines| && Resolve(lines, keys[..|keys| - 1]).Some?
    requires KeepsPath(lines, Insert(lines, at, added), entry, at, |added|, keys[..|keys| - 1])
    ensures Parent(lines, at, added, keys, Resolve(lines, keys[..|keys| - 1]).value)
  {
    hide LineIndent, LineKey, End, First, Insert, Resolve, Matches;
    InsertedLength(lines, at, added);
    ResolveStep(lines, keys);
    ResolveStep(Insert(lines, at, added), keys);
    assert |keys[..|keys| - 1]| == |keys| - 1;
  }

  lemma OldStep(lines: Lines, path: seq<string>, block: int, at: nat, added: Lines, keys: seq<string>)
    requires Resolve(lines, path) == Some(block) && Goes(lines, block, at, |path|, added) && keys != []
    ensures
      var after, entry, parent := Insert(lines, at, added), path + [LineKey(added[0])], keys[..|keys| - 1];
      Resolve(lines, parent).Some? && KeepsPath(lines, after, entry, at, |added|, parent) ==>
        KeepsPath(lines, after, entry, at, |added|, keys)
  {
    hide LineIndent, LineKey, End, Place, Entry, Absent, First, Insert, Resolve, Goes, Matches, Parent;
    var parent := keys[..|keys| - 1];
    GoesParts(lines, block, at, |path|, added);
    if Resolve(lines, parent) == None
       || !KeepsPath(lines, Insert(lines, at, added), path + [LineKey(added[0])], at, |added|, parent) {
      return;
    }
    var b := Resolve(lines, parent).value;
    ParentIs(lines, path + [LineKey(added[0])], at, added, keys);
    if Resolve(lines, keys).Some? {
      OldStays(lines, path, block, at, added, keys, b);
    } else {
      OldAppears(lines, path, block, at, added, keys, b);
      EntryIsPrefix(lines, path, keys, b, block, LineKey(added[0]));
    }
  }

  lemma OldStays(lines: Lines, path: seq<string>, block: int, at: nat, added: Lines, keys: seq<string>, b: int)
    requires Goes(lines, block, at, |path|, added) && keys != [] && at <= |lines|
    requires Parent(lines, at, added, keys, b) && Resolve(lines, keys).Some?
    ensures Resolve(Insert(lines, at, added), keys) == Some(Shift(Resolve(lines, keys).value, at, |added|))
  {
    hide LineIndent, LineKey, End, First, Insert, Resolve, Goes, Matches;
    FirstStays(lines, b, |keys| - 1, keys[|keys| - 1], block, at, |path|, added);
  }

  lemma OldAppears(lines: Lines, path: seq<string>, block: int, at: nat, added: Lines, keys: seq<string>, b: int)
    requires Goes(lines, block, at, |path|, added) && keys != [] && at <= |lines| && added != []
    requires Parent(lines, at, added, keys, b) && Resolve(lines, keys) == None
    ensures
      var r := Resolve(Insert(lines, at, added), keys);
      r == None || (r == Some(at) && b == block && keys[|keys| - 1] == LineKey(added[0]))
  {
    hide LineIndent, LineKey, End, First, Insert, Resolve, Goes, Matches;
    FirstAppears(lines, b, |keys| - 1, keys[|keys| - 1], block, at, |path|, added);
  }

  lemma EntryIsPrefix(lines: Lines, path: seq<string>, keys: seq<string>, b: int, block: int, key: string)
    requires Resolve(lines, path) == Some(block) && keys != [] && Resolve(lines, keys[..|keys| - 1]) == Some(b)
    ensures b == block && keys[|keys| - 1] == key ==> path + [key] == keys
  {
    hide Resolve, LineKey, LineIndent, Matches;
    if b == block { PathsAreUnique(lines, path, keys[..|keys| - 1]); }
    assert keys == keys[..|keys| - 1] + [keys[|keys| - 1]];
  }

  lemma NewStep(lines: Lines, path: seq<string>, block: int, at: nat, added: Lines, keys: seq<string>)
    requires Goes(lines, block, at, |path|, added) && keys != []
    requires Resolve(lines, keys[..|keys| - 1]) == None
    requires KeepsPath(lines, Insert(lines, at, added), path + [LineKey(added[0])], at, |added|, keys[..|keys| - 1])
    ensures KeepsPath(lines, Insert(lines, at, added), path + [LineKey(added[0])], at, |added|, keys)
  {
    hide LineIndent, LineKey, End, Place, Entry, Absent, First, Insert, Resolve, Goes, Matches;
    GoesParts(lines, block, at, |path|, added);
    PlaceFits(lines, block, at, |path|);
    ResolveStep(lines, keys);
    ResolveStep(Insert(lines, at, added), keys);
    var r' := Resolve(Insert(lines, at, added), keys[..|keys| - 1]);
    if r'.Some? { PathsEndInAdded(lines, block, at, |path|, added, r'.value); }
  }

  /** Adding an entry keeps every path there was, and adds only those through the entry. */
  lemma {:induction false} InsertKeepsPaths(lines: Lines, path: seq<string>, block: int, at: nat, added: Lines,
                                            keys: seq<string>)
    requires Resolve(lines, path) == Some(block) && Goes(lines, block, at, |path|, added)
    ensures KeepsPath(lines, Insert(lines, at, added), path + [LineKey(added[0])], at, |added|, keys)
    decreases |keys|
  {
    hide LineIndent, LineKey, End, First, Insert, Resolve, Matches;
    if keys == [] {
      ResolveNothing(lines);
      ResolveNothing(Insert(lines, at, added));
    } else {
      InsertKeepsPaths(lines, path, block, at, added, keys[..|keys| - 1]);
      if Resolve(lines, keys[..|keys| - 1]).Some? {
        OldStep(lines, path, block, at, added, keys);
      } else {
        NewStep(lines, path, block, at, added, keys);
      }
    }
  }

  /** The added entry is found under the path of its block. */
  lemma InsertedResolves(lines: Lines, at: nat, added: Lines, keys: seq<string>, block: int)
    requires Resolve(lines, keys) == Some(block) && Goes(lines, block, at, |keys|, added)
    ensures Resolve(Insert(lines, at, added), keys + [LineKey(added[0])]) == Some(at)
  {
    hide LineIndent, LineKey, End, Matches, Insert, First, Resolve;
    InsertKeepsPaths(lines, keys, block, at, added, keys);
    FirstFindsAdded(lines, block, at, |keys|, added);
    ChildStep(Insert(lines, at, added), keys, LineKey(added[0]));
  }

  lemma FirstFindsAdded(lines: Lines, block: int, at: nat, n: nat, added: Lines)
    requires Goes(lines, block, at, n, added)
    ensures
      var after := Insert(lines, at, added);
      && block < |after|
      && First(after, block + 1, End(after, block), 2 * n, LineKey(added[0])) == Some(at)
  {
    hide LineIndent, LineKey, EndFrom, Matches, Insert, First, End;
    var after, key := Insert(lines, at, added), LineKey(added[0]);
    InsertedLength(lines, at, added);
    EndShifts(lines, block, block, at, n, added);
    forall j | block < j < at
      ensures !Matches(after, j, 2 * n, key)
    {
      MatchesShift(lines, at, added, j, 2 * n, key);
    }
    MatchesShift(lines, at, added, at, 2 * n, key);
    FirstMatches(added, n);
    FirstIs(after, block + 1, End(after, block), 2 * n, key, Some(at));
  }

  lemma FirstMatches(added: Lines, n: nat)
    requires Entry(added, n)
    ensures Matches(added, 0, 2 * n, LineKey(added[0]))
  {}

  // ------------------------------------------------------------------
  // The lines that are added.

  function Pad(indent: nat): string {
    seq(indent, _ => ' ')
  }

  /** A key as the specifications have them: no colon, no leading dash, no space around it. */
  predicate GoodKey(name: string) {
    name != "" && name[0] != '-' && ':' !in name && !IsSpace(name[0]) && !IsSpace(name[|name| - 1])
  }

  lemma {:induction false} PadTrims(indent: nat, text: string)
    requires text != "" && !IsSpace(text[0])
    ensures TrimSpace(Pad(indent) + text) == TrimSpace(text) && LineIndent(Pad(indent) + text) == indent
    decreases indent
  {
    var line := Pad(indent) + text;
    if indent == 0 {
      assert line == text;
      assert IsSpace(' ');
    } else {
      assert line[1..] == Pad(indent - 1) + text;
      PadTrims(indent - 1, text);
    }
  }

  lemma KeyOf(name: string, rest: string)
    requires GoodKey(name)
    ensures LineKey(name + ":" + rest) == name
    ensures TrimSpace(" " + (name + ":")) == name + ":"
  {
    hide IsSpace, TrimSpace;
    assert !IsSpace(':') && IsSpace(' ') by { ColonIsNoSpace(); }
    var cut := TrimKeepsFront(name + ":" + rest, |name|);
    var all := (name + ":" + rest)[..cut];
    var index := IndexByte(all, ':');
    assert all[|name|] == ':' && all[..|name|] == name;
    assert index == |name| by {
      assert forall i :: 0 <= i < |name| ==> all[i] == name[i] != ':';
      assert forall i :: 0 <= i < index ==> all[i] == all[..index][i] != ':';
    }
    TrimKeeps(name);
    SpaceTrims(name + ":");
    TrimKeeps(name + ":");
  }

  lemma SpaceTrims(text: string)
    ensures TrimSpace(" " + text) == TrimSpace(text)
  {
    assert (" " + text)[1..] == text;
  }

  lemma ColonIsNoSpace()
    ensures !IsSpace(':') && !IsSpace('-') && IsSpace(' ')
  {}

  /** A line built for a key has its indentation and its key. */
  lemma BuiltLine(indent: nat, name: string, rest: string)
    requires GoodKey(name)
    ensures LineIndent(Pad(indent) + name + ":" + rest) == indent && LineKey(Pad(indent) + name + ":" + rest) == name
  {
    hide IsSpace, TrimSpace, LineIndent;
    assert Pad(indent) + name + ":" + rest == Pad(indent) + (name + ":" + rest);
    PadTrims(indent, name + ":" + rest);
    KeyOf(name, rest);
  }

  lemma BuiltItem(indent: nat, name: string)
    requires GoodKey(name)
    ensures LineIndent(Pad(indent) + "- " + name + ":") == indent && LineKey(Pad(indent) + "- " + name + ":") == name
  {
    hide IsSpace, TrimSpace, LineIndent;
    ColonIsNoSpace();
    var text := "- " + name + ":";
    assert Pad(indent) + "- " + name + ":" == Pad(indent) + text;
    PadTrims(indent, text);
    TrimKeeps(text);
    assert text[1..] == " " + (name + ":");
    KeyOf(name, "");
    assert name + ":" + "" == name + ":";
    TrimKeeps(name + ":");
  }

  datatype Kind = ScalarKind | ArrayKind | ObjectKind | UnknownKind

  /** mapOpenAPIType */
  function MapOpenApiType(apiType: string): (string, Kind) {
    match ToLower(TrimSpace(apiType))
    case "string" => ("string", ScalarKind)
    case "integer" => ("integer", ScalarKind)
    case "long" => ("integer", ScalarKind)
    case "float" => ("number", ScalarKind)
    case "double" => ("number", ScalarKind)
    case "boolean" => ("boolean", ScalarKind)
    case "repeatlist" => ("array", ArrayKind)
    case "struct" => ("object", ObjectKind)
    case _ => ("", UnknownKind)
  }

  function DoubleQuotes(s: string): string {
    if s == "" then "" else (if s[0] == '\'' then "''" else [s[0]]) + DoubleQuotes(s[1..])
  }

  /** buildSchemaFieldLines, for a description already collapsed to one line. */
  function SchemaFieldLines(indent: nat, fieldName: string, apiType: string, description: string): Lines {
    var (tipe, kind) := MapOpenApiType(apiType);
    var child := Pad(indent + 2);
    [Pad(indent) + fieldName + ":" + "", child + "type" + ":" + (" " + tipe)]
    + (if description != "" then [child + "description" + ":" + (" '" + DoubleQuotes(description) + "'")] else [])
    + (if kind.ArrayKind? then [child + "items" + ":" + "", Pad(indent + 4) + "type" + ":" + " string"] else [])
  }

  /** buildRequestMappingLines */
  function RequestMappingLines(indent: nat, apiName: string, fieldName: string, apiType: string): Lines {
    match MapOpenApiType(apiType).1
    case ArrayKind => [Pad(indent) + apiName + ":" + "", Pad(indent + 2) + "each" + ":" + (" $." + fieldName)]
    case ObjectKind => [Pad(indent) + apiName + ":" + "", Pad(indent + 2) + "from" + ":" + (" $." + fieldName)]
    case _ => [Pad(indent) + apiName + ":" + (" $." + fieldName)]
  }

  function OperationFieldLines(indent: nat, fieldName: string): Lines {
    [Pad(indent) + "- " + fieldName + ":", Pad(indent + 4) + "brief" + ":" + " false"]
  }

  lemma BuiltSchemaField(n: nat, name: string, apiType: string, description: string)
    requires GoodKey(name)
    ensures
      var added := SchemaFieldLines(2 * n, name, apiType, description);
      Entry(added, n) && LineKey(added[0]) == name
  {
    hide TrimSpace, LineIndent, LineKey, DoubleQuotes, MapOpenApiType, IsSpace, GoodKey;
    WordsAreGood();
    BuiltLine(2 * n, name, "");
    BuiltLine(2 * n + 2, "type", " " + MapOpenApiType(apiType).0);
    BuiltLine(2 * n + 2, "description", " '" + DoubleQuotes(description) + "'");
    BuiltLine(2 * n + 2, "items", "");
    BuiltLine(2 * n + 4, "type", " string");
  }

  lemma BuiltRequestMapping(n: nat, apiName: string, name: string, apiType: string)
    requires GoodKey(apiName)
    ensures
      var added := RequestMappingLines(2 * n, apiName, name, apiType);
      Entry(added, n) && LineKey(added[0]) == apiName
  {
    hide TrimSpace, LineIndent, LineKey, MapOpenApiType, IsSpace, GoodKey;
    WordsAreGood();
    BuiltLine(2 * n, apiName, "");
    BuiltLine(2 * n, apiName, " $." + name);
    BuiltLine(2 * n + 2, "each", " $." + name);
    BuiltLine(2 * n + 2, "from", " $." + name);
  }

  lemma BuiltOperationField(n: nat, name: string)
    requires GoodKey(name)
    ensures
      var added := OperationFieldLines(2 * n, name);
      Entry(added, n) && LineKey(added[0]) == name
  {
    hide TrimSpace, LineIndent, LineKey, IsSpace, GoodKey;
    WordsAreGood();
    BuiltItem(2 * n, name);
    BuiltLine(2 * n + 4, "brief", " false");
  }

  // ------------------------------------------------------------------
  // What a reader of YAML finds in the built lines.

  /** The text behind the first colon of a line. */
  function LineValue(line: string): string {
    TrimSpace(line[IndexByte(line, ':') + 1..])
  }

  /** The text of a single-quoted scalar, from behind its first quote: two quotes stand for one, and one ends it. */
  function Unquoted(s: string): Option<string> {
    if s == "" || s == "'" then (if s == "" then None else Some(""))
    else if s[0] != '\'' then
      match Unquoted(s[1..]) case None => None case Some(rest) => Some([s[0]] + rest)
    else if s[1] != '\'' then None
    else
      match Unquoted(s[2..]) case None => None case Some(rest) => Some("'" + rest)
  }

  /** The line is a key of that indentation with that value. */
  predicate Reads(line: string, indent: nat, key: string, value: string) {
    LineIndent(line) == indent && LineKey(line) == key && LineValue(line) == value
  }

  lemma PairUndone(rest: string)
    ensures Unquoted("''" + rest) == match Unquoted(rest) case None => None case Some(text) => Some("'" + text)
  {
    assert ("''" + rest)[2..] == rest;
  }

  lemma {:induction false} QuotesUndone(s: string)
    ensures Unquoted(DoubleQuotes(s) + "'") == Some(s)
  {
    if s == "" {
      assert DoubleQuotes(s) + "'" == "'";
    } else {
      QuotesUndone(s[1..]);
      var rest := DoubleQuotes(s[1..]) + "'";
      assert s == [s[0]] + s[1..];
      if s[0] == '\'' {
        assert DoubleQuotes(s) + "'" == "''" + rest;
        PairUndone(rest);
      } else {
        assert DoubleQuotes(s) + "'" == [s[0]] + rest && ([s[0]] + rest)[1..] == rest;
      }
    }
  }

  lemma BuiltReads(indent: nat, name: string, rest: string)
    requires GoodKey(name)
    ensures Reads(Pad(indent) + name + ":" + rest, indent, name, TrimSpace(rest))
  {
    hide LineIndent, LineKey, TrimSpace, IsSpace;
    BuiltLine(indent, name, rest);
    var line := Pad(indent) + name + ":" + rest;
    var at := indent + |name|;
    assert line[at] == ':' && line[at + 1..] == rest && forall i :: 0 <= i < at ==> line[i] != ':';
    assert forall k :: at < k <= |line| ==> line[..k][at] == ':';
    assert IndexByte(line, ':') == at;
  }

  lemma QuotedValue(description: string)
    ensures
      var value := TrimSpace(" '" + DoubleQuotes(description) + "'");
      value != "" && value[0] == '\'' && Unquoted(value[1..]) == Some(description)
  {
    hide TrimSpace;
    var quoted := "'" + (DoubleQuotes(description) + "'");
    assert " '" + DoubleQuotes(description) + "'" == " " + quoted;
    SpaceTrims(quoted);
    TrimKeeps(quoted);
    assert quoted[1..] == DoubleQuotes(description) + "'";
    QuotesUndone(description);
  }

  /**
   * What the built field says: its type in the words of the specifications, the
   * description that a reader gets back whatever quotes are in it, and for a
   * list that its items are strings; and no more.
   */
  lemma SchemaFieldReads(n: nat, name: string, apiType: string, description: string)
    requires GoodKey(name)
    ensures
      var added, given := SchemaFieldLines(2 * n, name, apiType, description), ToLower(TrimSpace(apiType));
      var described, listed := if description != "" then 1 else 0, if given == "repeatlist" then 2 else 0;
      var tipe :=
        if given in {"string", "boolean"} then given
        else if given in {"integer", "long"} then "integer"
        else if given in {"float", "double"} then "number"
        else if given == "repeatlist" then "array"
        else if given == "struct" then "object"
        else "";
      && |added| == 2 + described + listed
      && Reads(added[0], 2 * n, name, "") && Reads(added[1], 2 * n + 2, "type", tipe)
      && (description != "" ==>
            && LineIndent(added[2]) == 2 * n + 2 && LineKey(added[2]) == "description"
            && LineValue(added[2]) != "" && LineValue(added[2])[0] == '\''
            && Unquoted(LineValue(added[2])[1..]) == Some(description))
      && (given == "repeatlist" ==>
            && Reads(added[2 + described], 2 * n + 2, "items", "")
            && Reads(added[3 + described], 2 * n + 4, "type", "string"))
  {
    hide LineIndent, LineKey, LineValue, DoubleQuotes, GoodKey, Pad, ToLower, IsSpace;
    WordsAreGood();
    TypeWords();
    BuiltReads(2 * n, name, "");
    BuiltReads(2 * n + 2, "type", " " + MapOpenApiType(apiType).0);
    BuiltReads(2 * n + 2, "description", " '" + DoubleQuotes(description) + "'");
    BuiltReads(2 * n + 2, "items", "");
    BuiltReads(2 * n + 4, "type", " string");
    QuotedValue(description);
    SpaceTrims(MapOpenApiType(apiType).0);
    SpaceTrims("string");
  }

  lemma TypeWords()
    ensures TrimSpace("") == "" && TrimSpace("string") == "string" && TrimSpace("boolean") == "boolean"
    ensures TrimSpace("integer") == "integer" && TrimSpace("number") == "number"
    ensures TrimSpace("array") == "array" && TrimSpace("object") == "object" && TrimSpace("false") == "false"
  {
    TrimKeeps("string");
    TrimKeeps("boolean");
    TrimKeeps("integer");
    TrimKeeps("number");
    TrimKeeps("array");
    TrimKeeps("object");
    TrimKeeps("false");
  }

  /** A list is mapped item by item, an object from the field, anything else by the field itself. */
  lemma RequestMappingReads(n: nat, apiName: string, name: string, apiType: string)
    requires GoodKey(apiName)
    ensures
      var added, given := RequestMappingLines(2 * n, apiName, name, apiType), ToLower(TrimSpace(apiType));
      var source := TrimSpace("$." + name);
      if given == "repeatlist" || given == "struct" then
        && |added| == 2 && Reads(added[0], 2 * n, apiName, "")
        && Reads(added[1], 2 * n + 2, if given == "struct" then "from" else "each", source)
      else
        |added| == 1 && Reads(added[0], 2 * n, apiName, source)
  {
    hide LineIndent, LineKey, LineValue, GoodKey, Pad, ToLower, IsSpace;
    WordsAreGood();
    TypeWords();
    SpaceTrims("$." + name);
    assert " $." + name == " " + ("$." + name);
    BuiltReads(2 * n, apiName, "");
    BuiltReads(2 * n, apiName, " $." + name);
    BuiltReads(2 * n + 2, "each", " $." + name);
    BuiltReads(2 * n + 2, "from", " $." + name);
  }

  lemma OperationFieldReads(n: nat, name: string)
    requires GoodKey(name)
    ensures
      var added := OperationFieldLines(2 * n, name);
      && |added| == 2 && Pad(2 * n) + "- " + name + ":" == added[0]
      && Reads(added[1], 2 * n + 4, "brief", "false")
  {
    hide LineIndent, LineKey, LineValue, GoodKey, Pad, IsSpace;
    WordsAreGood();
    TypeWords();
    SpaceTrims("false");
    BuiltReads(2 * n + 4, "brief", " false");
  }

  lemma WordsAreGood()
    ensures GoodKey("type") && GoodKey("description") && GoodKey("items")
    ensures GoodKey("each") && GoodKey("from") && GoodKey("brief")
  {}

  // ------------------------------------------------------------------
  // The document.

  /**
   * The document has gained one entry under `path`, as a block of new lines,
   * and nothing else: each path leads to the line it led to before, wherever
   * that is now, and the new paths all go through the new entry.
   */
  ghost predicate Gains(before: Lines, after: Lines, path: seq<string>, key: string, at: nat, added: Lines) {
    && at <= |before| && after == Insert(before, at, added)
    && Resolve(after, path + [key]) == Some(at)
    && forall keys :: KeepsPath(before, after, path + [key], at, |added|, keys)
  }

  lemma EntryGains(lines: Lines, path: seq<string>, block: int, at: nat, added: Lines)
    requires Resolve(lines, path) == Some(block) && path != [] && Entry(added, |path|)
    requires at == End(lines, block) || (block < at < End(lines, block) && LineIndent(lines[at]) == 2 * |path|)
    requires Resolve(lines, path + [LineKey(added[0])]) == None
    ensures Gains(lines, Insert(lines, at, added), path, LineKey(added[0]), at, added)
  {
    hide LineIndent, LineKey, End, First, Insert, Resolve, Goes, KeepsPath;
    var key := LineKey(added[0]);
    KeyIsAbsent(lines, path, block, key);
    EntryGoes(lines, path, block, at, added);
    InsertedResolves(lines, at, added, path, block);
    forall keys
      ensures KeepsPath(lines, Insert(lines, at, added), path + [key], at, |added|, keys)
    {
      InsertKeepsPaths(lines, path, block, at, added, keys);
    }
  }

  lemma KeyIsAbsent(lines: Lines, path: seq<string>, block: int, key: string)
    requires Resolve(lines, path) == Some(block) && Resolve(lines, path + [key]) == None
    ensures First(lines, block + 1, End(lines, block), 2 * |path|, key) == None
  {
    hide *;
    ChildStep(lines, path, key);
  }

  lemma EntryGoes(lines: Lines, path: seq<string>, block: int, at: nat, added: Lines)
    requires Resolve(lines, path) == Some(block) && path != [] && Entry(added, |path|)
    requires at == End(lines, block) || (block < at < End(lines, block) && LineIndent(lines[at]) == 2 * |path|)
    requires First(lines, block + 1, End(lines, block), 2 * |path|, LineKey(added[0])) == None
    ensures Goes(lines, block, at, |path|, added)
  {
    hide LineIndent, LineKey, EndFrom, Entry, First, Resolve;
  }

  lemma {:induction false} PrefixResolves(lines: Lines, keys: seq<string>, d: nat)
    requires d <= |keys| && Resolve(lines, keys[..d]) == None
    ensures Resolve(lines, keys) == None
    decreases |keys|
  {
    hide First, Resolve;
    if d < |keys| {
      ResolveStep(lines, keys);
      var n := |keys| - 1;
      assert keys[..n][..d] == keys[..d];
      PrefixResolves(lines, keys[..n], d);
    } else {
      assert keys[..d] == keys;
    }
  }

  class YamlDoc {
    var lines: seq<string>

    /** newDoc */
    constructor (lines: seq<string>)
      ensures this.lines == lines
    {
      this.lines := lines;
    }

    /** blockEndIndex */
    method BlockEndIndex(blockLine: nat) returns (end: nat)
      requires blockLine < |lines|
      ensures end == End(lines, blockLine)
    {
      hide LineIndent;
      var parentIndent := LineIndent(lines[blockLine]);
      end := blockLine + 1;
      while end < |lines|
        invariant blockLine < end <= |lines|
        invariant forall j :: blockLine < j < end ==> LineIndent(lines[j]) > parentIndent
      {
        if LineIndent(lines[end]) <= parentIndent { break; }
        end := end + 1;
      }
      EndIs(lines, blockLine, end);
    }

    /** findPath */
    method FindPath(keys: seq<string>) returns (r: Option<int>)
      ensures r == Resolve(lines, keys)
    {
      hide LineIndent, LineKey, End, First;
      var start, stop := 0, |lines|;
      DocumentEnd(lines);
      for depth := 0 to |keys|
        invariant 0 <= start <= stop <= |lines|
        invariant Resolve(lines, keys[..depth]) == Some(start - 1) && stop == End(lines, start - 1)
      {
        var index := -1;
        assert keys[..depth + 1][..depth] == keys[..depth];
        for i := start to stop
          invariant index == -1
          invariant forall j :: start <= j < i ==> !Matches(lines, j, depth * 2, keys[depth])
        {
          if LineIndent(lines[i]) == depth * 2 && LineKey(lines[i]) == keys[depth] {
            index := i;
            break;
          }
        }
        if index < 0 {
          FirstIs(lines, start, stop, depth * 2, keys[depth], None);
          PrefixResolves(lines, keys, depth + 1);
          return None;
        }
        FirstIs(lines, start, stop, depth * 2, keys[depth], Some(index));
        start := index + 1;
        stop := BlockEndIndex(index);
      }
      assert keys[..|keys|] == keys;
      return Some(start - 1);
    }

    /** findChildKey */
    method FindChildKey(blockLine: nat, key: string) returns (r: Option<int>)
      requires blockLine < |lines|
      ensures r == First(lines, blockLine + 1, End(lines, blockLine), LineIndent(lines[blockLine]) + 2, key)
    {
      hide LineIndent, LineKey, First;
      var parentIndent := LineIndent(lines[blockLine]);
      var targetIndent := parentIndent + 2;
      var i := blockLine + 1;
      while i < |lines|
        invariant blockLine < i <= |lines|
        invariant forall j :: blockLine < j < i ==> LineIndent(lines[j]) > parentIndent
        invariant forall j :: blockLine < j < i ==> !Matches(lines, j, targetIndent, key)
      {
        var indent := LineIndent(lines[i]);
        if indent <= parentIndent { break; }
        if indent == targetIndent && LineKey(lines[i]) == key {
          FirstIs(lines, blockLine + 1, End(lines, blockLine), parentIndent + 2, key, Some(i));
          return Some(i);
        }
        i := i + 1;
      }
      EndIs(lines, blockLine, i);
      FirstIs(lines, blockLine + 1, i, parentIndent + 2, key, None);
      return None;
    }

    /** insertAt */
    method InsertAt(index: nat, added: seq<string>)
      requires index <= |lines|
      modifies this
      ensures lines == Insert(old(lines), index, added)
    {
      if |added| == 0 {
        assert lines == lines[..index] + lines[index..];
        return;
      }
      lines := lines[..index] + (added + lines[index..]);
    }

    /** The schema part of planTopLevel and planNested. */
    method AddSchemaField(path: seq<string>, fieldName: string, apiType: string, description: string)
      returns (ok: bool)
      requires path != []
      modifies this
      ensures ok <==> Resolve(old(lines), path).Some?
      ensures !ok ==> lines == old(lines)
      ensures ok ==>
                lines == Insert(old(lines), End(old(lines), Resolve(old(lines), path).value),
                                SchemaFieldLines(2 * |path|, fieldName, apiType, description))
      ensures ok && GoodKey(fieldName) && Resolve(old(lines), path + [fieldName]) == None ==>
                Gains(old(lines), lines, path, fieldName, End(old(lines), Resolve(old(lines), path).value),
                      SchemaFieldLines(2 * |path|, fieldName, apiType, description))
    {
      hide LineIndent, LineKey, EndFrom, First, Insert, GoodKey, Gains, SchemaFieldLines, Entry;
      var block := FindPath(path);
      if block == None { return false; }
      var indent := LineIndent(lines[block.value]) + 2;
      var end := BlockEndIndex(block.value);
      var added := SchemaFieldLines(indent, fieldName, apiType, description);
      if GoodKey(fieldName) && Resolve(lines, path + [fieldName]) == None {
        BuiltSchemaField(|path|, fieldName, apiType, description);
        EntryGains(lines, path, block.value, end, added);
      }
      InsertAt(end, added);
      return true;
    }

    /** addTopLevelRequestMapping: before the ApiParam entry, if there is one. */
    method AddTopLevelRequestMapping(binding: string, param: string, fieldName: string, apiType: string)
      returns (ok: bool, ghost at: nat)
      modifies this
      ensures
        var path := ["bindings", binding, "request"];
        && (ok <==> Resolve(old(lines), path).Some?)
        && (!ok ==> lines == old(lines))
        && (ok ==> at == match Resolve(old(lines), path + ["ApiParam"])
                         case Some(apiParam) => apiParam
                         case None => End(old(lines), Resolve(old(lines), path).value))
        && (ok ==>
              && at <= |old(lines)|
              && lines == Insert(old(lines), at, RequestMappingLines(6, param, fieldName, apiType)))
        && (ok && GoodKey(param) && Resolve(old(lines), path + [param]) == None ==>
              Gains(old(lines), lines, path, param, at, RequestMappingLines(6, param, fieldName, apiType)))
    {
      hide LineIndent, LineKey, EndFrom, First, Insert, GoodKey, Gains, RequestMappingLines, Entry;
      var path := ["bindings", binding, "request"];
      var request := FindPath(path);
      at := 0;
      if request == None { return false, at; }
      var indent := LineIndent(lines[request.value]) + 2;
      var added := RequestMappingLines(indent, param, fieldName, apiType);
      var apiParam := FindChildKey(request.value, "ApiParam");
      assert (path + ["ApiParam"])[..3] == path;
      var index: nat;
      if apiParam.Some? {
        index := apiParam.value;
      } else {
        index := BlockEndIndex(request.value);
      }
      at := index;
      if GoodKey(param) && Resolve(lines, path + [param]) == None {
        BuiltRequestMapping(3, param, fieldName, apiType);
        EntryGains(lines, path, request.value, at, added);
      }
      InsertAt(index, added);
      ok := true;
    }

    /** addNestedRequestMapping */
    method AddNestedRequestMapping(binding: string, parents: seq<string>, apiName: string, fieldName: string,
                                   apiType: string)
      returns (ok: bool)
      modifies this
      ensures
        var path := ["bindings", binding, "request"] + parents + ["fields"];
        && (ok <==> Resolve(old(lines), path).Some?)
        && (!ok ==> lines == old(lines))
        && (ok ==>
              lines == Insert(old(lines), End(old(lines), Resolve(old(lines), path).value),
                              RequestMappingLines(2 * |path|, apiName, fieldName, apiType)))
        && (ok && GoodKey(apiName) && Resolve(old(lines), path + [apiName]) == None ==>
              Gains(old(lines), lines, path, apiName, End(old(lines), Resolve(old(lines), path).value),
                    RequestMappingLines(2 * |path|, apiName, fieldName, apiType)))
    {
      hide LineIndent, LineKey, EndFrom, First, Insert, GoodKey, Gains, RequestMappingLines, Entry;
      var path := ["bindings", binding, "request"] + parents + ["fields"];
      var block := FindPath(path);
      if block == None { return false; }
      var indent := LineIndent(lines[block.value]) + 2;
      var added := RequestMappingLines(indent, apiName, fieldName, apiType);
      var end := BlockEndIndex(block.value);
      if GoodKey(apiName) && Resolve(lines, path + [apiName]) == None {
        BuiltRequestMapping(|path|, apiName, fieldName, apiType);
        EntryGains(lines, path, block.value, end, added);
      }
      InsertAt(end, added);
      return true;
    }

    /** addOperationField */
    method AddOperationField(op: string, fieldName: string) returns (ok: bool)
      modifies this
      ensures
        var path := ["operations", op, "input", "fields"];
        && (ok <==> Resolve(old(lines), path).Some?)
        && (!ok ==> lines == old(lines))
        && (ok ==>
              lines == Insert(old(lines), End(old(lines), Resolve(old(lines), path).value),
                              OperationFieldLines(8, fieldName)))
        && (ok && GoodKey(fieldName) && Resolve(old(lines), path + [fieldName]) == None ==>
              Gains(old(lines), lines, path, fieldName, End(old(lines), Resolve(old(lines), path).value),
                    OperationFieldLines(8, fieldName)))
    {
      hide LineIndent, LineKey, EndFrom, First, Insert, GoodKey, Gains, OperationFieldLines, Entry;
      var path := ["operations", op, "input", "fields"];
      var block := FindPath(path);
      if block == None { return false; }
      var indent := LineIndent(lines[block.value]) + 2;
      var end := BlockEndIndex(block.value);
      var added := OperationFieldLines(indent, fieldName);
      if GoodKey(fieldName) && Resolve(lines, path + [fieldName]) == None {
        BuiltOperationField(4, fieldName);
        EntryGains(lines, path, block.value, end, added);
      }
      InsertAt(end, added);
      return true;
    }
  }

  lemma DocumentEnd(lines: Lines)
    ensures End(lines, -1) == |lines|
  {}
}
