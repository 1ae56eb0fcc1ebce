/**
 * pkg/e2bapi/caller.go: a JSON object rebuilt from the dotted keys of a request.
 */
module RequestObject {
  import opened Common
  import opened DecimalText
  import opened Strings

  datatype Json = Null | Scalar(id: int) | Text(text: string) | Arr(items: seq<Json>) | Obj(fields: map<string, Json>)

  predicate IsLeaf(j: Json) {
    !j.Arr? && !j.Obj?
  }

  const MAX_INT := 0x7fff_ffff_ffff_ffff

  /** strconv.Atoi, for 64-bit integers. */
  function Atoi(s: string): Option<int> {
    var minus := s != "" && s[0] == '-';
    var digits := if s != "" && (s[0] == '-' || s[0] == '+') then s[1..] else s;
    if digits == "" || !AllDigits(digits) then None
    else
      var n: int := if minus then 0 - Number(digits) else Number(digits);
      if -MAX_INT - 1 <= n <= MAX_INT then Some(n) else None
  }

  predicate IsIndex(key: string) {
    Atoi(key).Some? && Atoi(key).value >= 1
  }

  predicate AllIndices(keys: set<string>) {
    keys != {} && forall k :: k in keys ==> IsIndex(k)
  }

  /** The indices up to `limit` that the keys stand for, in ascending order, each as often as it is written. */
  function Indices(keys: set<string>, limit: nat): (r: seq<nat>)
  {
    if limit == 0 then []
    else Indices(keys, limit - 1) + seq(|set k | k in keys && Atoi(k) == Some(limit)|, _ => limit)
  }

  // ------------------------------------------------------------------
  // The operations.

  /** insertObject */
  function InsertObject(target: map<string, Json>, path: seq<string>, value: Json): map<string, Json>
    requires path != []
    decreases |path|
  {
    if |path| == 1 then target[path[0] := value]
    else
      var child := if path[0] in target && target[path[0]].Obj? then target[path[0]].fields else map[];
      target[path[0] := Obj(InsertObject(child, path[1..], value))]
  }

  /** normalizeObject: an object whose keys are all positive integers becomes the list of its values. */
  function NormalizeObject(value: Json): Json
    decreases value
  {
    match value
    case Obj(fields) =>
      if AllIndices(fields.Keys) then
        var indices := Indices(fields.Keys, MAX_INT);
        Arr(seq(|indices|, i requires 0 <= i < |indices| =>
          if Digits(indices[i]) in fields then NormalizeObject(fields[Digits(indices[i])]) else Null))
      else
        Obj(map k | k in fields :: NormalizeObject(fields[k]))
    case _ => value
  }

  /** decodeJSONValue, with `decode` for the JSON decoder. */
  function DecodeJsonValue(value: Json, decode: string -> Option<Json>): Json {
    if !value.Text? then value
    else
      var trimmed := TrimSpace(value.text);
      if trimmed == "" || (trimmed[0] != '{' && trimmed[0] != '[') then value
      else if decode(trimmed).Some? then decode(trimmed).value
      else value
  }

  /** The text is that of a JSON object or list, with space around it or not. */
  predicate IsJson(text: string, decode: string -> Option<Json>) {
    && TrimSpace(text) != ""
    && (TrimSpace(text)[0] == '{' || TrimSpace(text)[0] == '[')
    && decode(TrimSpace(text)).Some?
  }

  /** A text that is JSON stands for what it decodes to, and everything else for itself. */
  lemma DecodesExactlyJson(value: Json, decode: string -> Option<Json>)
    ensures
      DecodeJsonValue(value, decode) ==
      if value.Text? && IsJson(value.text, decode) then decode(TrimSpace(value.text)).value else value
  {
  }

  // ------------------------------------------------------------------
  // Trees and their leaves.

  /** The position, from 1, that a key means in a list: the plain decimal text of it. */
  function Position(key: string): nat {
    if Plain(key) then Number(key) else 0
  }

  /** The leaf at a path of keys, where a list has the keys 1, 2 and so on. */
  function LeafAt(j: Json, path: seq<string>): Option<Json>
    decreases j
  {
    match j
    case Obj(fields) => if path != [] && path[0] in fields then LeafAt(fields[path[0]], path[1..]) else None
    case Arr(items) =>
      if path != [] && 1 <= Position(path[0]) <= |items| then LeafAt(items[Position(path[0]) - 1], path[1..]) else None
    case _ => if path == [] then Some(j) else None
  }

  /** No list and no object in it is empty. */
  predicate Full(j: Json)
    decreases j
  {
    match j
    case Obj(fields) => fields != map[] && forall k :: k in fields ==> Full(fields[k])
    case Arr(items) => items != [] && forall i :: 0 <= i < |items| ==> Full(items[i])
    case _ => true
  }

  /** The object may itself be empty. */
  predicate FullBelow(j: Json) {
    j.Obj? && forall k :: k in j.fields ==> Full(j.fields[k])
  }

  predicate NoLists(j: Json)
    decreases j
  {
    !j.Arr? && (j.Obj? ==> forall k :: k in j.fields ==> NoLists(j.fields[k]))
  }

  /** No object in it has positive integers as its only keys. */
  predicate NoIndexObjects(j: Json)
    decreases j
  {
    match j
    case Obj(fields) => !AllIndices(fields.Keys) && forall k :: k in fields ==> NoIndexObjects(fields[k])
    case Arr(items) => forall i :: 0 <= i < |items| ==> NoIndexObjects(items[i])
    case _ => true
  }

  /** No key has a dot, and no list is longer than an int counts. */
  predicate Dotless(j: Json)
    decreases j
  {
    match j
    case Obj(fields) => forall k :: k in fields ==> '.' !in k && Dotless(fields[k])
    case Arr(items) => |items| <= MAX_INT && forall i :: 0 <= i < |items| ==> Dotless(items[i])
    case _ => true
  }

  /** No leaf is the text of a JSON object or list. */
  ghost predicate LeavesStay(j: Json, decode: string -> Option<Json>) {
    forall path :: LeafAt(j, path).Some? && LeafAt(j, path).value.Text? ==> !IsJson(LeafAt(j, path).value.text, decode)
  }

  /** Decoding changes no leaf. */
  ghost predicate Undecoded(j: Json, decode: string -> Option<Json>) {
    forall path :: LeafAt(j, path).Some? ==> DecodeJsonValue(LeafAt(j, path).value, decode) == LeafAt(j, path).value
  }

  /** What starts like an object or a list is decoded to one, if at all. */
  ghost predicate DecodesContainers(decode: string -> Option<Json>) {
    forall text :: text != "" && (text[0] == '{' || text[0] == '[') && decode(text).Some? ==>
      !IsLeaf(decode(text).value)
  }

  lemma {:induction false} LeafIsLeaf(j: Json, path: seq<string>)
    requires LeafAt(j, path).Some?
    ensures IsLeaf(LeafAt(j, path).value)
    decreases |path|
  {
    hide Position;
    if path != [] {
      LeafIsLeaf(if j.Obj? then j.fields[path[0]] else j.items[Position(path[0]) - 1], path[1..]);
    }
  }

  lemma StayMeansUndecoded(j: Json, decode: string -> Option<Json>)
    requires DecodesContainers(decode)
    ensures LeavesStay(j, decode) <==> Undecoded(j, decode)
  {
    hide LeafAt, DecodeJsonValue;
    forall path | LeafAt(j, path).Some?
      ensures IsLeaf(LeafAt(j, path).value)
      ensures
        var leaf := LeafAt(j, path).value;
        DecodeJsonValue(leaf, decode) == leaf <==> !(leaf.Text? && IsJson(leaf.text, decode))
    {
      LeafIsLeaf(j, path);
      DecodesExactlyJson(LeafAt(j, path).value, decode);
    }
  }

  // ------------------------------------------------------------------
  // Inserting leaves builds the tree of those leaves.

  lemma PositionOfDigits(n: nat)
    ensures Position(Digits(n)) == n && '.' !in Digits(n) && (n <= MAX_INT ==> Atoi(Digits(n)) == Some(n))
  {
    hide Digits, Number;
    DigitsAreNumber(n);
    assert forall i :: 0 <= i < |Digits(n)| ==> IsDigit(Digits(n)[i]);
  }

  lemma {:induction false} FullHasLeaf(j: Json)
    requires Full(j)
    ensures exists path :: LeafAt(j, path).Some?
    decreases j
  {
    match j
    case Obj(fields) =>
      var k :| k in fields;
      FullHasLeaf(fields[k]);
      var path :| LeafAt(fields[k], path).Some?;
      LeafBelow(j, k, path);
    case Arr(items) =>
      FullHasLeaf(items[0]);
      var path :| LeafAt(items[0], path).Some?;
      PositionOfDigits(1);
      LeafBelow(j, Digits(1), path);
    case _ =>
      assert LeafAt(j, []) == Some(j);
  }

  lemma LeafBelow(j: Json, key: string, path: seq<string>)
    ensures j.Obj? && key in j.fields ==> LeafAt(j, [key] + path) == LeafAt(j.fields[key], path)
    ensures j.Obj? && key !in j.fields ==> LeafAt(j, [key] + path) == None
    ensures j.Arr? && 1 <= Position(key) <= |j.items| ==>
              LeafAt(j, [key] + path) == LeafAt(j.items[Position(key) - 1], path)
  {
    hide Position;
    assert ([key] + path)[1..] == path;
  }

  /** No leaf lies below another. */
  lemma {:induction false} LeavesApart(j: Json, p: seq<string>, q: seq<string>)
    requires LeafAt(j, p).Some? && LeafAt(j, q).Some? && p <= q
    ensures p == q
    decreases |p|
  {
    hide Position;
    if p != [] {
      var child := if j.Obj? then j.fields[p[0]] else j.items[Position(p[0]) - 1];
      LeavesApart(child, p[1..], q[1..]);
      assert p == [p[0]] + p[1..] && q == [q[0]] + q[1..];
    }
  }

  /** No leaf of the object is at the path, above it or below it. */
  ghost predicate Free(target: map<string, Json>, path: seq<string>) {
    forall p :: LeafAt(Obj(target), p).Some? ==> !(p <= path) && !(path <= p)
  }

  ghost predicate Built(target: map<string, Json>) {
    FullBelow(Obj(target)) && NoLists(Obj(target))
  }

  lemma FreeChild(target: map<string, Json>, path: seq<string>)
    requires Built(target) && |path| > 1 && Free(target, path)
    ensures path[0] in target ==>
              target[path[0]].Obj? && Built(target[path[0]].fields) && Free(target[path[0]].fields, path[1..])
  {
    var k := path[0];
    assert path == [k] + path[1..];
    if k in target {
      assert Full(target[k]) && NoLists(target[k]);
      LeafBelow(Obj(target), k, []);
      assert [k] + [] == [k] && [k] <= path;
      assert !IsLeaf(target[k]);
      forall p | LeafAt(target[k], p).Some?
        ensures !(p <= path[1..]) && !(path[1..] <= p)
      {
        LeafBelow(Obj(target), k, p);
        assert !([k] + p <= path) && !(path <= [k] + p);
      }
    }
  }

  /** The leaves are those of before and one more. */
  ghost predicate AddsLeaf(before: map<string, Json>, after: map<string, Json>, path: seq<string>, value: Json) {
    && Built(after)
    && forall q :: LeafAt(Obj(after), q) == if q == path then Some(value) else LeafAt(Obj(before), q)
  }

  lemma {:induction false} InsertAddsLeaf(target: map<string, Json>, path: seq<string>, value: Json)
    requires Built(target) && path != [] && Free(target, path) && IsLeaf(value)
    ensures AddsLeaf(target, InsertObject(target, path, value), path, value)
    decreases |path|
  {
    hide Free, Built, AddsLeaf, LeafAt;
    var k := path[0];
    if |path| == 1 {
      assert path == [k];
      if k in target { FreeKey(target, k); }
      PutAddsLeaf(target, k, value);
    } else {
      var child := if k in target && target[k].Obj? then target[k].fields else map[];
      FreeChild(target, path);
      EmptyIsFree(path[1..]);
      InsertAddsLeaf(child, path[1..], value);
      assert path == [k] + path[1..];
      ChildAddsLeaf(target, k, child, InsertObject(child, path[1..], value), path[1..], value);
    }
  }

  lemma PutAddsLeaf(target: map<string, Json>, k: string, value: Json)
    requires Built(target) && k !in target && IsLeaf(value)
    ensures AddsLeaf(target, target[k := value], [k], value)
  {
    var after := target[k := value];
    assert Full(value) && NoLists(value);
    forall q
      ensures LeafAt(Obj(after), q) == if q == [k] then Some(value) else LeafAt(Obj(target), q)
    {
      if q != [] { assert q == [q[0]] + q[1..]; }
    }
  }

  lemma ChildAddsLeaf(target: map<string, Json>, k: string, child: map<string, Json>, below: map<string, Json>,
                      path: seq<string>, value: Json)
    requires Built(target) && AddsLeaf(child, below, path, value)
    requires if k in target then target[k] == Obj(child) else child == map[]
    ensures AddsLeaf(target, target[k := Obj(below)], [k] + path, value)
  {
    var after := target[k := Obj(below)];
    assert LeafAt(Obj(below), path) == Some(value);
    assert below != map[] && Full(Obj(below)) && NoLists(Obj(below));
    forall q
      ensures LeafAt(Obj(after), q) == if q == [k] + path then Some(value) else LeafAt(Obj(target), q)
    {
      if q != [] {
        assert q == [q[0]] + q[1..];
        if q[0] == k {
          LeafBelow(Obj(after), k, q[1..]);
          LeafBelow(Obj(target), k, q[1..]);
          assert q == [k] + path <==> q[1..] == path;
        }
      }
    }
  }

  lemma FreeKey(target: map<string, Json>, k: string)
    requires Built(target) && k in target
    ensures !Free(target, [k])
  {
    FullHasLeaf(target[k]);
    var p :| LeafAt(target[k], p).Some?;
    LeafBelow(Obj(target), k, p);
    assert [k] <= [k] + p;
  }

  lemma EmptyIsFree(path: seq<string>)
    ensures Free(map[], path) && Built(map[])
  {}

  /** Trees without lists are told by their leaves. */
  lemma {:induction false} SameLeaves(a: Json, b: Json)
    requires NoLists(a) && NoLists(b) && (a.Obj? ==> FullBelow(a)) && (b.Obj? ==> FullBelow(b))
    requires forall path :: LeafAt(a, path) == LeafAt(b, path)
    ensures a == b
    decreases a
  {
    assert LeafAt(a, []) == LeafAt(b, []);
    if a.Obj? {
      forall k: string
        ensures k in a.fields <==> k in b.fields
        ensures k in a.fields ==> a.fields[k] == b.fields[k]
      {
        SameKey(a, b, k);
        SameKey(b, a, k);
        if k in a.fields {
          forall path
            ensures LeafAt(a.fields[k], path) == LeafAt(b.fields[k], path)
          {
            LeafBelow(a, k, path);
            LeafBelow(b, k, path);
          }
          SameLeaves(a.fields[k], b.fields[k]);
        }
      }
      assert a.fields == b.fields;
    }
  }

  lemma SameKey(a: Json, b: Json, k: string)
    requires a.Obj? && b.Obj? && FullBelow(a) && forall path :: LeafAt(a, path) == LeafAt(b, path)
    ensures k in a.fields ==> k in b.fields
  {
    if k in a.fields {
      FullHasLeaf(a.fields[k]);
      var path :| LeafAt(a.fields[k], path).Some?;
      LeafBelow(a, k, path);
      LeafBelow(b, k, path);
    }
  }

  // ------------------------------------------------------------------
  // Lists are written as objects with the keys 1 to n, and come back.

  function IndexKeys(n: nat): set<string> {
    set i | 1 <= i <= n :: Digits(i)
  }

  lemma IndexKeysAre(n: nat, k: string)
    ensures k in IndexKeys(n) <==> 1 <= Position(k) <= n
    ensures k in IndexKeys(n) ==> Digits(Position(k)) == k
  {
    hide Digits, Number;
    if k in IndexKeys(n) {
      var i :| 1 <= i <= n && k == Digits(i);
      PositionOfDigits(i);
    } else if 1 <= Position(k) <= n {
      PlainIsDigits(k);
    }
  }

  /** The tree with its lists as objects. */
  function Numbered(j: Json): Json
    decreases j
  {
    match j
    case Obj(fields) => Obj(map k | k in fields :: Numbered(fields[k]))
    case Arr(items) =>
      Obj(map k | k in IndexKeys(|items|) && 1 <= Position(k) <= |items| :: Numbered(items[Position(k) - 1]))
    case _ => j
  }

  lemma {:induction false} NumberedLeaves(j: Json, path: seq<string>)
    ensures LeafAt(Numbered(j), path) == LeafAt(j, path)
    decreases |path|
  {
    hide Position;
    if path != [] {
      var k := path[0];
      if j.Obj? && k in j.fields {
        NumberedLeaves(j.fields[k], path[1..]);
      } else if j.Arr? {
        IndexKeysAre(|j.items|, k);
        if 1 <= Position(k) <= |j.items| {
          NumberedLeaves(j.items[Position(k) - 1], path[1..]);
        }
      }
    }
  }

  lemma {:induction false} NumberedIsFull(j: Json)
    requires Full(j)
    ensures Full(Numbered(j)) && NoLists(Numbered(j))
    decreases j
  {
    hide Position, Digits;
    match j
    case Obj(fields) =>
      forall k | k in fields
        ensures Full(Numbered(fields[k])) && NoLists(Numbered(fields[k]))
      {
        NumberedIsFull(fields[k]);
      }
      var k :| k in fields;
      assert k in Numbered(j).fields;
    case Arr(items) =>
      forall i | 0 <= i < |items|
        ensures Full(Numbered(items[i])) && NoLists(Numbered(items[i]))
      {
        NumberedIsFull(items[i]);
      }
      PositionOfDigits(1);
      IndexKeysAre(|items|, Digits(1));
      assert Digits(1) in Numbered(j).fields;
    case _ =>
  }

  lemma {:induction false} IndicesOfList(n: nat, limit: nat)
    requires n <= MAX_INT && limit <= MAX_INT
    ensures Indices(IndexKeys(n), limit) == seq(if n < limit then n else limit, i => i + 1)
    decreases limit
  {
    hide Atoi, Position, Digits;
    if limit > 0 {
      IndicesOfList(n, limit - 1);
      var keys := set k | k in IndexKeys(n) && Atoi(k) == Some(limit);
      forall k | k in IndexKeys(n)
        ensures Atoi(k) == Some(Position(k)) && k == Digits(Position(k))
      {
        IndexKeysAre(n, k);
        PositionOfDigits(Position(k));
      }
      PositionOfDigits(limit);
      IndexKeysAre(n, Digits(limit));
      assert keys == if limit <= n then {Digits(limit)} else {};
    }
  }

  lemma {:induction false} IndicesNotEmpty(keys: set<string>, k: string, limit: nat)
    requires k in keys && IsIndex(k) && Atoi(k).value <= limit
    ensures Indices(keys, limit) != []
    decreases limit
  {
    hide Atoi;
    if Atoi(k).value < limit {
      IndicesNotEmpty(keys, k, limit - 1);
    } else {
      var last := set x | x in keys && Atoi(x) == Some(limit);
      assert k in last;
      assert |last| > 0;
      assert Indices(keys, limit) == Indices(keys, limit - 1) + seq(|last|, _ => limit);
    }
  }

  /** What normalizeObject makes of the numbered tree is the tree, unless an object in it looks like a list. */
  lemma {:induction false} NormalizeNumbered(j: Json)
    requires Full(j) && Dotless(j)
    ensures NormalizeObject(Numbered(j)) == j <==> NoIndexObjects(j)
    decreases j
  {
    hide Atoi, Position, Digits, Indices, IndexKeys;
    match j
    case Obj(fields) =>
      forall k | k in fields
        ensures NormalizeObject(Numbered(fields[k])) == fields[k] <==> NoIndexObjects(fields[k])
      {
        NormalizeNumbered(fields[k]);
      }
      NormalizeFields(j);
    case Arr(items) =>
      forall i | 0 <= i < |items|
        ensures NormalizeObject(Numbered(items[i])) == items[i] <==> NoIndexObjects(items[i])
      {
        NormalizeNumbered(items[i]);
      }
      NormalizeItems(items);
    case _ =>
  }

  lemma NormalizeFields(j: Json)
    requires j.Obj?
    ensures AllIndices(j.fields.Keys) ==> NormalizeObject(Numbered(j)) != j
    ensures !AllIndices(j.fields.Keys) ==>
              (NormalizeObject(Numbered(j)) == j <==>
               forall k :: k in j.fields ==> NormalizeObject(Numbered(j.fields[k])) == j.fields[k])
  {
    hide AllIndices, Indices;
    assert Numbered(j).fields.Keys == j.fields.Keys;
    if !AllIndices(j.fields.Keys) {
      var r := NormalizeObject(Numbered(j));
      assert r == Obj(map k | k in j.fields :: NormalizeObject(Numbered(j.fields[k])));
      if forall k :: k in j.fields ==> NormalizeObject(Numbered(j.fields[k])) == j.fields[k] {
        assert r.fields == j.fields;
      }
    }
  }

  lemma NormalizeItems(items: seq<Json>)
    requires 0 < |items| <= MAX_INT
    ensures NormalizeObject(Numbered(Arr(items))) ==
            Arr(seq(|items|, i requires 0 <= i < |items| => NormalizeObject(Numbered(items[i]))))
  {
    hide Atoi, Position, Digits, Indices, NormalizeObject;
    var n := |items|;
    var fields := Numbered(Arr(items)).fields;
    NumberedItems(items);
    NormalizeList(fields, n);
    assert NormalizeObject(Obj(fields)).items ==
           seq(n, i requires 0 <= i < n => NormalizeObject(Numbered(items[i])));
  }

  lemma NumberedItems(items: seq<Json>)
    ensures
      var fields := Numbered(Arr(items)).fields;
      && fields.Keys == IndexKeys(|items|)
      && forall i :: 1 <= i <= |items| ==> Digits(i) in fields && fields[Digits(i)] == Numbered(items[i - 1])
  {
    hide Position, Digits;
    var n := |items|;
    var fields := Numbered(Arr(items)).fields;
    forall k
      ensures k in fields <==> k in IndexKeys(n)
    {
      IndexKeysAre(n, k);
    }
    forall i | 1 <= i <= n
      ensures Digits(i) in fields && fields[Digits(i)] == Numbered(items[i - 1])
    {
      PositionOfDigits(i);
      IndexKeysAre(n, Digits(i));
    }
  }

  /** An object with the keys 1 to n becomes the list of what its values become. */
  lemma NormalizeList(fields: map<string, Json>, n: nat)
    requires 0 < n <= MAX_INT && fields.Keys == IndexKeys(n)
    ensures
      var r := NormalizeObject(Obj(fields));
      && r.Arr? && |r.items| == n
      && forall i :: 0 <= i < n ==> Digits(i + 1) in fields && r.items[i] == NormalizeObject(fields[Digits(i + 1)])
  {
    hide Atoi, Position, Digits, Indices;
    forall k | k in fields
      ensures IsIndex(k)
    {
      IndexKeysAre(n, k);
      PositionOfDigits(Position(k));
    }
    IndicesOfList(n, MAX_INT);
    forall i | 1 <= i <= n
      ensures Digits(i) in fields
    {
      PositionOfDigits(i);
      IndexKeysAre(n, Digits(i));
    }
    assert AllIndices(fields.Keys) by { assert Digits(1) in fields; }
  }

  lemma {:induction false} NormalizeIsFull(j: Json)
    requires NoLists(j)
    ensures Full(j) ==> Full(NormalizeObject(j))
    ensures FullBelow(j) && NormalizeObject(j).Obj? ==> FullBelow(NormalizeObject(j))
    decreases j
  {
    hide Atoi, Digits, Indices;
    if j.Obj? && FullBelow(j) {
      forall k | k in j.fields
        ensures Full(NormalizeObject(j.fields[k]))
      {
        NormalizeIsFull(j.fields[k]);
      }
      if j.fields != map[] {
        var k :| k in j.fields;
        if AllIndices(j.fields.Keys) {
          IndexFits(k);
          IndicesNotEmpty(j.fields.Keys, k, MAX_INT);
        } else {
          assert k in NormalizeObject(j).fields;
        }
      }
    }
  }

  lemma IndexFits(k: string)
    requires IsIndex(k)
    ensures Atoi(k).value <= MAX_INT
  {}

  /** What the tree's leaves give when they are inserted and normalized. */
  lemma RebuildsTree(root: map<string, Json>, tree: Json)
    requires Built(root) && tree.Obj? && Dotless(tree)
    requires forall path :: LeafAt(Obj(root), path) == LeafAt(tree, path)
    ensures NormalizeObject(Obj(root)) == tree <==> FullBelow(tree) && NoIndexObjects(tree)
  {
    hide NormalizeObject;
    NormalizeIsFull(Obj(root));
    if FullBelow(tree) {
      RootNumbered(tree);
      forall path
        ensures LeafAt(Obj(root), path) == LeafAt(Numbered(tree), path)
      {
        NumberedLeaves(tree, path);
      }
      SameLeaves(Obj(root), Numbered(tree));
      forall k | k in tree.fields
        ensures NormalizeObject(Numbered(tree.fields[k])) == tree.fields[k] <==> NoIndexObjects(tree.fields[k])
      {
        NormalizeNumbered(tree.fields[k]);
      }
      NormalizeFields(tree);
    }
  }

  lemma RootNumbered(tree: Json)
    requires FullBelow(tree)
    ensures FullBelow(Numbered(tree)) && NoLists(Numbered(tree))
  {
    forall k | k in tree.fields
      ensures Full(Numbered(tree.fields[k])) && NoLists(Numbered(tree.fields[k]))
    {
      NumberedIsFull(tree.fields[k]);
    }
  }

  // ------------------------------------------------------------------
  // Values are decoded before they are inserted.

  /** The tree of the decoded leaves, in a tree without lists. */
  function Decoded(j: Json, decode: string -> Option<Json>): Json
    decreases j
  {
    match j
    case Obj(fields) => Obj(map k | k in fields :: Decoded(fields[k], decode))
    case _ => DecodeJsonValue(j, decode)
  }

  lemma {:induction false} InsertDecoded(target: map<string, Json>, path: seq<string>, value: Json,
                                         decode: string -> Option<Json>)
    requires Built(target) && path != [] && Free(target, path) && IsLeaf(value)
    ensures Obj(InsertObject(Decoded(Obj(target), decode).fields, path, DecodeJsonValue(value, decode))) ==
            Decoded(Obj(InsertObject(target, path, value)), decode)
    decreases |path|
  {
    hide Free, Built, DecodeJsonValue;
    if |path| == 1 {
      PutDecoded(target, path[0], value, decode);
    } else {
      var k := path[0];
      var child := if k in target && target[k].Obj? then target[k].fields else map[];
      FreeChild(target, path);
      EmptyIsFree(path[1..]);
      InsertDecoded(child, path[1..], value, decode);
      assert k !in target ==> Decoded(Obj(child), decode).fields == map[];
      PutDecoded(target, k, Obj(InsertObject(child, path[1..], value)), decode);
    }
  }

  lemma PutDecoded(target: map<string, Json>, k: string, value: Json, decode: string -> Option<Json>)
    ensures Decoded(Obj(target[k := value]), decode) ==
            Obj(Decoded(Obj(target), decode).fields[k := Decoded(value, decode)])
  {}

  lemma {:induction false} DecodedIsSame(j: Json, decode: string -> Option<Json>)
    requires NoLists(j)
    ensures Decoded(j, decode) == j <==> Undecoded(j, decode)
    decreases j
  {
    hide DecodeJsonValue;
    if j.Obj? {
      forall k | k in j.fields
        ensures Decoded(j.fields[k], decode) == j.fields[k] <==> Undecoded(j.fields[k], decode)
      {
        DecodedIsSame(j.fields[k], decode);
      }
      if Undecoded(j, decode) {
        forall k, path | k in j.fields && LeafAt(j.fields[k], path).Some?
          ensures DecodeJsonValue(LeafAt(j.fields[k], path).value, decode) == LeafAt(j.fields[k], path).value
        {
          LeafBelow(j, k, path);
        }
        assert Decoded(j, decode).fields == j.fields;
      }
      if Decoded(j, decode) == j {
        assert forall k :: k in j.fields ==> Decoded(j, decode).fields[k] == j.fields[k];
        forall path | LeafAt(j, path).Some?
          ensures DecodeJsonValue(LeafAt(j, path).value, decode) == LeafAt(j, path).value
        {
          assert Undecoded(j.fields[path[0]], decode);
        }
      }
    } else {
      assert LeafAt(j, []) == Some(j);
    }
  }

  /** The keys of a list of `n`: the ascending indices are all of them only if every key is there. */
  lemma {:induction false} AllIndicesThere(keys: set<string>, n: nat, limit: nat)
    requires limit <= MAX_INT && forall k :: k in keys ==> 1 <= Position(k) <= n
    ensures
      var m := if n < limit then n else limit;
      && |Indices(keys, limit)| <= m
      && (|Indices(keys, limit)| == m ==> forall i :: 1 <= i <= m ==> Digits(i) in keys)
    decreases limit
  {
    hide Atoi, Position, Digits;
    if limit > 0 {
      AllIndicesThere(keys, n, limit - 1);
      var last := set k | k in keys && Atoi(k) == Some(limit);
      PositionOfDigits(limit);
      forall k | k in last
        ensures k == Digits(limit) && limit <= n
      {
        AtoiOfPlain(k);
      }
      assert last <= {Digits(limit)};
      if Digits(limit) in keys {
        assert last == {Digits(limit)};
      } else {
        assert last == {};
      }
    }
  }

  lemma AtoiOfPlain(k: string)
    requires Position(k) >= 1
    ensures k == Digits(Position(k)) && (Atoi(k).Some? ==> Atoi(k).value == Position(k))
  {
    hide Number, Digits;
    PlainIsDigits(k);
  }

  /** A key counts a place in a list: digits, signed with a plus or not, of a positive 64-bit number. */
  lemma IndexMeans(key: string)
    ensures
      var digits := if key != "" && key[0] == '+' then key[1..] else key;
      IsIndex(key) <==> digits != "" && AllDigits(digits) && 1 <= Number(digits) <= 0x7fff_ffff_ffff_ffff
  {
    if key != "" && key[0] == '-' {
      assert !IsDigit(key[0]);
    }
  }

  /** The keys that stand for a number up to `limit`. */
  ghost function UpTo(keys: set<string>, limit: nat): set<string> {
    set k | k in keys && Position(k) <= limit
  }

  /** How many keys stand for a smaller number. */
  ghost function Rank(keys: set<string>, k: string): nat {
    |set j | j in keys && Position(j) < Position(k)|
  }

  /** The next number is there at most once, under its plain text. */
  lemma IndicesStep(keys: set<string>, limit: nat)
    requires 0 < limit <= MAX_INT && forall k :: k in keys ==> Position(k) >= 1
    ensures Indices(keys, limit) == Indices(keys, limit - 1) + if Digits(limit) in keys then [limit] else []
    ensures UpTo(keys, limit) == UpTo(keys, limit - 1) + if Digits(limit) in keys then {Digits(limit)} else {}
    ensures Digits(limit) !in UpTo(keys, limit - 1)
    ensures forall k :: k in keys && Position(k) == limit ==> k == Digits(limit)
  {
    hide Atoi, Position, Digits, Rank;
    PositionOfDigits(limit);
    forall k | k in keys
      ensures Atoi(k) == Some(limit) || Position(k) == limit ==> k == Digits(limit)
    {
      AtoiOfPlain(k);
    }
    assert (set k | k in keys && Atoi(k) == Some(limit)) == if Digits(limit) in keys then {Digits(limit)} else {};
  }

  /** Every number has the place that the smaller ones leave it, whatever numbers are missing. */
  lemma {:induction false} IndicesRanked(keys: set<string>, limit: nat)
    requires limit <= MAX_INT && forall k :: k in keys ==> Position(k) >= 1
    ensures |Indices(keys, limit)| == |UpTo(keys, limit)|
    ensures forall k :: k in keys && Position(k) <= limit ==>
      Rank(keys, k) < |Indices(keys, limit)| && Indices(keys, limit)[Rank(keys, k)] == Position(k)
    decreases limit
  {
    hide Atoi, Position, Digits, Indices, Rank, UpTo;
    if limit == 0 {
      NoneUpToZero(keys);
    } else {
      IndicesRanked(keys, limit - 1);
      IndicesStep(keys, limit);
      if Digits(limit) in keys {
        PositionOfDigits(limit);
        RankIsUpTo(keys, Digits(limit));
      }
    }
  }

  lemma NoneUpToZero(keys: set<string>)
    requires forall k :: k in keys ==> Position(k) >= 1
    ensures UpTo(keys, 0) == {} && Indices(keys, 0) == []
  {}

  lemma RankIsUpTo(keys: set<string>, k: string)
    requires Position(k) >= 1
    ensures Rank(keys, k) == |UpTo(keys, Position(k) - 1)|
  {
    assert (set j | j in keys && Position(j) < Position(k)) == UpTo(keys, Position(k) - 1);
  }

  /** Keys that are positive numbers, with gaps or not, give the list of the values in the order of the numbers. */
  lemma ListWithGaps(fields: map<string, Json>)
    requires fields != map[] && forall k :: k in fields ==> 1 <= Position(k) <= 0x7fff_ffff_ffff_ffff
    ensures
      var r := NormalizeObject(Obj(fields));
      && r.Arr? && |r.items| == |fields|
      && forall k :: k in fields ==>
           Rank(fields.Keys, k) < |r.items| && r.items[Rank(fields.Keys, k)] == NormalizeObject(fields[k])
  {
    hide Atoi, Digits, Indices, Position, Rank;
    forall k | k in fields
      ensures IsIndex(k) && Digits(Position(k)) == k
    {
      AtoiOfPlain(k);
      PositionOfDigits(Position(k));
    }
    var k :| k in fields;
    assert AllIndices(fields.Keys);
    IndicesRanked(fields.Keys, MAX_INT);
    assert UpTo(fields.Keys, MAX_INT) == fields.Keys;
  }

  ghost predicate SameLeafPaths(a: Json, b: Json) {
    forall path :: LeafAt(a, path) == LeafAt(b, path)
  }

  /** Decoding that changes a leaf cannot be made good by normalizing: the result is another tree. */
  lemma {:induction false} ResultTellsDecoding(m: Json, t: Json, decode: string -> Option<Json>)
    requires NoLists(m) && (m.Obj? ==> FullBelow(m)) && DecodesContainers(decode)
    ensures SameLeafPaths(m, t) && NormalizeObject(Decoded(m, decode)) == t ==> Decoded(m, decode) == m
    decreases m
  {
    hide Atoi, Position, Digits, Indices, AllIndices;
    if !SameLeafPaths(m, t) || NormalizeObject(Decoded(m, decode)) != t { return; }
    if m.Obj? {
      var d := Decoded(m, decode);
      assert d.fields.Keys == m.fields.Keys;
      forall k | k in m.fields
        ensures Decoded(m.fields[k], decode) == m.fields[k]
      {
        var child := NormalizedChild(m, t, k, decode);
        forall path
          ensures LeafAt(m.fields[k], path) == LeafAt(child, path)
        {
          LeafBelow(m, k, path);
          LeafBelow(t, k, path);
        }
        assert Full(m.fields[k]);
        ResultTellsDecoding(m.fields[k], child, decode);
      }
      assert d.fields == m.fields;
    } else {
      assert LeafAt(m, []) == Some(m) == LeafAt(t, []);
    }
  }

  /** The part of the result that came of the child at `k`, which is found under the same key. */
  lemma NormalizedChild(m: Json, t: Json, k: string, decode: string -> Option<Json>) returns (child: Json)
    requires m.Obj? && NoLists(m) && FullBelow(m) && k in m.fields
    ensures child == NormalizeObject(Decoded(m.fields[k], decode))
    ensures SameLeafPaths(m, t) && NormalizeObject(Decoded(m, decode)) == t ==>
              if t.Obj? then k in t.fields && child == t.fields[k]
              else t.Arr? && 1 <= Position(k) <= |t.items| && child == t.items[Position(k) - 1]
  {
    hide Atoi, Position, Digits, Indices, AllIndices, FullBelow, DecodeJsonValue;
    var d := Decoded(m, decode);
    child := NormalizeObject(d.fields[k]);
    assert d.fields.Keys == m.fields.Keys;
    if SameLeafPaths(m, t) && NormalizeObject(d) == t && AllIndices(d.fields.Keys) {
      var n := |t.items|;
      forall key | key in m.fields
        ensures 1 <= Position(key) <= n
      {
        ListKey(m, t, key);
      }
      AllIndicesThere(d.fields.Keys, n, MAX_INT);
      IndicesOfKeys(d.fields.Keys, n);
      AtoiOfPlain(k);
    }
  }

  lemma ListKey(m: Json, t: Json, key: string)
    requires m.Obj? && FullBelow(m) && key in m.fields && t.Arr?
    requires forall path :: LeafAt(m, path) == LeafAt(t, path)
    ensures 1 <= Position(key) <= |t.items|
  {
    hide Position;
    FullHasLeaf(m.fields[key]);
    var path :| LeafAt(m.fields[key], path).Some?;
    LeafBelow(m, key, path);
    assert LeafAt(t, [key] + path).Some?;
  }

  lemma IndicesOfKeys(keys: set<string>, n: nat)
    requires n <= MAX_INT && (forall k :: k in keys ==> 1 <= Position(k) <= n)
    requires forall i :: 1 <= i <= n ==> Digits(i) in keys
    ensures Indices(keys, MAX_INT) == seq(n, i => i + 1)
  {
    hide Position, Digits, Indices;
    forall k
      ensures k in keys <==> k in IndexKeys(n)
    {
      IndexKeysAre(n, k);
      if k in keys { AtoiOfPlain(k); }
    }
    assert keys == IndexKeys(n);
    IndicesOfList(n, MAX_INT);
  }

  /** The tree comes back if and only if nothing in it is empty, looks like a list, or decodes. */
  lemma RebuildsExactly(marked: map<string, Json>, tree: Json, decode: string -> Option<Json>)
    requires Built(marked) && tree.Obj? && Dotless(tree) && DecodesContainers(decode)
    requires forall path :: LeafAt(Obj(marked), path) == LeafAt(tree, path)
    ensures NormalizeObject(Decoded(Obj(marked), decode)) == tree <==>
            FullBelow(tree) && NoIndexObjects(tree) && LeavesStay(tree, decode)
  {
    hide NormalizeObject, Decoded, FullBelow, NoIndexObjects;
    var m := Obj(marked);
    assert Undecoded(m, decode) <==> Undecoded(tree, decode);
    StayMeansUndecoded(tree, decode);
    DecodedIsSame(m, decode);
    RebuildsTree(marked, tree);
    if NormalizeObject(Decoded(m, decode)) == tree {
      ResultTellsDecoding(m, tree, decode);
    }
  }

  /** The tree with the text of each object or list replaced by what it decodes to, normalized like the rest. */
  function Renewed(j: Json, decode: string -> Option<Json>): Json
    decreases j
  {
    match j
    case Obj(fields) => Obj(map k | k in fields :: Renewed(fields[k], decode))
    case Arr(items) => Arr(seq(|items|, i requires 0 <= i < |items| => Renewed(items[i], decode)))
    case Text(text) => if IsJson(text, decode) then NormalizeObject(decode(TrimSpace(text)).value) else j
    case _ => j
  }

  /** Only objects that look like lists are changed by normalizing. */
  lemma {:induction false} NormalizeKeeps(j: Json)
    requires NoIndexObjects(j)
    ensures NormalizeObject(j) == j
    decreases j
  {
    hide AllIndices, Indices, Digits;
    if j.Obj? {
      forall k | k in j.fields
        ensures NormalizeObject(j.fields[k]) == j.fields[k]
      {
        NormalizeKeeps(j.fields[k]);
      }
      assert NormalizeObject(j).fields == j.fields;
    }
  }

  /** What becomes of the numbered tree when its leaves are decoded. */
  lemma {:induction false} RenewNumbered(j: Json, decode: string -> Option<Json>)
    requires Full(j) && Dotless(j) && NoIndexObjects(j)
    ensures NormalizeObject(Decoded(Numbered(j), decode)) == Renewed(j, decode)
    decreases j
  {
    hide Atoi, Position, Digits, Indices, IndexKeys, AllIndices, DecodeJsonValue, IsJson;
    match j
    case Obj(fields) =>
      forall k | k in fields
        ensures NormalizeObject(Decoded(Numbered(fields[k]), decode)) == Renewed(fields[k], decode)
      {
        RenewNumbered(fields[k], decode);
      }
      RenewFields(j, decode);
    case Arr(items) =>
      forall i | 0 <= i < |items|
        ensures NormalizeObject(Decoded(Numbered(items[i]), decode)) == Renewed(items[i], decode)
      {
        RenewNumbered(items[i], decode);
      }
      RenewItems(items, decode);
    case _ =>
      DecodesExactlyJson(j, decode);
  }

  lemma RenewFields(j: Json, decode: string -> Option<Json>)
    requires j.Obj? && !AllIndices(j.fields.Keys)
    requires forall k :: k in j.fields ==>
               NormalizeObject(Decoded(Numbered(j.fields[k]), decode)) == Renewed(j.fields[k], decode)
    ensures NormalizeObject(Decoded(Numbered(j), decode)) == Renewed(j, decode)
  {
    hide *;
    var d := Decoded(Numbered(j), decode);
    FieldByField(j, decode);
    NormalizePlainObject(d.fields);
    assert NormalizeObject(d).fields == Renewed(j, decode).fields;
  }

  lemma NormalizePlainObject(fields: map<string, Json>)
    requires !AllIndices(fields.Keys)
    ensures NormalizeObject(Obj(fields)) == Obj(map k | k in fields :: NormalizeObject(fields[k]))
  {
    hide AllIndices, Indices, Digits;
  }

  lemma FieldByField(j: Json, decode: string -> Option<Json>)
    requires j.Obj?
    ensures
      var d := Decoded(Numbered(j), decode);
      && d.Obj? && d.fields.Keys == j.fields.Keys && d == Obj(d.fields)
      && (forall k :: k in j.fields ==> d.fields[k] == Decoded(Numbered(j.fields[k]), decode))
    ensures
      && Renewed(j, decode).Obj? && Renewed(j, decode).fields.Keys == j.fields.Keys
      && (forall k :: k in j.fields ==> Renewed(j, decode).fields[k] == Renewed(j.fields[k], decode))
  {
    hide DecodeJsonValue, IsJson, NormalizeObject, Digits;
  }

  lemma RenewItems(items: seq<Json>, decode: string -> Option<Json>)
    requires 0 < |items| <= MAX_INT
    requires forall i :: 0 <= i < |items| ==>
               NormalizeObject(Decoded(Numbered(items[i]), decode)) == Renewed(items[i], decode)
    ensures NormalizeObject(Decoded(Numbered(Arr(items)), decode)) == Renewed(Arr(items), decode)
  {
    hide Numbered, NormalizeObject, IndexKeys, Digits, DecodeJsonValue, IsJson;
    var n := |items|;
    NumberedItems(items);
    NumberedList(items);
    var numbered := Numbered(Arr(items));
    var d := Decoded(numbered, decode);
    assert d.fields.Keys == numbered.fields.Keys;
    NormalizeList(d.fields, n);
    forall i | 0 <= i < n
      ensures NormalizeObject(d).items[i] == Renewed(items[i], decode)
    {
      assert 1 <= i + 1 <= n;
    }
    assert NormalizeObject(d).items == Renewed(Arr(items), decode).items;
  }

  lemma NumberedList(items: seq<Json>)
    ensures Numbered(Arr(items)).Obj?
  {
  }

  /** The tree that comes back when texts in it are decoded. */
  lemma RebuildsRenewed(marked: map<string, Json>, tree: Json, decode: string -> Option<Json>)
    requires Built(marked) && FullBelow(tree) && Dotless(tree) && NoIndexObjects(tree)
    requires forall path :: LeafAt(Obj(marked), path) == LeafAt(tree, path)
    ensures NormalizeObject(Decoded(Obj(marked), decode)) == Renewed(tree, decode)
  {
    hide NormalizeObject, Decoded, Renewed, AllIndices;
    RootNumbered(tree);
    forall path
      ensures LeafAt(Obj(marked), path) == LeafAt(Numbered(tree), path)
    {
      NumberedLeaves(tree, path);
    }
    SameLeaves(Obj(marked), Numbered(tree));
    forall k | k in tree.fields
      ensures NormalizeObject(Decoded(Numbered(tree.fields[k]), decode)) == Renewed(tree.fields[k], decode)
    {
      RenewNumbered(tree.fields[k], decode);
    }
    RenewFields(tree, decode);
  }

  // ------------------------------------------------------------------
  // requestObject

  /** The flat keys are exactly those of the leaves of `tree`. */
  ghost predicate Carries(flat: map<string, Json>, tree: Json) {
    && tree.Obj?
    && (forall key :: key in flat ==> LeafAt(tree, Split(key, '.')) == Some(flat[key]))
    && (forall path :: LeafAt(tree, path).Some? ==> Join(path, '.') in flat)
  }

  lemma {:induction false} LeafPathsSplit(j: Json, path: seq<string>)
    requires LeafAt(j, path).Some? && Dotless(j)
    ensures path != [] ==> Split(Join(path, '.'), '.') == path
    ensures IsLeaf(LeafAt(j, path).value)
    ensures forall i :: 0 <= i < |path| ==> '.' !in path[i]
    decreases |path|
  {
    hide Position, Split, Join;
    if path != [] {
      if j.Obj? {
        LeafPathsSplit(j.fields[path[0]], path[1..]);
      } else {
        LeafPathsSplit(j.items[Position(path[0]) - 1], path[1..]);
        PositionHasNoDot(path[0]);
      }
      assert forall i :: 0 < i < |path| ==> path[i] == path[1..][i - 1];
      SplitJoin(path, '.');
    }
  }

  lemma PositionHasNoDot(key: string)
    requires Position(key) >= 1
    ensures '.' !in key
  {
    hide Number;
    assert forall i :: 0 <= i < |key| ==> IsDigit(key[i]);
  }

  /** The paths that were inserted make the leaves that are there. */
  ghost predicate Inserted(root: map<string, Json>, tree: Json, done: set<seq<string>>) {
    && Built(root)
    && forall path :: LeafAt(Obj(root), path) == if path in done then LeafAt(tree, path) else None
  }

  lemma InsertNext(root: map<string, Json>, tree: Json, done: set<seq<string>>, path: seq<string>,
                   decode: string -> Option<Json>)
    requires Inserted(root, tree, done) && path != [] && path !in done
    requires LeafAt(tree, path).Some? && IsLeaf(LeafAt(tree, path).value)
    ensures
      var value := LeafAt(tree, path).value;
      && Inserted(InsertObject(root, path, value), tree, done + {path})
      && Obj(InsertObject(Decoded(Obj(root), decode).fields, path, DecodeJsonValue(value, decode))) ==
         Decoded(Obj(InsertObject(root, path, value)), decode)
  {
    hide Built;
    forall p | LeafAt(Obj(root), p).Some?
      ensures !(p <= path) && !(path <= p)
    {
      if p <= path { LeavesApart(tree, p, path); }
      if path <= p { LeavesApart(tree, path, p); }
    }
    InsertAddsLeaf(root, path, LeafAt(tree, path).value);
    InsertDecoded(root, path, LeafAt(tree, path).value, decode);
  }

  ghost predicate HasLeaves(root: map<string, Json>, tree: Json) {
    Built(root) && forall path :: LeafAt(Obj(root), path) == LeafAt(tree, path)
  }

  /** The object has exactly the leaves of the tree, decoded. */
  ghost predicate HasDecodedLeaves(root: map<string, Json>, tree: Json, decode: string -> Option<Json>) {
    exists marked :: HasLeaves(marked, tree) && Obj(root) == Decoded(Obj(marked), decode)
  }

  /** The loop over the flat keys.  The original takes them in the order of sort.Strings; any order does. */
  method InsertAll(flat: map<string, Json>, decode: string -> Option<Json>, ghost tree: Json)
    returns (root: map<string, Json>)
    ensures Carries(flat, tree) && Dotless(tree) ==> HasDecodedLeaves(root, tree, decode)
  {
    hide Split, Join, LeafAt, Dotless, InsertObject, DecodeJsonValue, Built, Decoded;
    ghost var sound := Carries(flat, tree) && Dotless(tree);
    ghost var done: set<seq<string>> := {};
    var keys := flat.Keys;
    ghost var marked: map<string, Json> := map[];
    root := map[];
    NothingInserted(tree, decode);
    while keys != {}
      invariant keys <= flat.Keys
      invariant sound ==> Inserted(marked, tree, done) && Obj(root) == Decoded(Obj(marked), decode)
      invariant forall path :: path in done <==> exists key :: key in flat.Keys - keys && Split(key, '.') == path
    {
      var key :| key in keys;
      ghost var path := Split(key, '.');
      if sound {
        LeafPathsSplit(tree, path);
        if path in done {
          var other :| other in flat.Keys - keys && Split(other, '.') == path;
          JoinSplit(key, '.');
          JoinSplit(other, '.');
          assert false;
        }
        InsertNext(marked, tree, done, path, decode);
        marked := InsertObject(marked, path, flat[key]);
      }
      ghost var before := keys;
      keys := keys - {key};
      root := InsertObject(root, Split(key, '.'), DecodeJsonValue(flat[key], decode));
      assert forall k :: k in flat.Keys - keys <==> k == key || k in flat.Keys - before;
      done := done + {path};
    }
    if sound {
      forall path
        ensures LeafAt(Obj(marked), path) == LeafAt(tree, path)
      {
        if LeafAt(tree, path).Some? {
          LeafPathsSplit(tree, path);
          NoLeafAtRoot(tree);
          assert Join(path, '.') in flat.Keys - keys;
        }
      }
      assert HasLeaves(marked, tree);
    }
  }

  lemma NothingInserted(tree: Json, decode: string -> Option<Json>)
    ensures Inserted(map[], tree, {}) && Decoded(Obj(map[]), decode) == Obj(map[])
  {}

  lemma NoLeafAtRoot(tree: Json)
    requires tree.Obj?
    ensures LeafAt(tree, []) == None
  {}

  /** The loop that picks the keys below the prefix. */
  method Below(request: map<string, Json>, needle: string) returns (flat: map<string, Json>)
    ensures forall key :: key in flat <==> needle + key in request
    ensures forall key :: key in flat ==> flat[key] == request[needle + key]
  {
    flat := map[];
    var keys := request.Keys;
    while keys != {}
      invariant keys <= request.Keys
      invariant forall key :: key in flat <==> needle + key in request.Keys - keys
      invariant forall key :: key in flat ==> flat[key] == request[needle + key]
    {
      var key :| key in keys;
      keys := keys - {key};
      if needle <= key {
        assert key == needle + key[|needle|..];
        assert forall k :: needle + k == key <==> k == key[|needle|..] by {
          assert forall k :: (needle + k)[|needle|..] == k;
        }
        flat := flat[key[|needle|..] := request[key]];
      }
    }
  }

  /** The keys of the request below `needle` are exactly those of the leaves of `tree`. */
  ghost predicate CarriesBelow(request: map<string, Json>, needle: string, tree: Json) {
    && tree.Obj?
    && (forall key :: needle + key in request ==> LeafAt(tree, Split(key, '.')) == Some(request[needle + key]))
    && (forall path :: LeafAt(tree, path).Some? ==> needle + Join(path, '.') in request)
  }

  /** There is an object at the prefix itself, as such or as its JSON text. */
  predicate Direct(request: map<string, Json>, prefix: string, decode: string -> Option<Json>) {
    && prefix in request
    && match request[prefix]
       case Obj(_) => true
       case Text(text) => IsJson(text, decode) && decode(TrimSpace(text)).value.Obj?
       case _ => false
  }

  /**
   * requestObject.  An object at the prefix itself is the answer.  Otherwise,
   * when the keys below `prefix` are those of the leaves of `tree`, the answer is
   * `tree` exactly if nothing in it is an empty list or object, no object in it
   * has positive integers as its only keys, and no leaf is the text of a JSON
   * object or list; such texts come back decoded where the rest holds.
   */
  method RequestObject(request: map<string, Json>, prefix: string, decode: string -> Option<Json>, ghost tree: Json)
    returns (r: Option<map<string, Json>>)
    ensures prefix in request && request[prefix].Obj? ==> r == Some(request[prefix].fields)
    ensures
      prefix in request && request[prefix].Text? && Direct(request, prefix, decode) ==>
        r == Some(decode(TrimSpace(request[prefix].text)).value.fields)
    ensures
      && !Direct(request, prefix, decode) && DecodesContainers(decode)
      && CarriesBelow(request, prefix + ".", tree) && Dotless(tree) ==>
        && (r == Some(tree.fields) <==> FullBelow(tree) && NoIndexObjects(tree) && LeavesStay(tree, decode))
        && (FullBelow(tree) && NoIndexObjects(tree) ==> r == Some(Renewed(tree, decode).fields))
    // A tree of objects only, which may count with gaps, is normalized as it is.
    ensures
      && !Direct(request, prefix, decode) && CarriesBelow(request, prefix + ".", tree) && Dotless(tree)
      && FullBelow(tree) && NoLists(tree) ==>
        var normalized := NormalizeObject(Decoded(tree, decode));
        r == if normalized.Obj? then Some(normalized.fields) else None
  {
    hide Dotless, NoIndexObjects, LeafAt, NormalizeObject, Built, Split, Join, FullBelow, LeavesStay, Decoded;
    hide DecodeJsonValue, IsJson;
    if prefix in request {
      DecodesExactlyJson(request[prefix], decode);
      if DecodeJsonValue(request[prefix], decode).Obj? {
        return Some(DecodeJsonValue(request[prefix], decode).fields);
      }
    }
    var flat := Below(request, prefix + ".");
    var root := InsertAll(flat, decode, tree);
    var normalized := NormalizeObject(Obj(root));
    if Dotless(tree) && CarriesBelow(request, prefix + ".", tree) {
      assert Carries(flat, tree);
      ghost var marked :| HasLeaves(marked, tree) && Obj(root) == Decoded(Obj(marked), decode);
      AnswersLeaves(marked, tree, decode);
    }
    r := if normalized.Obj? then Some(normalized.fields) else None;
  }

  lemma AnswersLeaves(marked: map<string, Json>, tree: Json, decode: string -> Option<Json>)
    requires HasLeaves(marked, tree) && tree.Obj? && Dotless(tree)
    ensures
      var normalized := NormalizeObject(Decoded(Obj(marked), decode));
      && (DecodesContainers(decode) ==>
            && (normalized == tree <==> FullBelow(tree) && NoIndexObjects(tree) && LeavesStay(tree, decode))
            && (FullBelow(tree) && NoIndexObjects(tree) ==> normalized == Renewed(tree, decode)))
      && (FullBelow(tree) && NoLists(tree) ==> Obj(marked) == tree)
  {
    hide NormalizeObject, Decoded, FullBelow, NoIndexObjects, Renewed;
    if FullBelow(tree) && NoLists(tree) {
      assert FullBelow(Obj(marked)) && NoLists(Obj(marked));
      SameLeaves(Obj(marked), tree);
    }
    if DecodesContainers(decode) {
      RebuildsExactly(marked, tree, decode);
      if FullBelow(tree) && NoIndexObjects(tree) {
        RebuildsRenewed(marked, tree, decode);
      }
    }
  }
}
