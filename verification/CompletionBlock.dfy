/**
 * pkg/cli/completion.go: the marked block of ecctl in a user's .zshrc, which an
 * installation replaces without touching anything else.
 */
module CompletionBlock {
  import opened Common
  import opened Strings
  import ProcessCommand

  const ZSH_COMPLETION_START := "# >>> ecctl completion zsh >>>"
  const ZSH_COMPLETION_END := "# <<< ecctl completion zsh <<<"

  /** The first line of a text that has a newline, with it, and the text after it. */
  function Head(s: string): string
    requires '\n' in s
  {
    s[..IndexByte(s, '\n') + 1]
  }

  function Tail(s: string): (t: string)
    requires '\n' in s
    ensures |t| < |s|
  {
    s[IndexByte(s, '\n') + 1..]
  }

  /** strings.SplitAfter at the newlines: every line with its newline, the last one without. */
  function SplitAfter(s: string): (lines: seq<string>)
    ensures lines != []
    decreases |s|
  {
    if '\n' in s then [Head(s)] + SplitAfter(Tail(s)) else [s]
  }

  function Text(lines: seq<string>): string {
    if lines == [] then "" else lines[0] + Text(lines[1..])
  }

  function TrimSuffix(s: string, c: char): string {
    if s != "" && s[|s| - 1] == c then s[..|s| - 1] else s
  }

  datatype Mark = StartMark | EndMark | NoMark

  function MarkOf(line: string): Mark {
    var marker := TrimSuffix(TrimSuffix(line, '\n'), '\r');
    if marker == ZSH_COMPLETION_START then StartMark else if marker == ZSH_COMPLETION_END then EndMark else NoMark
  }

  // ------------------------------------------------------------------
  // The rewriting.

  datatype Rewritten = Failed | Rewritten(text: string, installed: bool)

  function Prepend(text: string, r: Rewritten): Rewritten {
    if r.Rewritten? then r.(text := text + r.text) else r
  }

  /** What the loop makes of the lines that are left. */
  function Rest(lines: seq<string>, block: string, inside: bool, installed: bool): Rewritten {
    if lines == [] then if inside then Failed else Rewritten("", installed)
    else
      match MarkOf(lines[0])
      case StartMark =>
        if inside then Failed else Prepend(if installed then "" else block, Rest(lines[1..], block, true, true))
      case EndMark => if inside then Rest(lines[1..], block, false, installed) else Failed
      case NoMark => Prepend(if inside then "" else lines[0], Rest(lines[1..], block, inside, installed))
  }

  predicate EndsLine(s: string) {
    s == "" || s[|s| - 1] == '\n'
  }

  function Updated(content: string, block: string): Option<string> {
    match Rest(SplitAfter(content), block, false, false)
    case Failed => None
    case Rewritten(text, installed) =>
      if installed then Some(text) else Some(text + (if EndsLine(content) then "" else "\n") + block)
  }

  lemma RestStep(lines: seq<string>, block: string, inside: bool, installed: bool, out: string)
    requires lines != []
    ensures Prepend(out, Rest(lines, block, inside, installed)) ==
            match MarkOf(lines[0])
            case StartMark =>
              if inside then Failed
              else Prepend(if installed then out else out + block, Rest(lines[1..], block, true, true))
            case EndMark => if inside then Prepend(out, Rest(lines[1..], block, false, installed)) else Failed
            case NoMark => Prepend(if inside then out else out + lines[0], Rest(lines[1..], block, inside, installed))
  {
    hide MarkOf;
    forall middle: string, r: Rewritten
      ensures Prepend(out, Prepend(middle, r)) == Prepend(out + middle, r)
    {
      if r.Rewritten? { assert out + (middle + r.text) == out + middle + r.text; }
    }
    assert out + "" == out;
  }

  lemma RestEnds(block: string, inside: bool, installed: bool, out: string)
    ensures Prepend(out, Rest([], block, inside, installed)) == if inside then Failed else Rewritten(out, installed)
  {
    assert out + "" == out;
  }

  /** updateZshCompletionRC; None is its error. */
  method UpdateZshCompletionRC(content: string, block: string) returns (r: Option<string>)
    ensures r == Updated(content, block)
  {
    hide MarkOf, SplitAfter, Rest;
    var out, inside, installed := "", false, false;
    var lines := SplitAfter(content);
    assert lines[0..] == lines;
    for i := 0 to |lines|
      invariant Rest(lines, block, false, false) == Prepend(out, Rest(lines[i..], block, inside, installed))
    {
      var line := lines[i];
      assert lines[i..][1..] == lines[i + 1..];
      RestStep(lines[i..], block, inside, installed, out);
      match MarkOf(line) {
        case StartMark =>
          if inside { return None; }
          if !installed {
            out := out + block;
            installed := true;
          }
          inside := true;
        case EndMark =>
          if !inside { return None; }
          inside := false;
        case NoMark =>
          if !inside { out := out + line; }
      }
    }
    assert lines[|lines|..] == [];
    RestEnds(block, inside, installed, out);
    if inside { return None; }
    if !installed {
      assert out + "" + block == out + block;
      if content != "" && content[|content| - 1] != '\n' { out := out + "\n"; }
      out := out + block;
    }
    return Some(out);
  }

  /** A marker stands alone on its line, which ends in a newline, after a carriage return or not, or ends the file. */
  lemma MarkersByText(line: string)
    ensures MarkOf(line).StartMark? <==> IsMarker(line, "# >>> ecctl completion zsh >>>")
    ensures MarkOf(line).EndMark? <==> IsMarker(line, "# <<< ecctl completion zsh <<<")
  {
    var m := TrimSuffix(line, '\n');
    assert line == m || line == m + "\n";
    assert m == TrimSuffix(m, '\r') || m == TrimSuffix(m, '\r') + "\r";
    MarkerTexts(line, ZSH_COMPLETION_START);
    MarkerTexts(line, ZSH_COMPLETION_END);
  }

  predicate IsMarker(line: string, marker: string) {
    line == marker || line == marker + "\n" || line == marker + "\r" || line == marker + "\r\n"
  }

  lemma MarkerTexts(line: string, marker: string)
    requires marker != "" && marker[|marker| - 1] != '\r' && marker[|marker| - 1] != '\n'
    ensures TrimSuffix(TrimSuffix(line, '\n'), '\r') == marker <==> IsMarker(line, marker)
  {
    assert (marker + "\r\n")[..|marker| + 1] == marker + "\r";
  }

  // ------------------------------------------------------------------
  // It fails exactly on markers that do not alternate.

  function Marks(lines: seq<string>): seq<Mark> {
    if lines == [] then []
    else (if MarkOf(lines[0]).NoMark? then [] else [MarkOf(lines[0])]) + Marks(lines[1..])
  }

  /** Start and end take turns, beginning with a start unless inside a block, and ending with an end. */
  predicate Balanced(marks: seq<Mark>, inside: bool) {
    && (|marks| % 2 == 1 <==> inside)
    && forall i :: 0 <= i < |marks| ==> (marks[i] == if (i % 2 == 0) == inside then EndMark else StartMark)
  }

  lemma {:induction false} FailsUnlessBalanced(lines: seq<string>, block: string, inside: bool, installed: bool)
    ensures Rest(lines, block, inside, installed).Failed? <==> !Balanced(Marks(lines), inside)
  {
    hide MarkOf;
    if lines != [] {
      var marks, tail := Marks(lines), Marks(lines[1..]);
      match MarkOf(lines[0])
      case NoMark =>
        assert marks == tail;
        FailsUnlessBalanced(lines[1..], block, inside, installed);
      case StartMark =>
        FailsUnlessBalanced(lines[1..], block, true, true);
        BalancedStep(marks, inside);
      case EndMark =>
        FailsUnlessBalanced(lines[1..], block, false, installed);
        BalancedStep(marks, inside);
    }
  }

  lemma BalancedStep(marks: seq<Mark>, inside: bool)
    requires marks != []
    ensures Balanced(marks, inside) <==>
            marks[0] == (if inside then EndMark else StartMark) && Balanced(marks[1..], !inside)
  {}

  /** updateZshCompletionRC fails exactly on nested or unbalanced markers. */
  lemma FailsExactlyOnBadMarkers(content: string, block: string)
    ensures Updated(content, block) == None <==> !Balanced(Marks(SplitAfter(content)), false)
  {
    FailsUnlessBalanced(SplitAfter(content), block, false, false);
  }

  // ------------------------------------------------------------------
  // Lines and texts.

  predicate MarkFree(lines: seq<string>) {
    forall i :: 0 <= i < |lines| ==> MarkOf(lines[i]).NoMark?
  }

  /** A line with its newline, which is nowhere else in it. */
  predicate IsLine(line: string) {
    line != "" && line[|line| - 1] == '\n' && '\n' !in line[..|line| - 1]
  }

  /** Lines as SplitAfter gives them; only the last one may be without its newline. */
  predicate Proper(lines: seq<string>) {
    && (forall i :: 0 <= i < |lines| - 1 ==> IsLine(lines[i]))
    && (lines != [] ==> IsLine(lines[|lines| - 1]) || '\n' !in lines[|lines| - 1])
  }

  lemma HeadAndTail(s: string)
    requires '\n' in s
    ensures IsLine(Head(s)) && Head(s) + Tail(s) == s && (EndsLine(s) ==> EndsLine(Tail(s)))
  {
    assert Head(s)[..|Head(s)| - 1] == s[..IndexByte(s, '\n')];
  }

  lemma LineIsHead(line: string, rest: string)
    requires IsLine(line)
    ensures '\n' in line + rest && Head(line + rest) == line && Tail(line + rest) == rest
  {
    var s := line + rest;
    var k, n := IndexByte(s, '\n'), |line| - 1;
    assert s[n] == '\n';
    assert forall i :: 0 <= i < n ==> s[i] == line[..n][i];
    assert forall i :: 0 <= i < k ==> s[i] == s[..k][i];
    assert k == n;
  }

  lemma {:induction false} SplitIsProper(s: string)
    ensures Proper(SplitAfter(s)) && Text(SplitAfter(s)) == s
    ensures '\n' !in SplitAfter(s)[|SplitAfter(s)| - 1] && (EndsLine(s) ==> SplitAfter(s)[|SplitAfter(s)| - 1] == "")
    decreases |s|
  {
    hide IsLine, Head, Tail;
    if '\n' in s {
      HeadAndTail(s);
      SplitIsProper(Tail(s));
      assert SplitAfter(s)[1..] == SplitAfter(Tail(s));
    } else {
      OneLineText(s);
    }
  }

  /** The lines of a text that ends its last line, without the empty rest. */
  function FullLines(s: string): seq<string> {
    SplitAfter(s)[..|SplitAfter(s)| - 1]
  }

  lemma SplitLine(line: string, rest: string)
    requires IsLine(line)
    ensures SplitAfter(line + rest) == [line] + SplitAfter(rest)
  {
    LineIsHead(line, rest);
  }

  lemma FullLine(line: string, rest: string)
    requires IsLine(line)
    ensures FullLines(line + rest) == [line] + FullLines(rest)
  {
    hide IsLine, SplitAfter;
    SplitLine(line, rest);
  }

  lemma NoFullLines()
    ensures FullLines("") == []
  {}

  lemma {:induction false} SplitConcat(a: string, b: string)
    requires EndsLine(a)
    ensures SplitAfter(a + b) == FullLines(a) + SplitAfter(b)
    decreases |a|
  {
    hide IsLine, Head, Tail, SplitAfter, FullLines;
    if a == "" {
      NoFullLines();
      assert a + b == b && [] + SplitAfter(b) == SplitAfter(b);
    } else {
      assert a[|a| - 1] == '\n';
      HeadAndTail(a);
      var line, rest := Head(a), Tail(a);
      assert a + b == line + (rest + b);
      SplitLine(line, rest + b);
      SplitConcat(rest, b);
      FullLine(line, rest);
      assert [line] + (FullLines(rest) + SplitAfter(b)) == [line] + FullLines(rest) + SplitAfter(b);
    }
  }

  lemma {:induction false} SplitText(lines: seq<string>)
    requires Proper(lines)
    ensures SplitAfter(Text(lines)) == lines || SplitAfter(Text(lines)) == lines + [""]
    decreases |lines|
  {
    hide IsLine, SplitAfter;
    if lines == [] {
      SplitLast("");
    } else if |lines| == 1 && !IsLine(lines[0]) {
      OneLineText(lines[0]);
      SplitLast(lines[0]);
    } else {
      var rest := lines[1..];
      SplitText(rest);
      SplitLine(lines[0], Text(rest));
      assert lines == [lines[0]] + rest;
    }
  }

  lemma SplitLast(line: string)
    requires '\n' !in line
    ensures SplitAfter(line) == [line]
  {}

  lemma MarkFreeText(lines: seq<string>)
    requires Proper(lines) && MarkFree(lines)
    ensures MarkFree(SplitAfter(Text(lines)))
  {
    hide MarkOf, SplitAfter;
    SplitText(lines);
    EmptyIsNoMark();
  }

  lemma EmptyIsNoMark()
    ensures MarkOf("") == NoMark
  {}

  // ------------------------------------------------------------------
  // What is kept, and that once is enough.

  /** The lines outside of marked blocks. */
  function OutsideLines(lines: seq<string>, inside: bool): seq<string> {
    if lines == [] then []
    else
      match MarkOf(lines[0])
      case StartMark => OutsideLines(lines[1..], true)
      case EndMark => OutsideLines(lines[1..], false)
      case NoMark => (if inside then [] else [lines[0]]) + OutsideLines(lines[1..], inside)
  }

  function Outside(content: string): string {
    Text(OutsideLines(SplitAfter(content), false))
  }

  lemma ProperFront(line: string, rest: seq<string>)
    requires Proper(rest) && (IsLine(line) || (rest == [] && '\n' !in line))
    ensures Proper([line] + rest)
  {
    hide IsLine;
  }

  lemma ProperParts(lines: seq<string>)
    requires Proper(lines) && lines != []
    ensures Proper(lines[1..]) && (IsLine(lines[0]) || (lines[1..] == [] && '\n' !in lines[0]))
  {
    hide IsLine;
  }

  lemma {:induction false} OutsideIsProper(lines: seq<string>, inside: bool)
    requires Proper(lines)
    ensures Proper(OutsideLines(lines, inside)) && MarkFree(OutsideLines(lines, inside))
    ensures |OutsideLines(lines, inside)| <= |lines|
    decreases |lines|
  {
    hide MarkOf, Proper, MarkFree;
    if lines == [] {
      assert Proper([]) && MarkFree([]) by { NothingIsProper(); }
    } else {
      var next := match MarkOf(lines[0]) case StartMark => true case EndMark => false case NoMark => inside;
      var rest := OutsideLines(lines[1..], next);
      ProperParts(lines);
      OutsideIsProper(lines[1..], next);
      assert [] + rest == rest;
      if MarkOf(lines[0]).NoMark? && !inside {
        ProperFront(lines[0], rest);
        MarkFreeFront(lines[0], rest);
      }
    }
  }

  lemma NothingIsProper()
    ensures Proper([]) && MarkFree([])
  {}

  lemma MarkFreeFront(line: string, rest: seq<string>)
    requires MarkOf(line).NoMark? && MarkFree(rest)
    ensures MarkFree([line] + rest)
  {
    hide MarkOf;
  }

  lemma {:induction false} RestInstalled(lines: seq<string>, block: string, inside: bool)
    ensures
      var r := Rest(lines, block, inside, true);
      r.Rewritten? ==> r.installed && r.text == Text(OutsideLines(lines, inside))
  {
    hide MarkOf;
    if lines != [] {
      var next := match MarkOf(lines[0]) case StartMark => true case EndMark => false case NoMark => inside;
      RestInstalled(lines[1..], block, next);
      var r := Rest(lines[1..], block, next, true);
      if r.Rewritten? {
        assert "" + r.text == r.text;
        var outside := OutsideLines(lines[1..], next);
        assert [] + outside == outside && ([lines[0]] + outside)[1..] == outside;
      }
    }
  }

  lemma RestOfFree(lines: seq<string>, block: string, inside: bool, installed: bool)
    requires lines != [] && MarkOf(lines[0]).NoMark?
    ensures Rest(lines, block, inside, installed) ==
            Prepend(if inside then "" else lines[0], Rest(lines[1..], block, inside, installed))
    ensures OutsideLines(lines, inside) == (if inside then [] else [lines[0]]) + OutsideLines(lines[1..], inside)
  {
    hide MarkOf;
  }

  lemma PrependTwice(a: string, b: string, r: Rewritten)
    ensures Prepend(a, Prepend(b, r)) == Prepend(a + b, r) && Prepend("", r) == r
  {
    if r.Rewritten? { assert a + (b + r.text) == a + b + r.text && "" + r.text == r.text; }
  }

  lemma TextFront(line: string, rest: seq<string>)
    ensures Text([line] + rest) == line + Text(rest) && Text([]) == ""
  {
    assert ([line] + rest)[1..] == rest;
  }

  /** The first `k` lines have no mark. */
  lemma {:induction false} RestAfterFree(lines: seq<string>, block: string, inside: bool, installed: bool, k: nat)
    requires k <= |lines| && MarkFree(lines[..k])
    ensures Rest(lines, block, inside, installed) ==
            Prepend(if inside then "" else Text(lines[..k]), Rest(lines[k..], block, inside, installed))
    ensures OutsideLines(lines, inside) == (if inside then [] else lines[..k]) + OutsideLines(lines[k..], inside)
    decreases k
  {
    hide MarkOf, Rest, OutsideLines, Text, Prepend;
    var r := Rest(lines[k..], block, inside, installed);
    if k == 0 {
      assert lines[0..] == lines && lines[..0] == [];
      TextFront("", []);
      PrependTwice("", "", r);
    } else {
      var front := lines[1..][..k - 1];
      assert lines[..k] == [lines[0]] + front && lines[1..][k - 1..] == lines[k..];
      assert forall i :: 0 <= i < |front| ==> front[i] == lines[..k][i + 1];
      assert MarkOf(lines[..k][0]).NoMark?;
      RestAfterFree(lines[1..], block, inside, installed, k - 1);
      RestOfFree(lines, block, inside, installed);
      TextFront(lines[0], front);
      PrependTwice(lines[0], Text(front), r);
      PrependTwice("", "", r);
      FrontOfOutside(lines[0], front, OutsideLines(lines[k..], inside));
    }
  }

  lemma FrontOfOutside(line: string, front: seq<string>, rest: seq<string>)
    ensures [line] + (front + rest) == [line] + front + rest && [] + ([] + rest) == rest
  {}

  /** Two newline-marked lines around lines without marks. */
  ghost predicate WellFormed(block: string, body: string) {
    && block == ZSH_COMPLETION_START + "\n" + body + ZSH_COMPLETION_END + "\n"
    && EndsLine(body) && MarkFree(SplitAfter(body))
  }

  /** Exactly one marked block: nothing before or after it is marked. */
  ghost predicate OneBlock(out: string, before: string, block: string, after: string) {
    && out == before + block + after && EndsLine(before)
    && MarkFree(SplitAfter(before)) && MarkFree(SplitAfter(after))
  }

  /** The text is that of the lines in front of a start marker. */
  ghost predicate StartsBlock(lines: seq<string>, before: string) {
    exists k :: 0 <= k < |lines| && MarkOf(lines[k]).StartMark? && before == Text(lines[..k])
  }

  lemma FirstStart(lines: seq<string>) returns (k: nat)
    ensures k <= |lines| && MarkFree(lines[..k]) && (k < |lines| ==> !MarkOf(lines[k]).NoMark?)
  {
    hide MarkOf;
    k := 0;
    while k < |lines| && MarkOf(lines[k]).NoMark?
      invariant k <= |lines| && MarkFree(lines[..k])
    {
      k := k + 1;
    }
  }

  lemma TextOfNothing(lines: seq<string>)
    ensures lines + [] == lines && Text([]) == ""
  {}

  function Appended(content: string): string {
    content + (if EndsLine(content) then "" else "\n")
  }

  /**
   * A successful rewriting leaves exactly one block.  The text outside of the
   * blocks is kept; only an appended block may have a newline put before it.
   */
  lemma KeepsOutside(content: string, block: string) returns (before: string, after: string)
    requires Updated(content, block).Some?
    ensures OneBlock(Updated(content, block).value, before, block, after)
    ensures if Marks(SplitAfter(content)) == []
            then after == "" && Outside(content) == content && before == Appended(content)
            else before + after == Outside(content) && StartsBlock(SplitAfter(content), before)
  {
    hide MarkOf, SplitAfter, Rest, OutsideLines, Updated, OneBlock, Outside, Text;
    var k := FirstStart(SplitAfter(content));
    MarksAfterFree(SplitAfter(content), k);
    if k == |SplitAfter(content)| {
      before, after := Appended(content), "";
      Appends(content, block);
    } else {
      before, after := Replaces(content, block, k);
    }
  }

  lemma Appends(content: string, block: string)
    requires MarkFree(SplitAfter(content))
    ensures Updated(content, block) == Some(Appended(content) + block)
    ensures OneBlock(Appended(content) + block, Appended(content), block, "") && Outside(content) == content
  {
    hide MarkOf, SplitAfter, Rest, OutsideLines;
    var lines := SplitAfter(content);
    SplitIsProper(content);
    RestAfterFree(lines, block, false, false, |lines|);
    assert lines[..|lines|] == lines && lines[|lines|..] == [];
    RestNothing(block);
    TextOfNothing(lines);
    MarkFreeAppended(content);
    assert content + "" == content;
    assert Appended(content) + block + "" == Appended(content) + block;
  }

  lemma Replaces(content: string, block: string, k: nat) returns (before: string, after: string)
    requires Updated(content, block).Some?
    requires
      var lines := SplitAfter(content);
      k < |lines| && MarkFree(lines[..k]) && !MarkOf(lines[k]).NoMark?
    ensures OneBlock(Updated(content, block).value, before, block, after) && before + after == Outside(content)
    ensures StartsBlock(SplitAfter(content), before)
  {
    hide MarkOf, SplitAfter, Rest, OutsideLines, Text, IsLine;
    var lines := SplitAfter(content);
    SplitIsProper(content);
    RestAfterFree(lines, block, false, false, k);
    RestAtStart(lines[k..], block);
    RestInstalled(lines[k + 1..], block, true);
    assert lines[k..][1..] == lines[k + 1..];
    var outside := OutsideLines(lines[k + 1..], true);
    before, after := Text(lines[..k]), Text(outside);
    assert before + (block + after) == before + block + after;
    TextConcat(lines[..k], outside);
    MarkFreeText(lines[..k]);
    assert Proper(lines[k + 1..]);
    OutsideIsProper(lines[k + 1..], true);
    MarkFreeText(outside);
    assert MarkOf(lines[k]).StartMark?;
    LinesEnd(lines[..k]);
    TextEndsLine(lines[..k]);
  }

  lemma LinesEnd(lines: seq<string>)
    requires forall i :: 0 <= i < |lines| ==> IsLine(lines[i])
    ensures forall i :: 0 <= i < |lines| ==> EndsLine(lines[i])
  {}

  lemma RestNothing(block: string)
    ensures Rest([], block, false, false) == Rewritten("", false) && OutsideLines([], false) == []
  {}

  lemma RestAtStart(lines: seq<string>, block: string)
    requires lines != [] && !MarkOf(lines[0]).NoMark? && Rest(lines, block, false, false).Rewritten?
    ensures Rest(lines, block, false, false) == Prepend(block, Rest(lines[1..], block, true, true))
    ensures OutsideLines(lines, false) == OutsideLines(lines[1..], true) && MarkOf(lines[0]).StartMark?
  {
    hide MarkOf;
  }

  lemma {:induction false} MarksAfterFree(lines: seq<string>, k: nat)
    requires k <= |lines| && MarkFree(lines[..k]) && (k < |lines| ==> !MarkOf(lines[k]).NoMark?)
    ensures Marks(lines) == [] <==> k == |lines|
    decreases k
  {
    hide MarkOf;
    if k > 0 {
      assert lines[..k][0] == lines[0] && lines[1..][..k - 1] == lines[..k][1..];
      MarksAfterFree(lines[1..], k - 1);
    }
  }

  lemma {:induction false} TextConcat(a: seq<string>, b: seq<string>)
    ensures Text(a + b) == Text(a) + Text(b)
    decreases |a|
  {
    if a == [] {
      assert a + b == b;
    } else {
      TextConcat(a[1..], b);
      assert (a + b)[1..] == a[1..] + b;
      assert a[0] + (Text(a[1..]) + Text(b)) == a[0] + Text(a[1..]) + Text(b);
    }
  }

  lemma {:induction false} TextEndsLine(lines: seq<string>)
    requires forall i :: 0 <= i < |lines| ==> EndsLine(lines[i])
    ensures EndsLine(Text(lines))
  {
    if lines != [] {
      TextEndsLine(lines[1..]);
    }
  }

  lemma MarkFreeAppended(content: string)
    requires MarkFree(SplitAfter(content))
    ensures
      var before := Appended(content);
      EndsLine(before) && MarkFree(SplitAfter(before)) && MarkFree(SplitAfter(""))
  {
    hide MarkOf, SplitAfter;
    EmptyIsNoMark();
    SplitLast("");
    if EndsLine(content) {
      assert content + "" == content;
    } else {
      SplitIsProper(content);
      var lines := SplitAfter(content);
      var front, last := lines[..|lines| - 1], lines[|lines| - 1];
      assert lines == front + [last];
      AddNewline(front, last);
      MarkFreeText(front + [last + "\n"]);
    }
  }

  lemma AddNewline(front: seq<string>, last: string)
    requires Proper(front + [last]) && MarkFree(front + [last]) && '\n' !in last
    ensures Text(front + [last + "\n"]) == Text(front + [last]) + "\n"
    ensures Proper(front + [last + "\n"]) && MarkFree(front + [last + "\n"])
  {
    hide MarkOf, Text, IsLine;
    var lines := front + [last];
    TextOfLast(front, last);
    TextOfLast(front, last + "\n");
    assert Text(front) + (last + "\n") == Text(front) + last + "\n";
    assert forall i :: 0 <= i < |front| ==> lines[i] == front[i];
    assert lines[|front|] == last;
    NewlineIsNoMark(last);
    NewlineEnds(last);
  }

  lemma NewlineEnds(line: string)
    requires '\n' !in line
    ensures IsLine(line + "\n")
  {
    assert (line + "\n")[..|line|] == line;
  }

  lemma TextOfLast(lines: seq<string>, last: string)
    ensures Text(lines + [last]) == Text(lines) + last
  {
    hide Text;
    TextConcat(lines, [last]);
    OneLineText(last);
  }

  lemma OneLineText(line: string)
    ensures Text([line]) == line
  {
    assert [line][1..] == [] && line + "" == line;
  }

  lemma NewlineIsNoMark(line: string)
    requires MarkOf(line).NoMark? && '\n' !in line
    ensures MarkOf(line + "\n").NoMark?
  {
    assert (line + "\n")[..|line|] == line;
    assert TrimSuffix(line, '\n') == line;
  }

  /** What has exactly one block, and that block the one to install, stays as it is. */
  lemma OneBlockStays(before: string, block: string, body: string, after: string)
    requires WellFormed(block, body) && OneBlock(before + block + after, before, block, after)
    ensures Updated(before + block + after, block) == Some(before + block + after)
  {
    hide MarkOf, SplitAfter, Rest, OutsideLines;
    var a, b, c := FullLines(before), FullLines(body), SplitAfter(after);
    OneBlockLines(before, block, body, after);
    MarkLines();
    RestOfOneBlock(a, ZSH_COMPLETION_START + "\n", b, ZSH_COMPLETION_END + "\n", c, block);
    FullText(before);
    SplitIsProper(after);
  }

  lemma OneBlockLines(before: string, block: string, body: string, after: string)
    requires WellFormed(block, body) && EndsLine(before)
    ensures
      var start, end := ZSH_COMPLETION_START + "\n", ZSH_COMPLETION_END + "\n";
      SplitAfter(before + block + after) ==
      FullLines(before) + ([start] + (FullLines(body) + ([end] + SplitAfter(after))))
  {
    hide SplitAfter, MarkOf, EndsLine, FullLines, IsLine;
    var start, end := ZSH_COMPLETION_START + "\n", ZSH_COMPLETION_END + "\n";
    assert before + block + after == before + (start + (body + (end + after)));
    MarkLines();
    SplitConcat(before, start + (body + (end + after)));
    SplitLine(start, body + (end + after));
    SplitConcat(body, end + after);
    SplitLine(end, after);
  }

  lemma RestOfOneBlock(a: seq<string>, start: string, b: seq<string>, end: string, c: seq<string>, block: string)
    requires MarkFree(a) && MarkFree(b) && MarkFree(c) && MarkOf(start).StartMark? && MarkOf(end).EndMark?
    ensures Rest(a + ([start] + (b + ([end] + c))), block, false, false) == Rewritten(Text(a) + block + Text(c), true)
  {
    hide MarkOf, Rest, OutsideLines;
    var inner := b + ([end] + c);
    var lines := a + ([start] + inner);
    assert lines[..|a|] == a && lines[|a|..] == [start] + inner;
    RestAfterFree(lines, block, false, false, |a|);
    RestStart(start, inner, block);
    assert inner[..|b|] == b && inner[|b|..] == [end] + c;
    RestAfterFree(inner, block, true, true, |b|);
    RestEnd(end, c, block);
    assert c[..|c|] == c && c[|c|..] == [];
    RestAfterFree(c, block, false, true, |c|);
    RestDone(block);
    assert Text(c) + "" == Text(c) && "" + Text(c) == Text(c);
    assert Text(a) + (block + Text(c)) == Text(a) + block + Text(c);
  }

  lemma RestStart(line: string, rest: seq<string>, block: string)
    requires MarkOf(line).StartMark?
    ensures Rest([line] + rest, block, false, false) == Prepend(block, Rest(rest, block, true, true))
  {
    hide MarkOf;
    assert ([line] + rest)[1..] == rest;
  }

  lemma RestEnd(line: string, rest: seq<string>, block: string)
    requires MarkOf(line).EndMark?
    ensures Rest([line] + rest, block, true, true) == Rest(rest, block, false, true)
  {
    hide MarkOf;
    assert ([line] + rest)[1..] == rest;
  }

  lemma RestDone(block: string)
    ensures Rest([], block, false, true) == Rewritten("", true)
  {}

  lemma FullText(s: string)
    requires EndsLine(s)
    ensures Text(FullLines(s)) == s
  {
    hide SplitAfter, Text, Proper;
    SplitIsProper(s);
    var lines := FullLines(s);
    assert SplitAfter(s) == lines + [""];
    TextConcat(lines, [""]);
    OneLineText("");
    assert Text(lines) + "" == Text(lines);
  }

  lemma MarkLines()
    ensures MarkOf(ZSH_COMPLETION_START + "\n") == StartMark && MarkOf(ZSH_COMPLETION_END + "\n") == EndMark
    ensures IsLine(ZSH_COMPLETION_START + "\n") && IsLine(ZSH_COMPLETION_END + "\n")
  {
    assert (ZSH_COMPLETION_START + "\n")[..|ZSH_COMPLETION_START|] == ZSH_COMPLETION_START;
    assert (ZSH_COMPLETION_END + "\n")[..|ZSH_COMPLETION_END|] == ZSH_COMPLETION_END;
  }

  /** Installing the same block again changes nothing. */
  lemma InstallingAgainChangesNothing(content: string, block: string, body: string)
    requires WellFormed(block, body) && Updated(content, block).Some?
    ensures Updated(Updated(content, block).value, block) == Updated(content, block)
  {
    hide Updated, WellFormed, SplitAfter;
    var before, after := KeepsOutside(content, block);
    OneBlockStays(before, block, body, after);
  }

  // ------------------------------------------------------------------
  // The block that an installation writes.

  function LoaderBody(scriptPath: string): string {
    var path := ProcessCommand.QuoteZshPath(scriptPath);
    "if [[ -r " + path + " ]]; then\n" + ("  source " + path + "\n" + "fi\n")
  }

  function LoaderBlock(scriptPath: string): string {
    ZSH_COMPLETION_START + "\n" + LoaderBody(scriptPath) + ZSH_COMPLETION_END + "\n"
  }

  lemma {:induction false} QuotedHasNoNewline(s: string)
    requires '\n' !in s
    ensures '\n' !in ProcessCommand.EscapeQuotes(s)
  {
    if s != "" {
      QuotedHasNoNewline(s[1..]);
    }
  }

  lemma OtherStartIsNoMark(line: string)
    requires |line| > 2 && line[0] != '#'
    ensures MarkOf(line) == NoMark
  {
    var marker := TrimSuffix(TrimSuffix(line, '\n'), '\r');
    assert marker != "" && marker[0] == line[0];
  }

  /** The block is well formed whenever the path of the script has no newline. */
  lemma LoaderBlockIsWellFormed(scriptPath: string)
    requires '\n' !in scriptPath
    ensures WellFormed(LoaderBlock(scriptPath), LoaderBody(scriptPath))
  {
    hide MarkOf, SplitAfter, Head, Tail;
    var path := ProcessCommand.QuoteZshPath(scriptPath);
    QuotedHasNoNewline(scriptPath);
    var test, load, fi := "if [[ -r " + path + " ]]; then\n", "  source " + path + "\n", "fi\n";
    assert test[..|test| - 1] == "if [[ -r " + path + " ]]; then";
    assert load[..|load| - 1] == "  source " + path;
    assert fi[..2] == "fi";
    SplitLine(test, load + fi);
    SplitLine(load, fi);
    assert fi + "" == fi;
    SplitLine(fi, "");
    SplitLast("");
    OtherStartIsNoMark(test);
    OtherStartIsNoMark(load);
    OtherStartIsNoMark(fi);
    EmptyIsNoMark();
    assert SplitAfter(LoaderBody(scriptPath)) == [test] + ([load] + ([fi] + [""]));
  }

  // ------------------------------------------------------------------
  // What a shell reads in it.

  function Letters(s: string): seq<ProcessCommand.Piece> {
    seq(|s|, i requires 0 <= i < |s| => ProcessCommand.Literal(s[i]))
  }

  lemma {:induction false} LettersText(s: string)
    ensures ProcessCommand.WordText(Letters(s)) == s && ProcessCommand.WordMeans(Letters(s)) == s
  {
    if s != "" {
      LettersText(s[1..]);
      assert Letters(s)[1..] == Letters(s[1..]) && s == [s[0]] + s[1..];
    }
  }

  lemma QuotedWord(scriptPath: string) returns (word: seq<ProcessCommand.Piece>)
    ensures ProcessCommand.ValidWord(word) && word[|word| - 1].InSingle?
    ensures ProcessCommand.WordText(word) == ProcessCommand.QuoteZshPath(scriptPath)
    ensures ProcessCommand.WordMeans(word) == scriptPath
  {
    hide ProcessCommand.QuotePieces, ProcessCommand.WordText, ProcessCommand.WordMeans, ProcessCommand.ValidWord;
    hide ProcessCommand.EscapeQuotes;
    word := ProcessCommand.QuotePieces("", scriptPath);
    ProcessCommand.QuotePiecesText("", scriptPath);
    ProcessCommand.QuotePiecesValid("", scriptPath);
    assert "" + scriptPath == scriptPath;
    assert "'" + "" + ProcessCommand.EscapeQuotes(scriptPath) + "'" == ProcessCommand.QuoteZshPath(scriptPath);
  }

  lemma TwoWords(a: string, b: seq<ProcessCommand.Piece>)
    requires ProcessCommand.ValidWord(Letters(a)) && ProcessCommand.ValidWord(b) && b[|b| - 1].InSingle? && a != ""
    ensures ProcessCommand.Split(a + " " + ProcessCommand.WordText(b)) ==
            ProcessCommand.Args([a, ProcessCommand.WordMeans(b)])
  {
    hide ProcessCommand.Split, ProcessCommand.WordText, ProcessCommand.WordMeans, ProcessCommand.ValidWord;
    var words, gaps := [Letters(a), b], [" "];
    LettersText(a);
    assert words[..1] == [Letters(a)] && gaps[..0] == [];
    assert ProcessCommand.LineText(words, gaps) == a + " " + ProcessCommand.WordText(b);
    ProcessCommand.SplitReadsWords(words, gaps);
    assert ProcessCommand.LineMeans(words) == [a, ProcessCommand.WordMeans(b)];
  }

  lemma FourWords(a: string, b: string, c: seq<ProcessCommand.Piece>, d: string)
    requires ProcessCommand.ValidWord(Letters(a)) && ProcessCommand.ValidWord(Letters(b)) && a != "" && d != ""
    requires ProcessCommand.ValidWord(c) && ProcessCommand.ValidWord(Letters(d))
    ensures ProcessCommand.Split(a + " " + b + " " + ProcessCommand.WordText(c) + " " + d) ==
            ProcessCommand.Args([a, b, ProcessCommand.WordMeans(c), d])
  {
    hide ProcessCommand.Split, ProcessCommand.WordText, ProcessCommand.WordMeans, ProcessCommand.ValidWord;
    var words, gaps := [Letters(a), Letters(b), c, Letters(d)], [" ", " ", " "];
    LettersText(a);
    LettersText(b);
    LettersText(d);
    assert words[..3] == [Letters(a), Letters(b), c] && gaps[..2] == [" ", " "];
    assert words[..3][..2] == [Letters(a), Letters(b)] && gaps[..2][..1] == [" "];
    assert words[..3][..2][..1] == [Letters(a)] && gaps[..2][..1][..0] == [];
    assert ProcessCommand.LineText(words[..3][..2], [" "]) == a + " " + b;
    assert ProcessCommand.LineText(words[..3], [" ", " "]) == a + " " + b + " " + ProcessCommand.WordText(c);
    assert ProcessCommand.LineText(words, gaps) == a + " " + b + " " + ProcessCommand.WordText(c) + " " + d;
    ProcessCommand.SplitReadsWords(words, gaps);
    assert ProcessCommand.LineMeans(words) == [a, b, ProcessCommand.WordMeans(c), d];
  }

  /**
   * Between its two marker lines the block tests and sources the script: read by
   * the quoting rules of a shell, which `ProcessCommand.Split` follows, the words
   * of both commands hold the very path, whatever characters are in it.
   */
  lemma LoaderSourcesScript(scriptPath: string) returns (test: string, load: string)
    ensures LoaderBlock(scriptPath) ==
            "# >>> ecctl completion zsh >>>" + "\n"
            + (("if " + test + "; then\n") + ("  " + load + "\n" + "fi\n"))
            + "# <<< ecctl completion zsh <<<" + "\n"
    ensures ProcessCommand.Split(test) == ProcessCommand.Args(["[[", "-r", scriptPath, "]]"])
    ensures ProcessCommand.Split(load) == ProcessCommand.Args(["source", scriptPath])
  {
    hide ProcessCommand.Split, ProcessCommand.WordText, ProcessCommand.WordMeans, ProcessCommand.QuoteZshPath;
    var word := QuotedWord(scriptPath);
    var path := ProcessCommand.QuoteZshPath(scriptPath);
    test, load := "[[ -r " + path + " ]]", "source " + path;
    TwoWords("source", word);
    FourWords("[[", "-r", word, "]]");
    CommandTexts(path);
  }

  lemma CommandTexts(path: string)
    ensures "[[" + " " + "-r" + " " + path + " " + "]]" == "[[ -r " + path + " ]]"
    ensures "source" + " " + path == "source " + path && "  " + ("source " + path) == "  source " + path
    ensures "if [[ -r " + path + " ]]; then\n" == "if " + ("[[ -r " + path + " ]]") + "; then\n"
  {
    var a, b := "if [[ -r " + path + " ]]; then\n", "if " + ("[[ -r " + path + " ]]") + "; then\n";
    assert |a| == |b| && a[..9] == b[..9] && a[9..9 + |path|] == b[9..9 + |path|] && a[9 + |path|..] == b[9 + |path|..];
  }
}
