/**
 * pkg/aliyun/credentials.go: how a `process_command` is split on Windows, by
 * the rules of CommandLineToArgvW for backslashes and double quotes.
 */
module WindowsCommand {
  import opened ProcessCommand
  import opened Strings

  datatype Words = Words(args: seq<string>, current: string, hasToken: bool, inQuotes: bool)

  const FIRST := Words([], "", false, false)

  function Close(t: Words): Words {
    if t.hasToken then t.(args := t.args + [t.current], current := "", hasToken := false) else t
  }

  function Write(t: Words, text: string): Words {
    t.(current := t.current + text, hasToken := true)
  }

  function Backslashes(n: nat): string {
    seq(n, i => '\\')
  }

  /** How many backslashes `s` starts with. */
  function Lead(s: string): (n: nat)
    ensures n <= |s| && (forall k :: 0 <= k < n ==> s[k] == '\\') && (n < |s| ==> s[n] != '\\')
  {
    if s == "" || s[0] != '\\' then 0 else 1 + Lead(s[1..])
  }

  /** A quote after `n` backslashes: half of them stand, an odd one makes the quote a plain character. */
  function AtQuote(t: Words, n: nat): Words {
    var u := Write(t, Backslashes(n / 2));
    if n % 2 == 0 then u.(inQuotes := !u.inQuotes) else Write(u, "\"")
  }

  /** What the scanner makes of the rest `s` when it has come to state `t`. */
  function Read(s: string, t: Words): Result
    decreases |s|
  {
    var n := Lead(s);
    if s == "" then Finish(Close(t).args)
    else if n < |s| && s[n] == '"' then Read(s[n + 1..], AtQuote(t, n))
    else if n > 0 then Read(s[n..], Write(t, Backslashes(n)))
    else if IsSpace(s[0]) && !t.inQuotes then Read(s[1..], Close(t))
    else Read(s[1..], Write(t, [s[0]]))
  }

  function SplitWindows(command: string): Result {
    var trimmed := TrimSpace(command);
    if trimmed == "" then Error(Empty) else Read(trimmed, FIRST)
  }

  lemma ReadSpace(s: string, t: Words)
    requires s != "" && IsSpace(s[0]) && !t.inQuotes
    ensures Read(s, t) == Read(s[1..], Close(t))
  {}

  lemma ReadPlain(s: string, t: Words)
    requires s != "" && s[0] != '\\' && s[0] != '"' && (t.inQuotes || !IsSpace(s[0]))
    ensures Read(s, t) == Read(s[1..], Write(t, [s[0]]))
  {}

  lemma ReadQuote(s: string, t: Words)
    requires Lead(s) < |s| && s[Lead(s)] == '"'
    ensures Read(s, t) == Read(s[Lead(s) + 1..], AtQuote(t, Lead(s)))
  {}

  lemma ReadBackslashes(s: string, t: Words)
    requires Lead(s) > 0 && !(Lead(s) < |s| && s[Lead(s)] == '"')
    ensures Read(s, t) == Read(s[Lead(s)..], Write(t, Backslashes(Lead(s))))
  {}

  /** splitWindowsCredentialProcessCommand, with the trimming its caller does. */
  method SplitWindowsCredentialProcessCommand(command: string) returns (r: Result)
    ensures r == SplitWindows(command)
  {
    hide Read, TrimSpace, IsSpace;
    var runes := TrimSpace(command);
    if runes == "" { return Error(Empty); }
    var args: seq<string>, i := [], 0;
    assert runes[0..] == runes;
    while i < |runes|
      invariant 0 <= i <= |runes| && Read(runes[i..], Words(args, "", false, false)) == Read(runes, FIRST)
    {
      i := SkipSpaces(runes, args, i);
      if i == |runes| { break; }
      var current, hasToken;
      i, current, hasToken := ReadWord(runes, args, i);
      if hasToken { args := args + [current]; }
    }
    assert runes[i..] == "";
    ReadEnd(Words(args, "", false, false));
    if args == [] || args[0] == "" { return Error(Empty); }
    r := Args(args);
  }

  /** The loop over the characters of one word. */
  method ReadWord(runes: string, ghost args: seq<string>, start: nat)
    returns (i: nat, current: string, hasToken: bool)
    requires start < |runes| && !IsSpace(runes[start])
    ensures start < i <= |runes| && hasToken
    ensures Read(runes[i..], Words(args + [current], "", false, false)) ==
            Read(runes[start..], Words(args, "", false, false))
  {
    hide Read, IsSpace, Lead, Finish;
    i, current, hasToken := start, "", false;
    var inQuotes := false;
    while i < |runes|
      invariant start <= i <= |runes| && (hasToken <==> i > start)
      invariant Read(runes[i..], Words(args, current, hasToken, inQuotes)) ==
                Read(runes[start..], Words(args, "", false, false))
    {
      ghost var t := Words(args, current, hasToken, inQuotes);
      if IsSpace(runes[i]) && !inQuotes { break; }
      if runes[i] != '\\' {
        assert runes[i..][1..] == runes[i + 1..];
        if runes[i] == '"' {
          LeadIs(runes[i..], 0);
          ReadQuote(runes[i..], t);
          assert current + Backslashes(0) == current;
          inQuotes := !inQuotes;
          hasToken := true;
          i := i + 1;
          continue;
        }
        ReadPlain(runes[i..], t);
        current := current + [runes[i]];
        hasToken := true;
        i := i + 1;
        continue;
      }
      ghost var rest := runes[i..];
      var backslashes := CountBackslashes(runes, i);
      i := i + backslashes;
      assert rest[backslashes..] == runes[i..];
      if i < |runes| && runes[i] == '"' {
        ReadQuote(rest, t);
        assert rest[backslashes + 1..] == runes[i + 1..];
        assert rest[backslashes] == '"';
        current := current + Backslashes(backslashes / 2);
        if backslashes % 2 == 0 {
          inQuotes := !inQuotes;
        } else {
          current := current + ['"'];
        }
        hasToken := true;
        i := i + 1;
        continue;
      }
      ReadBackslashes(rest, t);
      current := current + Backslashes(backslashes);
      hasToken := true;
    }
    ghost var t := Words(args, current, hasToken, inQuotes);
    if i < |runes| {
      NextWord(runes[i..], t);
    } else {
      assert runes[i..] == "";
      ReadEnd(t);
      ReadEnd(Words(args + [current], "", false, false));
    }
  }

  /** The loop over a run of backslashes. */
  method CountBackslashes(runes: string, start: nat) returns (backslashes: nat)
    requires start < |runes| && runes[start] == '\\'
    ensures 0 < backslashes <= |runes| - start && backslashes == Lead(runes[start..])
  {
    backslashes := 0;
    while start + backslashes < |runes| && runes[start + backslashes] == '\\'
      invariant backslashes <= |runes| - start
      invariant forall k :: 0 <= k < backslashes ==> runes[start..][k] == '\\'
    {
      backslashes := backslashes + 1;
    }
    LeadIs(runes[start..], backslashes);
  }

  /** The loop over the spaces before a word. */
  method SkipSpaces(runes: string, ghost args: seq<string>, start: nat) returns (i: nat)
    requires start <= |runes|
    ensures start <= i <= |runes| && (i < |runes| ==> !IsSpace(runes[i]))
    ensures Read(runes[i..], Words(args, "", false, false)) == Read(runes[start..], Words(args, "", false, false))
  {
    hide Read, IsSpace;
    i := start;
    while i < |runes| && IsSpace(runes[i])
      invariant start <= i <= |runes|
      invariant Read(runes[i..], Words(args, "", false, false)) == Read(runes[start..], Words(args, "", false, false))
    {
      ReadSpace(runes[i..], Words(args, "", false, false));
      assert runes[i..][1..] == runes[i + 1..];
      i := i + 1;
    }
  }

  lemma ReadEnd(t: Words)
    ensures Read("", t) == Finish(Close(t).args)
  {}

  /** A space that ends a word can as well be read by the next one. */
  lemma NextWord(s: string, t: Words)
    requires s != "" && IsSpace(s[0]) && !t.inQuotes && t.hasToken
    ensures Read(s, t) == Read(s, Words(t.args + [t.current], "", false, false))
  {}

  lemma LeadIs(s: string, n: nat)
    requires n <= |s| && (forall k :: 0 <= k < n ==> s[k] == '\\') && (n < |s| ==> s[n] != '\\')
    ensures Lead(s) == n
  {
    hide Lead;
  }

  // ------------------------------------------------------------------
  // What a command line means.  A word is made of parts, each with a run of
  // backslashes before it: a plain character, behind which the run stands as it
  // is; a quote that stands for itself, behind an odd run; and a quote that opens
  // or closes a quoted stretch anywhere in the word, behind an even run.

  datatype Part = Char(backslashes: nat, c: char) | Mark(backslashes: nat) | Toggle(backslashes: nat)

  /** The parts of a word and the backslashes at its end. */
  datatype Word = Word(parts: seq<Part>, backslashes: nat)

  function PartText(p: Part): string {
    match p
    case Char(n, c) => Backslashes(n) + [c]
    case Mark(n) => Backslashes(2 * n + 1) + "\""
    case Toggle(n) => Backslashes(2 * n) + "\""
  }

  function PartMeans(p: Part): string {
    match p
    case Char(n, c) => Backslashes(n) + [c]
    case Mark(n) => Backslashes(n) + "\""
    case Toggle(n) => Backslashes(n)
  }

  function PartsText(parts: seq<Part>): string {
    if parts == [] then "" else PartText(parts[0]) + PartsText(parts[1..])
  }

  function PartsMean(parts: seq<Part>): string {
    if parts == [] then "" else PartMeans(parts[0]) + PartsMean(parts[1..])
  }

  /** Whether a quoted stretch is open behind the parts, when `open` says so before them. */
  function OpenBehind(parts: seq<Part>, open: bool): bool {
    if parts == [] then open else OpenBehind(parts[1..], if parts[0].Toggle? then !open else open)
  }

  /** A space is part of a word only in a quoted stretch. */
  predicate ValidParts(parts: seq<Part>, open: bool) {
    parts != [] ==>
      && (parts[0].Char? ==> parts[0].c != '\\' && parts[0].c != '"' && (open || !IsSpace(parts[0].c)))
      && ValidParts(parts[1..], if parts[0].Toggle? then !open else open)
  }

  function WordText(w: Word): string {
    PartsText(w.parts) + Backslashes(w.backslashes)
  }

  function WordMeans(w: Word): string {
    PartsMean(w.parts) + Backslashes(w.backslashes)
  }

  predicate ValidWord(w: Word) {
    ValidParts(w.parts, false) && (w.parts != [] || w.backslashes > 0)
  }

  /** The words with a gap between each two. */
  function WordsText(words: seq<Word>, gaps: seq<string>): string
    requires words != [] && |gaps| == |words| - 1
    decreases |words|
  {
    var n := |gaps|;
    if n == 0 then WordText(words[0]) else WordsText(words[..n], gaps[..n - 1]) + gaps[n - 1] + WordText(words[n])
  }

  function WordsMean(words: seq<Word>): seq<string> {
    seq(|words|, i requires 0 <= i < |words| => WordMeans(words[i]))
  }

  /** Only the last word may leave a quoted stretch open. */
  predicate ValidWords(words: seq<Word>, gaps: seq<string>) {
    && words != [] && |gaps| == |words| - 1
    && (forall i :: 0 <= i < |words| ==> ValidWord(words[i]))
    && (forall i :: 0 <= i < |gaps| ==> ValidGap(gaps[i]) && !OpenBehind(words[i].parts, false))
  }

  lemma ReadPart(p: Part, rest: string, t: Words)
    requires p.Char? ==> p.c != '\\' && p.c != '"' && (t.inQuotes || !IsSpace(p.c))
    ensures
      Read(PartText(p) + rest, t) ==
      Read(rest, Words(t.args, t.current + PartMeans(p), true, if p.Toggle? then !t.inQuotes else t.inQuotes))
  {
    hide Read, IsSpace;
    match p
    case Char(n, c) =>
      assert PartText(p) + rest == Backslashes(n) + ([c] + rest);
      ReadRunBeforePlain(n, c, rest, t);
      assert t.current + Backslashes(n) + [c] == t.current + PartMeans(p);
    case Mark(n) =>
      assert PartText(p) + rest == Backslashes(2 * n + 1) + ("\"" + rest);
      ReadRunBeforeQuote(2 * n + 1, rest, t);
      assert t.current + Backslashes(n) + "\"" == t.current + PartMeans(p);
    case Toggle(n) =>
      assert PartText(p) + rest == Backslashes(2 * n) + ("\"" + rest);
      ReadRunBeforeQuote(2 * n, rest, t);
  }

  lemma {:induction false} ReadParts(parts: seq<Part>, rest: string, t: Words)
    requires ValidParts(parts, t.inQuotes)
    ensures
      Read(PartsText(parts) + rest, t) ==
      Read(rest, Words(t.args, t.current + PartsMean(parts), t.hasToken || parts != [], OpenBehind(parts, t.inQuotes)))
    decreases |parts|
  {
    hide Read, IsSpace, PartText, PartMeans;
    if parts == [] {
      assert PartsText(parts) + rest == rest && t.current + PartsMean(parts) == t.current;
    } else {
      var p := parts[0];
      var u := Words(t.args, t.current + PartMeans(p), true, if p.Toggle? then !t.inQuotes else t.inQuotes);
      assert PartsText(parts) + rest == PartText(p) + (PartsText(parts[1..]) + rest);
      ReadPart(p, PartsText(parts[1..]) + rest, t);
      ReadParts(parts[1..], rest, u);
      assert u.current + PartsMean(parts[1..]) == t.current + PartsMean(parts);
    }
  }

  lemma ReadWordText(w: Word, rest: string, args: seq<string>)
    requires ValidWord(w) && (rest == "" || (IsSpace(rest[0]) && !OpenBehind(w.parts, false)))
    ensures
      Read(WordText(w) + rest, Words(args, "", false, false)) ==
      Read(rest, Words(args, WordMeans(w), true, OpenBehind(w.parts, false)))
  {
    hide Read, IsSpace, PartsText, PartsMean, ValidParts, OpenBehind;
    var n, t := w.backslashes, Words(args, "", false, false);
    var u := Words(args, PartsMean(w.parts), w.parts != [], OpenBehind(w.parts, false));
    assert WordText(w) + rest == PartsText(w.parts) + (Backslashes(n) + rest);
    assert "" + PartsMean(w.parts) == PartsMean(w.parts);
    ReadParts(w.parts, Backslashes(n) + rest, t);
    if n == 0 {
      assert Backslashes(n) + rest == rest && WordMeans(w) == PartsMean(w.parts);
    } else {
      var s := Backslashes(n) + rest;
      assert rest != "" ==> rest[0] != '\\' && rest[0] != '"' by { MarksAreNoSpaces(); }
      assert s[n..] == rest;
      LeadIs(s, n);
      ReadBackslashes(s, u);
    }
  }

  lemma {:induction false} ReadWords(words: seq<Word>, gaps: seq<string>, rest: string)
    requires ValidWords(words, gaps)
    requires rest == "" || (IsSpace(rest[0]) && !OpenBehind(words[|gaps|].parts, false))
    ensures
      var n := |gaps|;
      Read(WordsText(words, gaps) + rest, FIRST) ==
      Read(rest, Words(WordsMean(words[..n]), WordMeans(words[n]), true, OpenBehind(words[n].parts, false)))
    decreases |words|
  {
    hide Read, IsSpace, WordText, WordMeans, ValidWord, OpenBehind;
    var n := |gaps|;
    if n == 0 {
      ReadWordText(words[0], rest, []);
      assert WordsMean(words[..0]) == [];
    } else {
      var tail := WordText(words[n]) + rest;
      var before := WordsMean(words[..n - 1]);
      assert words[..n][n - 1] == words[n - 1] && words[..n][..n - 1] == words[..n - 1];
      assert IsSpace((gaps[n - 1] + tail)[0]);
      ReadWords(words[..n], gaps[..n - 1], gaps[n - 1] + tail);
      assert WordsText(words, gaps) + rest == WordsText(words[..n], gaps[..n - 1]) + (gaps[n - 1] + tail);
      ReadGap(gaps[n - 1], tail, Words(before, WordMeans(words[n - 1]), true, false));
      assert before + [WordMeans(words[n - 1])] == WordsMean(words[..n]);
      ReadWordText(words[n], rest, WordsMean(words[..n]));
    }
  }

  lemma WordStarts(w: Word)
    requires ValidWord(w)
    ensures WordText(w) != "" && !IsSpace(WordText(w)[0])
  {
    hide IsSpace;
    MarksAreNoSpaces();
    if w.parts != [] {
      assert PartText(w.parts[0]) != "" && !IsSpace(PartText(w.parts[0])[0]);
    }
  }

  lemma {:induction false} WordsStart(words: seq<Word>, gaps: seq<string>)
    requires ValidWords(words, gaps)
    ensures WordsText(words, gaps) != "" && !IsSpace(WordsText(words, gaps)[0])
    decreases |words|
  {
    hide IsSpace, WordText, ValidWord;
    if |gaps| == 0 {
      WordStarts(words[0]);
    } else {
      WordsStart(words[..|gaps|], gaps[..|gaps| - 1]);
    }
  }

  /**
   * Every line of words, with any space around it, is split into what its words
   * mean; a quoted stretch may open and close anywhere in a word, and may be left
   * open at the end of the line.  A line without words, or with an empty command
   * name, is refused.
   */
  lemma SplitReadsWindowsWords(words: seq<Word>, gaps: seq<string>, lead: string, trail: string)
    requires AllSpaces(lead) && AllSpaces(trail)
    ensures SplitWindows(lead + trail) == Error(Empty)
    ensures
      ValidWords(words, gaps) && !IsSpace(WordsText(words, gaps)[|WordsText(words, gaps)| - 1]) ==>
        SplitWindows(lead + WordsText(words, gaps) + trail) ==
        if WordMeans(words[0]) == "" then Error(Empty) else Args(WordsMean(words))
  {
    hide Read, IsSpace, WordText, WordMeans, WordsText, TrimSpace, OpenBehind;
    TrimAround(lead, "", trail);
    assert lead + "" + trail == lead + trail;
    if ValidWords(words, gaps) {
      WordsStart(words, gaps);
      var n, text := |gaps|, WordsText(words, gaps);
      if !IsSpace(text[|text| - 1]) {
        TrimAround(lead, text, trail);
        ReadWords(words, gaps, "");
        assert text + "" == text;
        ReadEnd(Words(WordsMean(words[..n]), WordMeans(words[n]), true, OpenBehind(words[n].parts, false)));
        assert WordsMean(words[..n]) + [WordMeans(words[n])] == WordsMean(words);
      }
    }
  }

  /** A run of backslashes and the character behind it are one part. */
  lemma TakePart(s: string) returns (p: Part)
    requires Lead(s) < |s|
    ensures s == PartText(p) + s[Lead(s) + 1..]
    ensures if s[Lead(s)] == '"' then !p.Char? else p.Char? && p.c == s[Lead(s)] && p.c != '\\'
  {
    var n := Lead(s);
    p := if s[n] != '"' then Char(n, s[n]) else if n % 2 == 0 then Toggle(n / 2) else Mark(n / 2);
    assert s[..n] == Backslashes(n);
    assert PartText(p) == Backslashes(n) + [s[n]];
  }

  lemma NoParts(n: nat, open: bool)
    ensures WordText(Word([], n)) == Backslashes(n) && ValidParts([], open) && OpenBehind([], open) == open
  {
    assert "" + Backslashes(n) == Backslashes(n);
  }

  lemma PartInFront(p: Part, w: Word, open: bool)
    ensures
      var all, inside := Word([p] + w.parts, w.backslashes), if p.Toggle? then !open else open;
      && WordText(all) == PartText(p) + WordText(w)
      && OpenBehind(all.parts, open) == OpenBehind(w.parts, inside)
      && (ValidParts(w.parts, inside) && (p.Char? ==> p.c != '\\' && p.c != '"' && (open || !IsSpace(p.c)))
          ==> ValidParts(all.parts, open))
  {
    hide IsSpace, PartText, Backslashes;
    assert ([p] + w.parts)[1..] == w.parts;
  }

  /** Any text is parts, a run of backslashes, and what a space behind them leaves. */
  lemma {:induction false} TakeParts(s: string, open: bool) returns (w: Word, rest: string)
    ensures s == WordText(w) + rest && ValidParts(w.parts, open)
    ensures rest == "" || (IsSpace(rest[0]) && !OpenBehind(w.parts, open))
    ensures s != "" && (open || !IsSpace(s[0])) ==> w.parts != [] || w.backslashes > 0
    decreases |s|
  {
    hide IsSpace, PartText, OpenBehind, ValidParts, WordText;
    var n := Lead(s);
    if n == |s| || (IsSpace(s[n]) && !open) {
      w, rest := Word([], n), s[n..];
      NoParts(n, open);
      assert s[..n] == Backslashes(n);
    } else {
      var p := TakePart(s);
      var v;
      v, rest := TakeParts(s[n + 1..], if p.Toggle? then !open else open);
      w := Word([p] + v.parts, v.backslashes);
      PartInFront(p, v, open);
    }
  }

  lemma {:induction false} TakeGap(s: string) returns (gap: string, rest: string)
    requires s != "" && IsSpace(s[0])
    ensures s == gap + rest && ValidGap(gap) && (rest != "" ==> !IsSpace(rest[0]))
    decreases |s|
  {
    hide IsSpace;
    if |s| == 1 || !IsSpace(s[1]) {
      gap, rest := s[..1], s[1..];
    } else {
      var more;
      more, rest := TakeGap(s[1..]);
      gap := [s[0]] + more;
      assert s == [s[0]] + s[1..];
    }
  }

  /** The words of a line, put one in front. */
  lemma {:induction false} WordsInFront(w: Word, gap: string, words: seq<Word>, gaps: seq<string>)
    requires words != [] && |gaps| == |words| - 1
    ensures WordsText([w] + words, [gap] + gaps) == WordText(w) + gap + WordsText(words, gaps)
    decreases |words|
  {
    hide WordText;
    var n := |gaps|;
    var all, between := [w] + words, [gap] + gaps;
    if n == 0 {
      assert all[..1] == [w] && between[..0] == [];
      assert WordsText(all, between) == WordsText([w], []) + gap + WordText(words[0]);
    } else {
      WordsInFront(w, gap, words[..n], gaps[..n - 1]);
      assert all[..n + 1] == [w] + words[..n] && between[..n] == [gap] + gaps[..n - 1];
      assert between[n] == gaps[n - 1] && all[n + 1] == words[n];
    }
  }

  /** Every line is a line of words, so `SplitReadsWindowsWords` says what each of them means. */
  lemma {:induction false} EveryLineIsWords(s: string) returns (words: seq<Word>, gaps: seq<string>)
    requires s != "" && !IsSpace(s[0]) && !IsSpace(s[|s| - 1])
    ensures ValidWords(words, gaps) && WordsText(words, gaps) == s
    decreases |s|
  {
    hide IsSpace, WordText, ValidParts, OpenBehind;
    var w, rest := TakeParts(s, false);
    words, gaps := [w], [];
    if rest == "" {
      assert s == WordText(w);
    } else {
      var gap, tail := TakeGap(rest);
      assert tail != "" by { assert s[|s| - 1] == rest[|rest| - 1]; }
      assert s[|s| - 1] == tail[|tail| - 1];
      words, gaps := EveryLineIsWords(tail);
      WordsInFront(w, gap, words, gaps);
      assert s == WordText(w) + gap + tail;
      words, gaps := [w] + words, [gap] + gaps;
    }
  }

  // ------------------------------------------------------------------
  // The quoting that CommandLineToArgvW undoes: backslashes are doubled before
  // a quote, which gets one more, and before the closing quote.

  function Escape(s: string, quoted: bool): string
    decreases |s|
  {
    var n := Lead(s);
    if n == |s| then Backslashes(if quoted then 2 * n else n)
    else if s[n] == '"' then Backslashes(2 * n + 1) + "\"" + Escape(s[n + 1..], quoted)
    else Backslashes(n) + [s[n]] + Escape(s[n + 1..], quoted)
  }

  function Argument(s: string, quoted: bool): string {
    if quoted then "\"" + Escape(s, true) + "\"" else Escape(s, false)
  }

  predicate HasSpace(s: string) {
    exists i :: 0 <= i < |s| && IsSpace(s[i])
  }

  /** An argument that is empty or holds a space can only be written in quotes. */
  predicate Writable(s: string, quoted: bool) {
    quoted || (s != "" && !HasSpace(s))
  }

  function Closed(quoted: bool, tail: string): string {
    if quoted then "\"" + tail else tail
  }

  lemma {:induction false} ReadEscaped(s: string, quoted: bool, tail: string, t: Words)
    requires t.inQuotes == quoted
    requires !quoted ==> !HasSpace(s) && (tail == "" || IsSpace(tail[0]))
    ensures Read(Escape(s, quoted) + Closed(quoted, tail), t) ==
            Read(tail, Words(t.args, t.current + s, t.hasToken || s != "" || quoted, false))
    decreases |s|
  {
    hide Read, IsSpace, Escape, Closed, HasSpace;
    var n := Lead(s);
    if n == |s| {
      EscapeEnds(s, quoted);
      ReadLastRun(n, quoted, tail, t);
      assert s == Backslashes(n);
    } else {
      var rest := s[n + 1..];
      var text := Escape(rest, quoted) + Closed(quoted, tail);
      var u := Words(t.args, t.current + (Backslashes(n) + [s[n]]), true, quoted);
      RestHasSpace(s, n + 1);
      ReadOne(s, quoted, Closed(quoted, tail), t);
      ReadEscaped(rest, quoted, tail, u);
      assert Backslashes(n) + [s[n]] + rest == s;
      assert t.current + (Backslashes(n) + [s[n]]) + rest == t.current + (Backslashes(n) + [s[n]] + rest);
    }
  }

  /** One character that is no backslash, with the backslashes before it. */
  lemma ReadOne(s: string, quoted: bool, end: string, t: Words)
    requires t.inQuotes == quoted && Lead(s) < |s| && (!quoted ==> !HasSpace(s))
    ensures
      var n := Lead(s);
      Read(Escape(s, quoted) + end, t) ==
      Read(Escape(s[n + 1..], quoted) + end, Words(t.args, t.current + (Backslashes(n) + [s[n]]), true, quoted))
  {
    hide Read, IsSpace, Escape;
    var n := Lead(s);
    var text := Escape(s[n + 1..], quoted) + end;
    EscapeGoesOn(s, quoted);
    if s[n] == '"' {
      assert Escape(s, quoted) + end == Backslashes(2 * n + 1) + ("\"" + text);
      ReadRunBeforeQuote(2 * n + 1, text, t);
      assert t.current + Backslashes(n) + "\"" == t.current + (Backslashes(n) + [s[n]]);
    } else {
      assert Escape(s, quoted) + end == Backslashes(n) + ([s[n]] + text);
      assert quoted || !IsSpace(s[n]);
      ReadRunBeforePlain(n, s[n], text, t);
      assert t.current + Backslashes(n) + [s[n]] == t.current + (Backslashes(n) + [s[n]]);
    }
  }

  lemma EscapeEnds(s: string, quoted: bool)
    requires Lead(s) == |s|
    ensures Escape(s, quoted) == Backslashes(if quoted then 2 * |s| else |s|)
  {}

  lemma EscapeGoesOn(s: string, quoted: bool)
    requires Lead(s) < |s|
    ensures
      var n := Lead(s);
      Escape(s, quoted) ==
      (if s[n] == '"' then Backslashes(2 * n + 1) + "\"" else Backslashes(n) + [s[n]]) + Escape(s[n + 1..], quoted)
  {}

  lemma RestHasSpace(s: string, k: nat)
    requires k <= |s|
    ensures HasSpace(s[k..]) ==> HasSpace(s)
  {}

  lemma ReadRunBeforeQuote(n: nat, text: string, t: Words)
    ensures Read(Backslashes(n) + ("\"" + text), t) == Read(text, AtQuote(t, n))
  {
    hide Read;
    var s := Backslashes(n) + ("\"" + text);
    assert s[n] == '"' && s[n + 1..] == text;
    LeadIs(s, n);
    ReadQuote(s, t);
  }

  lemma ReadRunBeforePlain(n: nat, c: char, text: string, t: Words)
    requires c != '"' && c != '\\' && (t.inQuotes || !IsSpace(c))
    ensures Read(Backslashes(n) + ([c] + text), t) ==
            Read(text, Words(t.args, t.current + Backslashes(n) + [c], true, t.inQuotes))
  {
    hide Read, IsSpace;
    var s := Backslashes(n) + ([c] + text);
    assert s[n] == c && s[n..] == [c] + text && ([c] + text)[1..] == text;
    LeadIs(s, n);
    if n == 0 {
      assert s == [c] + text;
      ReadPlain(s, t);
      assert t.current + Backslashes(0) + [c] == t.current + [c];
    } else {
      ReadBackslashes(s, t);
      ReadPlain([c] + text, Write(t, Backslashes(n)));
    }
  }

  lemma ReadLastRun(n: nat, quoted: bool, tail: string, t: Words)
    requires t.inQuotes == quoted && (!quoted ==> tail == "" || IsSpace(tail[0]))
    ensures
      Read(Backslashes(if quoted then 2 * n else n) + Closed(quoted, tail), t) ==
      Read(tail, Words(t.args, t.current + Backslashes(n), t.hasToken || n > 0 || quoted, false))
  {
    hide Read;
    if quoted {
      ReadRunBeforeQuote(2 * n, tail, t);
    } else if n == 0 {
      assert Backslashes(0) + tail == tail && t.current + Backslashes(0) == t.current;
    } else {
      var s := Backslashes(n) + tail;
      assert s[n..] == tail;
      LeadIs(s, n);
      ReadBackslashes(s, t);
    }
  }

  lemma ReadArgument(s: string, quoted: bool, tail: string, args: seq<string>)
    requires Writable(s, quoted) && (tail == "" || IsSpace(tail[0]))
    ensures Read(Argument(s, quoted) + tail, Words(args, "", false, false)) == Read(tail, Words(args, s, true, false))
  {
    hide Read, IsSpace, Escape, HasSpace;
    var t := Words(args, "", false, false);
    assert "" + s == s;
    if quoted {
      var text := Escape(s, true) + ("\"" + tail);
      assert Argument(s, true) + tail == Backslashes(0) + ("\"" + text);
      ReadRunBeforeQuote(0, text, t);
      assert "" + Backslashes(0) == "";
      ReadEscaped(s, true, tail, AtQuote(t, 0));
    } else {
      ReadEscaped(s, false, tail, t);
    }
  }

  datatype Written = Written(arg: string, quoted: bool)

  /** The arguments as written, with a gap between each two. */
  function Line(words: seq<Written>, gaps: seq<string>): string
    requires words != [] && |gaps| == |words| - 1
    decreases |words|
  {
    var n := |gaps|;
    var last := Argument(words[n].arg, words[n].quoted);
    if n == 0 then last else Line(words[..n], gaps[..n - 1]) + gaps[n - 1] + last
  }

  function Arguments(words: seq<Written>): seq<string> {
    seq(|words|, i requires 0 <= i < |words| => words[i].arg)
  }

  predicate WellWritten(words: seq<Written>, gaps: seq<string>) {
    && words != [] && |gaps| == |words| - 1
    && (forall i :: 0 <= i < |words| ==> Writable(words[i].arg, words[i].quoted))
    && (forall i :: 0 <= i < |gaps| ==> ValidGap(gaps[i]))
  }

  lemma {:induction false} ReadGap(g: string, tail: string, t: Words)
    requires ValidGap(g) && !t.inQuotes
    ensures Read(g + tail, t) == Read(tail, Close(t))
    decreases |g|
  {
    hide Read, IsSpace;
    assert (g + tail)[1..] == g[1..] + tail;
    ReadSpace(g + tail, t);
    if |g| == 1 {
      assert g[1..] + tail == tail;
    } else {
      ReadGap(g[1..], tail, Close(t));
    }
  }

  lemma {:induction false} ReadLine(words: seq<Written>, gaps: seq<string>, tail: string)
    requires WellWritten(words, gaps) && (tail == "" || IsSpace(tail[0]))
    ensures
      var n := |gaps|;
      Read(Line(words, gaps) + tail, FIRST) == Read(tail, Words(Arguments(words[..n]), words[n].arg, true, false))
    decreases |words|
  {
    hide Read, IsSpace, Argument, Writable;
    var n := |gaps|;
    var last := words[n];
    if n == 0 {
      ReadArgument(last.arg, last.quoted, tail, []);
      assert Arguments(words[..0]) == [];
    } else {
      var rest := Argument(last.arg, last.quoted) + tail;
      var before := Arguments(words[..n - 1]);
      assert words[..n][n - 1] == words[n - 1] && words[..n][..n - 1] == words[..n - 1];
      assert IsSpace((gaps[n - 1] + rest)[0]);
      ReadLine(words[..n], gaps[..n - 1], gaps[n - 1] + rest);
      assert Line(words, gaps) + tail == Line(words[..n], gaps[..n - 1]) + (gaps[n - 1] + rest);
      ReadGap(gaps[n - 1], rest, Words(before, words[n - 1].arg, true, false));
      assert before + [words[n - 1].arg] == Arguments(words[..n]);
      ReadArgument(last.arg, last.quoted, tail, Arguments(words[..n]));
    }
  }

  lemma {:induction false} EscapeHasNoSpace(s: string, quoted: bool)
    requires !HasSpace(s)
    ensures !HasSpace(Escape(s, quoted)) && (s != "" ==> Escape(s, quoted) != "")
    decreases |s|
  {
    hide IsSpace;
    assert !IsSpace('\\') && !IsSpace('"') by { MarksAreNoSpaces(); }
    var n := Lead(s);
    if n < |s| {
      RestHasSpace(s, n + 1);
      assert !IsSpace(s[n]);
      EscapeHasNoSpace(s[n + 1..], quoted);
    }
  }

  lemma MarksAreNoSpaces()
    ensures !IsSpace('\\') && !IsSpace('"')
  {}

  lemma ArgumentEdges(s: string, quoted: bool)
    requires Writable(s, quoted)
    ensures
      var text := Argument(s, quoted);
      text != "" && !IsSpace(text[0]) && !IsSpace(text[|text| - 1])
  {
    hide IsSpace, Escape;
    MarksAreNoSpaces();
    if !quoted {
      EscapeHasNoSpace(s, false);
    }
  }

  lemma {:induction false} LineEdges(words: seq<Written>, gaps: seq<string>)
    requires WellWritten(words, gaps)
    ensures
      var text := Line(words, gaps);
      text != "" && !IsSpace(text[0]) && !IsSpace(text[|text| - 1])
    decreases |words|
  {
    hide IsSpace, Argument, Writable;
    var n := |gaps|;
    ArgumentEdges(words[n].arg, words[n].quoted);
    if n > 0 {
      LineEdges(words[..n], gaps[..n - 1]);
    }
  }

  /**
   * The splitter undoes CommandLineToArgvW quoting: every argument list comes
   * back, unless its command name is empty, which is refused.
   */
  lemma SplitUndoesWindowsQuoting(words: seq<Written>, gaps: seq<string>)
    requires WellWritten(words, gaps)
    ensures SplitWindows(Line(words, gaps)) == if words[0].arg == "" then Error(Empty) else Args(Arguments(words))
  {
    hide Read, IsSpace, Line, TrimSpace;
    var n := |gaps|;
    var text := Line(words, gaps);
    LineEdges(words, gaps);
    TrimKeeps(text);
    ReadLine(words, gaps, "");
    assert text + "" == text;
    ReadEnd(Words(Arguments(words[..n]), words[n].arg, true, false));
    assert Arguments(words[..n]) + [words[n].arg] == Arguments(words);
  }
}
