/**
 * pkg/aliyun/credentials.go: how a credential `process_command` is split into
 * arguments without a shell, on any other system than Windows.
 */
module ProcessCommand {
  import opened Strings

  datatype Problem = Empty | TrailingBackslash | UnclosedQuote

  datatype Result = Args(args: seq<string>) | Error(problem: Problem)

  /** An empty command name is no command. */
  function Finish(args: seq<string>): Result {
    if args == [] || args[0] == "" then Error(Empty) else Args(args)
  }

  datatype Quote = Bare | Single | Double

  datatype Scan = Scan(args: seq<string>, current: string, hasToken: bool, quote: Quote)

  const START := Scan([], "", false, Bare)

  function Flush(t: Scan): Scan {
    if t.hasToken then t.(args := t.args + [t.current], current := "", hasToken := false) else t
  }

  function Put(t: Scan, c: char): Scan {
    t.(current := t.current + [c])
  }

  /** What the scanner makes of the rest `s` when it has come to state `t`. */
  function Run(s: string, t: Scan): Result
    decreases |s|
  {
    if s == "" then
      if t.quote != Bare then Error(UnclosedQuote) else Finish(Flush(t).args)
    else
      var c := s[0];
      match t.quote
      case Single =>
        if c == '\'' then Run(s[1..], t.(quote := Bare)) else Run(s[1..], Put(t, c))
      case Double =>
        if c == '"' then Run(s[1..], t.(quote := Bare))
        else if c == '\\' && |s| > 1 && s[1] in ['"', '\\', '$', '`'] then Run(s[2..], Put(t, s[1]))
        else if c == '\\' && |s| > 1 && s[1] == '\n' then Run(s[2..], t)
        else Run(s[1..], Put(t, c))
      case Bare =>
        if c == '\\' then
          if |s| == 1 then Error(TrailingBackslash)
          else if s[1] == '\n' then Run(s[2..], t)
          else Run(s[2..], Put(t, s[1]).(hasToken := true))
        else if c == '\'' then Run(s[1..], t.(quote := Single, hasToken := true))
        else if c == '"' then Run(s[1..], t.(quote := Double, hasToken := true))
        else if IsSpace(c) then Run(s[1..], Flush(t))
        else Run(s[1..], Put(t, c).(hasToken := true))
  }

  function Split(command: string): Result {
    var trimmed := TrimSpace(command);
    if trimmed == "" then Error(Empty) else Run(trimmed, START)
  }

  /** splitCredentialProcessCommand, on any other system than Windows. */
  method SplitCredentialProcessCommand(command: string) returns (r: Result)
    ensures r == Split(command)
  {
    var runes := TrimSpace(command);
    if runes == "" { return Error(Empty); }
    var args: seq<string>, current: string := [], "";
    var inSingle, inDouble, hasToken := false, false, false;
    var i := 0;
    assert runes[0..] == runes;
    while i < |runes|
      invariant 0 <= i <= |runes| && !(inSingle && inDouble)
      invariant
        var quote := if inSingle then Single else if inDouble then Double else Bare;
        Run(runes[i..], Scan(args, current, hasToken, quote)) == Run(runes, START)
    {
      var r := runes[i];
      var rest := runes[i..];
      assert rest[1..] == runes[i + 1..];
      assert |rest| > 1 ==> rest[2..] == runes[i + 2..];
      if inSingle {
        if r == '\'' { inSingle := false; } else { current := current + [r]; }
      } else if inDouble {
        if r == '"' {
          inDouble := false;
        } else if r == '\\' && i + 1 < |runes| && runes[i + 1] in ['"', '\\', '$', '`'] {
          current := current + [runes[i + 1]];
          i := i + 1;
        } else if r == '\\' && i + 1 < |runes| && runes[i + 1] == '\n' {
          i := i + 1;
        } else {
          current := current + [r];
        }
      } else if r == '\\' {
        if i + 1 >= |runes| { return Error(TrailingBackslash); }
        if runes[i + 1] != '\n' {
          hasToken := true;
          current := current + [runes[i + 1]];
        }
        i := i + 1;
      } else if r == '\'' {
        inSingle, hasToken := true, true;
      } else if r == '"' {
        inDouble, hasToken := true, true;
      } else if IsSpace(r) {
        if hasToken {
          args, current, hasToken := args + [current], "", false;
        }
      } else {
        hasToken := true;
        current := current + [r];
      }
      i := i + 1;
    }
    if inSingle || inDouble { return Error(UnclosedQuote); }
    if hasToken { args := args + [current]; }
    if args == [] || args[0] == "" { return Error(Empty); }
    r := Args(args);
  }

  // What a command line means: words made of pieces, as section 2.2 of the
  // POSIX Shell Command Language quotes them.

  datatype Item = Plain(c: char) | Quoted(c: char) | Kept(c: char) | Joined

  datatype Piece = Literal(c: char) | Escaped(c: char) | InSingle(text: string) | InDouble(items: seq<Item>) | Continued

  predicate ValidItem(x: Item) {
    match x
    case Plain(c) => c != '"' && c != '\\'
    case Quoted(c) => c in ['"', '\\', '$', '`']
    case Kept(c) => c !in ['"', '\\', '$', '`', '\n']
    case Joined => true
  }

  predicate ValidPiece(p: Piece) {
    match p
    case Literal(c) => c != '\\' && c != '\'' && c != '"' && !IsSpace(c)
    case Escaped(c) => c != '\n'
    case InSingle(text) => '\'' !in text
    case InDouble(items) => forall x :: x in items ==> ValidItem(x)
    case Continued => true
  }

  function ItemText(x: Item): string {
    match x
    case Plain(c) => [c]
    case Quoted(c) => ['\\', c]
    case Kept(c) => ['\\', c]
    case Joined => ['\\', '\n']
  }

  function ItemMeans(x: Item): string {
    match x
    case Plain(c) => [c]
    case Quoted(c) => [c]
    case Kept(c) => ['\\', c]
    case Joined => ""
  }

  function ItemsText(xs: seq<Item>): string {
    if xs == [] then "" else ItemText(xs[0]) + ItemsText(xs[1..])
  }

  function ItemsMean(xs: seq<Item>): string {
    if xs == [] then "" else ItemMeans(xs[0]) + ItemsMean(xs[1..])
  }

  function PieceText(p: Piece): string {
    match p
    case Literal(c) => [c]
    case Escaped(c) => ['\\', c]
    case InSingle(text) => "'" + text + "'"
    case InDouble(items) => "\"" + ItemsText(items) + "\""
    case Continued => ['\\', '\n']
  }

  function PieceMeans(p: Piece): string {
    match p
    case Literal(c) => [c]
    case Escaped(c) => [c]
    case InSingle(text) => text
    case InDouble(items) => ItemsMean(items)
    case Continued => ""
  }

  function WordText(w: seq<Piece>): string {
    if w == [] then "" else PieceText(w[0]) + WordText(w[1..])
  }

  function WordMeans(w: seq<Piece>): string {
    if w == [] then "" else PieceMeans(w[0]) + WordMeans(w[1..])
  }

  /** A word is made by any of its pieces but a joined line. */
  predicate MakesToken(w: seq<Piece>) {
    w != [] && (!w[0].Continued? || MakesToken(w[1..]))
  }

  predicate ValidWord(w: seq<Piece>) {
    MakesToken(w) && forall p :: p in w ==> ValidPiece(p)
  }

  predicate ValidGap(g: string) {
    g != "" && forall i :: 0 <= i < |g| ==> IsSpace(g[i])
  }

  /** The command line: the words, with a gap between each two. */
  function LineText(words: seq<seq<Piece>>, gaps: seq<string>): string
    requires words != [] && |gaps| == |words| - 1
    decreases |words|
  {
    var n := |words| - 1;
    if n == 0 then WordText(words[0]) else LineText(words[..n], gaps[..n - 1]) + gaps[n - 1] + WordText(words[n])
  }

  function LineMeans(words: seq<seq<Piece>>): seq<string> {
    seq(|words|, i requires 0 <= i < |words| => WordMeans(words[i]))
  }

  predicate ValidLine(words: seq<seq<Piece>>, gaps: seq<string>) {
    && words != [] && |gaps| == |words| - 1
    && (forall i :: 0 <= i < |words| ==> ValidWord(words[i]))
    && (forall i :: 0 <= i < |gaps| ==> ValidGap(gaps[i]))
  }

  /** The line's last character is an escaped space or line feed. */
  predicate EndsInSpace(words: seq<seq<Piece>>)
    requires words != [] && words[|words| - 1] != []
  {
    var w := words[|words| - 1];
    var p := w[|w| - 1];
    p.Continued? || (p.Escaped? && IsSpace(p.c))
  }

  lemma {:induction false} RunSingle(text: string, rest: string, t: Scan)
    requires '\'' !in text && t.quote == Single
    ensures Run(text + "'" + rest, t) == Run(rest, t.(current := t.current + text, quote := Bare))
    decreases |text|
  {
    var s := text + "'" + rest;
    if text == "" {
      assert s == "'" + rest && s[1..] == rest;
      assert t.current + text == t.current;
    } else {
      assert s[1..] == text[1..] + "'" + rest && s[0] == text[0];
      RunSingle(text[1..], rest, Put(t, text[0]));
      assert t.current + [text[0]] + text[1..] == t.current + text;
    }
  }

  lemma QuoteEnds(rest: string, t: Scan)
    requires t.quote == Double
    ensures Run("\"" + rest, t) == Run(rest, t.(quote := Bare))
  {
    assert ("\"" + rest)[1..] == rest;
  }

  lemma {:induction false} RunDouble(xs: seq<Item>, rest: string, t: Scan)
    requires (forall x :: x in xs ==> ValidItem(x)) && t.quote == Double
    ensures Run(ItemsText(xs) + "\"" + rest, t) == Run(rest, t.(current := t.current + ItemsMean(xs), quote := Bare))
    decreases |xs|
  {
    hide Run, ItemText, ItemMeans;
    if xs == [] {
      QuoteEnds(rest, t);
      assert ItemsText(xs) + "\"" + rest == "\"" + rest;
      assert t.current + ItemsMean(xs) == t.current;
    } else {
      var tail := ItemsText(xs[1..]) + "\"" + rest;
      var t' := t.(current := t.current + ItemMeans(xs[0]));
      assert ItemsText(xs) + "\"" + rest == ItemText(xs[0]) + tail;
      RunItem(xs[0], tail, t);
      RunDouble(xs[1..], rest, t');
      assert t.current + ItemMeans(xs[0]) + ItemsMean(xs[1..]) == t.current + ItemsMean(xs);
    }
  }

  lemma RunItem(x: Item, tail: string, t: Scan)
    requires ValidItem(x) && t.quote == Double
    ensures Run(ItemText(x) + tail, t) == Run(tail, t.(current := t.current + ItemMeans(x)))
  {
    var s := ItemText(x) + tail;
    if x.Plain? {
      assert s[1..] == tail;
    } else {
      assert s[0] == '\\' && s[2..] == tail && s[1..] == [s[1]] + tail && s[1..][1..] == tail;
      if x.Kept? {
        assert t.current + ['\\'] + [x.c] == t.current + ['\\', x.c];
      } else if x.Joined? {
        assert t.current + "" == t.current;
      }
    }
  }

  lemma RunLiteral(c: char, tail: string, t: Scan)
    requires ValidPiece(Literal(c)) && t.quote == Bare
    ensures Run([c] + tail, t) == Run(tail, t.(current := t.current + [c], hasToken := true))
  {
    assert ([c] + tail)[1..] == tail;
  }

  lemma RunEscaped(c: char, tail: string, t: Scan)
    requires t.quote == Bare
    ensures
      Run(['\\', c] + tail, t) ==
      Run(tail, if c == '\n' then t else t.(current := t.current + [c], hasToken := true))
  {
    assert (['\\', c] + tail)[2..] == tail;
  }

  lemma RunPiece(p: Piece, tail: string, t: Scan)
    requires ValidPiece(p) && t.quote == Bare
    ensures Run(PieceText(p) + tail, t) ==
            Run(tail, t.(current := t.current + PieceMeans(p), hasToken := t.hasToken || !p.Continued?))
  {
    hide Run, ItemsText, ItemsMean;
    match p
    case Literal(c) =>
      RunLiteral(c, tail, t);
    case Escaped(c) =>
      RunEscaped(c, tail, t);
    case Continued =>
      RunEscaped('\n', tail, t);
      assert t.current + "" == t.current;
    case InSingle(text) =>
      assert PieceText(p) + tail == "'" + (text + "'" + tail);
      QuoteOpens(text + "'" + tail, t);
      RunSingle(text, tail, t.(quote := Single, hasToken := true));
    case InDouble(items) =>
      assert PieceText(p) + tail == "\"" + (ItemsText(items) + "\"" + tail);
      QuoteOpens(ItemsText(items) + "\"" + tail, t);
      RunDouble(items, tail, t.(quote := Double, hasToken := true));
  }

  lemma {:induction false} RunWord(w: seq<Piece>, tail: string, t: Scan)
    requires (forall p :: p in w ==> ValidPiece(p)) && t.quote == Bare
    ensures Run(WordText(w) + tail, t) ==
            Run(tail, t.(current := t.current + WordMeans(w), hasToken := t.hasToken || MakesToken(w)))
    decreases |w|
  {
    hide Run, PieceText, PieceMeans;
    if w == [] {
      assert WordText(w) + tail == tail && t.current + WordMeans(w) == t.current;
    } else {
      var t' := t.(current := t.current + PieceMeans(w[0]), hasToken := t.hasToken || !w[0].Continued?);
      assert WordText(w) + tail == PieceText(w[0]) + (WordText(w[1..]) + tail);
      RunPiece(w[0], WordText(w[1..]) + tail, t);
      RunWord(w[1..], tail, t');
      assert t.current + PieceMeans(w[0]) + WordMeans(w[1..]) == t.current + WordMeans(w);
    }
  }

  lemma {:induction false} RunGap(g: string, tail: string, t: Scan)
    requires ValidGap(g) && t.quote == Bare
    ensures Run(g + tail, t) == Run(tail, Flush(t))
    decreases |g|
  {
    var s := g + tail;
    assert IsSpace(s[0]) && s[1..] == g[1..] + tail;
    assert Run(s, t) == Run(g[1..] + tail, Flush(t));
    if |g| == 1 {
      assert g[1..] + tail == tail;
    } else {
      RunGap(g[1..], tail, Flush(t));
    }
  }

  lemma {:induction false} RunLine(words: seq<seq<Piece>>, gaps: seq<string>, tail: string)
    requires words != [] && |gaps| == |words| - 1
    requires forall i :: 0 <= i < |gaps| ==> ValidWord(words[i]) && ValidGap(gaps[i])
    requires forall p :: p in words[|gaps|] ==> ValidPiece(p)
    ensures
      var last := words[|gaps|];
      Run(LineText(words, gaps) + tail, START) ==
      Run(tail, Scan(LineMeans(words[..|gaps|]), WordMeans(last), MakesToken(last), Bare))
    decreases |words|
  {
    hide Run, WordText, WordMeans, MakesToken;
    var n := |gaps|;
    var last := words[n];
    if n == 0 {
      RunWord(last, tail, START);
      assert "" + WordMeans(last) == WordMeans(last);
      assert LineMeans(words[..0]) == [];
    } else {
      var rest := WordText(last) + tail;
      assert words[..n][n - 1] == words[n - 1] && words[..n][..n - 1] == words[..n - 1];
      RunLine(words[..n], gaps[..n - 1], gaps[n - 1] + rest);
      assert LineText(words, gaps) + tail == LineText(words[..n], gaps[..n - 1]) + (gaps[n - 1] + rest);
      var args := LineMeans(words[..n - 1]);
      RunGap(gaps[n - 1], rest, Scan(args, WordMeans(words[n - 1]), true, Bare));
      assert args + [WordMeans(words[n - 1])] == LineMeans(words[..n]);
      RunWord(last, tail, Scan(LineMeans(words[..n]), "", false, Bare));
      assert "" + WordMeans(last) == WordMeans(last);
    }
  }

  lemma RunEnds(t: Scan)
    requires t.quote == Bare
    ensures t.hasToken ==> Run("", t) == Finish(t.args + [t.current])
    ensures Run("\\", t) == Error(TrailingBackslash)
  {}

  lemma PieceEnds(p: Piece)
    requires ValidPiece(p)
    ensures PieceText(p) != "" && !IsSpace(PieceText(p)[0])
    ensures IsSpace(PieceText(p)[|PieceText(p)| - 1]) <==> p.Continued? || (p.Escaped? && IsSpace(p.c))
  {}

  lemma WordTextFront(p: Piece, rest: seq<Piece>)
    ensures WordText([p] + rest) == PieceText(p) + WordText(rest)
  {
    assert ([p] + rest)[1..] == rest;
  }

  lemma WordTextOne(p: Piece)
    ensures WordText([p]) == PieceText(p) && WordText([]) == ""
  {
    assert [p][1..] == [];
  }

  lemma {:induction false} WordTextBack(w: seq<Piece>)
    requires w != []
    ensures WordText(w) == WordText(w[..|w| - 1]) + PieceText(w[|w| - 1])
    decreases |w|
  {
    hide WordText, PieceText;
    var front, last := w[..|w| - 1], w[|w| - 1];
    if |w| == 1 {
      assert w == [last] && front == [];
      WordTextOne(last);
    } else {
      WordTextBack(w[1..]);
      assert w[1..][..|w| - 2] == front[1..];
      assert w == [w[0]] + w[1..] && front == [w[0]] + front[1..];
      WordTextFront(w[0], w[1..]);
      WordTextFront(w[0], front[1..]);
    }
  }

  lemma {:induction false} LineStarts(words: seq<seq<Piece>>, gaps: seq<string>)
    requires ValidLine(words, gaps)
    ensures LineText(words, gaps) != "" && !IsSpace(LineText(words, gaps)[0])
    decreases |words|
  {
    if |words| == 1 {
      PieceEnds(words[0][0]);
    } else {
      LineStarts(words[..|words| - 1], gaps[..|gaps| - 1]);
    }
  }

  /**
   * Every command line of words and gaps is split into what its words mean,
   * except that trimming the line takes away a last character that is an
   * escaped space or line feed; the line is then refused for its backslash.
   */
  lemma SplitReadsWords(words: seq<seq<Piece>>, gaps: seq<string>)
    requires ValidLine(words, gaps)
    ensures Split(LineText(words, gaps)) ==
            if EndsInSpace(words) then Error(TrailingBackslash) else Finish(LineMeans(words))
  {
    hide Run, IsSpace, WordText, PieceText, WordMeans, ValidPiece, TrimSpace;
    var text := LineText(words, gaps);
    var n := |gaps|;
    var last := words[n];
    var p := last[|last| - 1];
    LineStarts(words, gaps);
    WordTextBack(last);
    assert ValidPiece(p) by { assert p in last; }
    PieceEnds(p);
    var stem := if n == 0 then "" else LineText(words[..n], gaps[..n - 1]) + gaps[n - 1];
    assert text == stem + WordText(last[..|last| - 1]) + PieceText(p);
    if EndsInSpace(words) {
      SplitTrimsEscape(words, gaps);
    } else {
      TrimKeeps(text);
      RunLine(words, gaps, "");
      assert text + "" == text;
      RunEnds(Scan(LineMeans(words[..n]), WordMeans(last), true, Bare));
      assert LineMeans(words[..n]) + [WordMeans(last)] == LineMeans(words);
    }
  }

  lemma SplitTrimsEscape(words: seq<seq<Piece>>, gaps: seq<string>)
    requires ValidLine(words, gaps) && EndsInSpace(words)
    ensures Split(LineText(words, gaps)) == Error(TrailingBackslash)
  {
    hide Run, IsSpace, WordText, WordMeans, TrimSpace;
    var text := LineText(words, gaps);
    var n := |gaps|;
    var last := words[n];
    var p := last[|last| - 1];
    var w := last[..|last| - 1];
    var short := words[..n] + [w];
    assert ValidPiece(p) by { assert p in last; }
    LineStarts(words, gaps);
    WordTextBack(last);
    PieceEnds(p);
    assert short[..n] == words[..n];
    var stem := if n == 0 then "" else LineText(words[..n], gaps[..n - 1]) + gaps[n - 1];
    assert LineText(short, gaps) == stem + WordText(w);
    assert text == LineText(short, gaps) + PieceText(p);
    assert text[|text| - 2] == '\\' && !IsSpace('\\') by { QuoteIsNoSpace(); }
    TrimOne(text);
    assert text[..|text| - 1] == LineText(short, gaps) + "\\";
    RunLine(short, gaps, "\\");
    RunEnds(Scan(LineMeans(words[..n]), WordMeans(w), MakesToken(w), Bare));
  }

  lemma {:induction false} RunOpenSingle(text: string, t: Scan)
    requires '\'' !in text && t.quote == Single
    ensures Run(text, t) == Error(UnclosedQuote)
    decreases |text|
  {
    if text != "" {
      RunOpenSingle(text[1..], Put(t, text[0]));
    }
  }

  /** Wherever double-quoted items are cut, even inside one, their quote is still open. */
  lemma {:induction false} RunOpenDouble(xs: seq<Item>, k: nat, t: Scan)
    requires (forall x :: x in xs ==> ValidItem(x)) && t.quote == Double && k <= |ItemsText(xs)|
    ensures Run(ItemsText(xs)[..k], t) == Error(UnclosedQuote)
    decreases |xs|
  {
    hide ItemMeans;
    if k == 0 {
      assert ItemsText(xs)[..k] == "";
    } else {
      var first := ItemText(xs[0]);
      if k < |first| {
        assert ItemsText(xs)[..k] == "\\";
        assert Run("", Put(t, '\\')) == Error(UnclosedQuote);
      } else {
        var rest := ItemsText(xs[1..])[..k - |first|];
        assert ItemsText(xs)[..k] == first + rest;
        RunItem(xs[0], rest, t);
        RunOpenDouble(xs[1..], k - |first|, t.(current := t.current + ItemMeans(xs[0])));
      }
    }
  }

  /** What stands in front of a quote: nothing, or a line of words, with or without a gap behind it. */
  function Before(words: seq<seq<Piece>>, gaps: seq<string>, gap: string): string
    requires words != [] ==> |gaps| == |words| - 1
  {
    if words == [] then "" else LineText(words, gaps) + gap
  }

  lemma RunBefore(words: seq<seq<Piece>>, gaps: seq<string>, gap: string, tail: string) returns (t: Scan)
    requires words == [] || ValidLine(words, gaps)
    requires gap == "" || ValidGap(gap)
    ensures t.quote == Bare && Run(Before(words, gaps, gap) + tail, START) == Run(tail, t)
  {
    hide Run, LineText, WordMeans, MakesToken;
    if words == [] {
      t := START;
      assert Before(words, gaps, gap) + tail == tail;
    } else {
      var n := |gaps|;
      t := Scan(LineMeans(words[..n]), WordMeans(words[n]), MakesToken(words[n]), Bare);
      assert Before(words, gaps, gap) + tail == LineText(words, gaps) + (gap + tail);
      RunLine(words, gaps, gap + tail);
      if gap == "" {
        assert gap + tail == tail;
      } else {
        RunGap(gap, tail, t);
        t := Flush(t);
      }
    }
  }

  /** Trimming such a line takes nothing off the quote and what is in front of it. */
  lemma TrimBehindQuote(words: seq<seq<Piece>>, gaps: seq<string>, gap: string, quote: char, body: string)
    returns (k: nat)
    requires words == [] || ValidLine(words, gaps)
    requires !IsSpace(quote)
    ensures
      var front := Before(words, gaps, gap);
      k <= |body| && TrimSpace(front + [quote] + body) == front + ([quote] + body[..k])
  {
    hide IsSpace, LineText, TrimSpace;
    var front := Before(words, gaps, gap);
    var line := front + [quote] + body;
    if words != [] {
      LineStarts(words, gaps);
    }
    assert line[|front|] == quote;
    var cut := TrimKeepsFront(line, |front|);
    k := cut - |front| - 1;
    assert line[..cut] == front + ([quote] + body[..k]);
  }

  /**
   * A quote that is opened and never closed is refused, whatever words and gap
   * stand in front of it and whatever trimming takes off its text.
   */
  lemma OpenQuoteIsRefused(words: seq<seq<Piece>>, gaps: seq<string>, gap: string, text: string, items: seq<Item>)
    requires words == [] || ValidLine(words, gaps)
    requires gap == "" || ValidGap(gap)
    ensures '\'' !in text ==> Split(Before(words, gaps, gap) + "'" + text) == Error(UnclosedQuote)
    ensures (forall x :: x in items ==> ValidItem(x)) ==>
              Split(Before(words, gaps, gap) + "\"" + ItemsText(items)) == Error(UnclosedQuote)
  {
    hide Run, IsSpace, Before, TrimSpace, ItemsText;
    QuoteIsNoSpace();
    if '\'' !in text {
      var k := TrimBehindQuote(words, gaps, gap, '\'', text);
      var t := RunBefore(words, gaps, gap, "'" + text[..k]);
      QuoteOpens(text[..k], t);
      RunOpenSingle(text[..k], t.(quote := Single, hasToken := true));
    }
    if forall x :: x in items ==> ValidItem(x) {
      var k := TrimBehindQuote(words, gaps, gap, '"', ItemsText(items));
      var t := RunBefore(words, gaps, gap, "\"" + ItemsText(items)[..k]);
      QuoteOpens(ItemsText(items)[..k], t);
      RunOpenDouble(items, k, t.(quote := Double, hasToken := true));
    }
  }

  lemma QuoteOpens(text: string, t: Scan)
    requires t.quote == Bare
    ensures Run("'" + text, t) == Run(text, t.(quote := Single, hasToken := true))
    ensures Run("\"" + text, t) == Run(text, t.(quote := Double, hasToken := true))
  {
    assert ("'" + text)[1..] == text && ("\"" + text)[1..] == text;
  }

  lemma QuoteIsNoSpace()
    ensures !IsSpace('\\') && !IsSpace('\'') && !IsSpace('"')
  {}

  // quoteZshPath: single quotes, with each quote inside written '\''.

  function EscapeQuotes(s: string): string {
    if s == "" then "" else (if s[0] == '\'' then "'\\''" else [s[0]]) + EscapeQuotes(s[1..])
  }

  function QuoteZshPath(path: string): string {
    "'" + EscapeQuotes(path) + "'"
  }

  function Quoted(args: seq<string>): string
    requires args != []
    decreases |args|
  {
    var n := |args| - 1;
    if n == 0 then QuoteZshPath(args[0]) else Quoted(args[..n]) + " " + QuoteZshPath(args[n])
  }

  /** The pieces of the quoted `s` when `run` of the single quotes is already read. */
  function QuotePieces(run: string, s: string): seq<Piece>
    decreases |s|
  {
    if s == "" then [InSingle(run)]
    else if s[0] == '\'' then [InSingle(run), Escaped('\'')] + QuotePieces("", s[1..])
    else QuotePieces(run + [s[0]], s[1..])
  }

  lemma {:induction false} QuotePiecesValid(run: string, s: string)
    requires '\'' !in run
    ensures
      var w := QuotePieces(run, s);
      ValidWord(w) && w[|w| - 1].InSingle?
    decreases |s|
  {
    if s == "" {
    } else if s[0] == '\'' {
      QuotePiecesValid("", s[1..]);
    } else {
      QuotePiecesValid(run + [s[0]], s[1..]);
    }
  }

  lemma {:induction false} QuotePiecesText(run: string, s: string)
    ensures WordText(QuotePieces(run, s)) == "'" + run + EscapeQuotes(s) + "'"
    ensures WordMeans(QuotePieces(run, s)) == run + s
    decreases |s|
  {
    hide WordText, WordMeans, PieceText, PieceMeans;
    if s == "" {
      OnePiece(run);
      assert run + s == run && "'" + run + "'" == "'" + run + EscapeQuotes(s) + "'";
    } else if s[0] == '\'' {
      var rest := s[1..];
      QuotePiecesText("", rest);
      TwoPieces(run, QuotePieces("", rest));
      QuoteTexts(run, "'\\''", rest);
      assert run + "'" + ("" + rest) == run + s;
    } else {
      QuotePiecesText(run + [s[0]], s[1..]);
      QuoteTexts(run, [s[0]], s[1..]);
      assert run + [s[0]] + s[1..] == run + s;
    }
  }

  lemma QuoteTexts(run: string, first: string, rest: string)
    ensures "'" + run + "'\\'" + ("'" + "" + EscapeQuotes(rest) + "'") ==
            "'" + run + ("'\\''" + EscapeQuotes(rest)) + "'"
    ensures "'" + (run + first) + EscapeQuotes(rest) + "'" == "'" + run + (first + EscapeQuotes(rest)) + "'"
  {
    hide EscapeQuotes;
  }

  lemma OnePiece(run: string)
    ensures WordText([InSingle(run)]) == "'" + run + "'" && WordMeans([InSingle(run)]) == run
  {
    assert [InSingle(run)][1..] == [];
  }

  lemma TwoPieces(run: string, rest: seq<Piece>)
    ensures WordText([InSingle(run), Escaped('\'')] + rest) == "'" + run + "'\\'" + WordText(rest)
    ensures WordMeans([InSingle(run), Escaped('\'')] + rest) == run + "'" + WordMeans(rest)
  {
    var w := [InSingle(run), Escaped('\'')] + rest;
    assert w[1..] == [Escaped('\'')] + rest && w[1..][1..] == rest;
    assert "'" + run + "'" + ("\\'" + WordText(rest)) == "'" + run + "'\\'" + WordText(rest);
    assert run + ("'" + WordMeans(rest)) == run + "'" + WordMeans(rest);
  }

  lemma {:induction false} QuotedIsLine(args: seq<string>, words: seq<seq<Piece>>, gaps: seq<string>)
    requires args != [] && |words| == |args| && |gaps| == |args| - 1
    requires forall i :: 0 <= i < |args| ==> words[i] == QuotePieces("", args[i])
    requires forall i :: 0 <= i < |gaps| ==> gaps[i] == " "
    ensures Quoted(args) == LineText(words, gaps)
    decreases |args|
  {
    hide EscapeQuotes, QuotePieces, WordText;
    var n := |args| - 1;
    QuotePiecesText("", args[n]);
    assert "'" + "" + EscapeQuotes(args[n]) + "'" == QuoteZshPath(args[n]);
    if n > 0 {
      QuotedIsLine(args[..n], words[..n], gaps[..n - 1]);
    }
  }

  /**
   * The splitter undoes single-quoting: every argument list comes back, unless
   * its command name is empty, which is refused.
   */
  lemma SplitUndoesQuoting(args: seq<string>)
    requires args != []
    ensures Split(Quoted(args)) == if args[0] == "" then Error(Empty) else Args(args)
  {
    hide QuotePieces, Split, LineText;
    var words := seq(|args|, i requires 0 <= i < |args| => QuotePieces("", args[i]));
    var gaps := seq(|args| - 1, i => " ");
    forall i | 0 <= i < |args|
      ensures ValidWord(words[i]) && WordMeans(words[i]) == args[i] && words[i][|words[i]| - 1].InSingle?
    {
      QuotePiecesText("", args[i]);
      QuotePiecesValid("", args[i]);
      assert "" + args[i] == args[i];
    }
    QuotedIsLine(args, words, gaps);
    SplitReadsWords(words, gaps);
    assert LineMeans(words) == args;
  }
}
