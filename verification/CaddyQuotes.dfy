/**
 * Braces inside quotes. The parser is described as looking for unquoted braces, but it counts every
 * brace of a line. For one line and for a whole file this states exactly when that makes no
 * difference, and shows a file in which it does.
 */
module CaddyQuotes {
  import opened Text
  import opened Caddyfile

  // --------------------------------------------------------------- one line

  /** How often c stands inside (or outside) quotes among the first k characters. */
  function CountIn(line: string, k: nat, c: char, quoted: bool): nat
    requires k <= |line|
  {
    if k == 0 then 0
    else CountIn(line, k - 1, c, quoted) + if line[k - 1] == c && Quoted(line, k - 1) == quoted then 1 else 0
  }

  function InCode(line: string, c: char, quoted: bool): nat {
    CountIn(line, CodeLength(line, 0), c, quoted)
  }

  /** The depth change a parser that knows about quotes would see. */
  function BareNet(line: string): int {
    InCode(line, '{', false) - InCode(line, '}', false)
  }

  lemma {:induction false} CountSnoc(s: string, x: char, c: char)
    ensures Count(s + [x], c) == Count(s, c) + if x == c then 1 else 0
  {
    if s == "" {
      assert "" + [x] == [x];
      assert Count([x][1..], c) == 0;
    } else {
      assert (s + [x])[1..] == s[1..] + [x];
      CountSnoc(s[1..], x, c);
    }
  }

  lemma {:induction false} CountSplits(line: string, k: nat, c: char)
    requires k <= |line|
    ensures Count(line[..k], c) == CountIn(line, k, c, true) + CountIn(line, k, c, false)
  {
    if k > 0 {
      CountSplits(line, k - 1, c);
      CountSnoc(line[..k - 1], line[k - 1], c);
      assert line[..k] == line[..k - 1] + [line[k - 1]];
    }
  }

  lemma {:induction false} CountTrimLeft(s: string, c: char)
    requires !IsSpace(c)
    ensures Count(TrimLeft(s), c) == Count(s, c)
  {
    if s != "" && IsSpace(s[0]) {
      CountTrimLeft(s[1..], c);
    }
  }

  lemma {:induction false} CountTrimRight(s: string, c: char)
    requires !IsSpace(c)
    ensures Count(TrimRight(s), c) == Count(s, c)
  {
    if s != "" && IsSpace(s[|s| - 1]) {
      var init := s[..|s| - 1];
      CountTrimRight(init, c);
      CountSnoc(init, s[|s| - 1], c);
      assert init + [s[|s| - 1]] == s;
    }
  }

  lemma CodeCount(line: string, c: char)
    requires !IsSpace(c)
    ensures Count(Code(line), c) == InCode(line, c, true) + InCode(line, c, false)
  {
    CountTrimLeft(Uncommented(line), c);
    CountTrimRight(TrimLeft(Uncommented(line)), c);
    CountSplits(line, CodeLength(line, 0), c);
  }

  ghost predicate BalancedInQuotes(line: string) {
    InCode(line, '{', true) == InCode(line, '}', true)
  }

  /** A line changes the depth by its unquoted braces exactly if its quoted ones balance. */
  lemma NetIsBare(line: string)
    ensures Net(line) == BareNet(line) + InCode(line, '{', true) - InCode(line, '}', true)
    ensures Net(line) == BareNet(line) <==> BalancedInQuotes(line)
  {
    CodeCount(line, '{');
    CodeCount(line, '}');
  }

  // ------------------------------------------------------------- whole files

  /** The first brace outside quotes from position i on, or where the code ends. */
  function BareBrace(line: string, i: nat): (k: nat)
    requires i <= CodeLength(line, 0)
    ensures i <= k <= CodeLength(line, 0)
    ensures k < CodeLength(line, 0) ==> line[k] == '{' && !Quoted(line, k)
    ensures forall j :: i <= j < k ==> !(line[j] == '{' && !Quoted(line, j))
    decreases CodeLength(line, 0) - i
  {
    if i == CodeLength(line, 0) || (line[i] == '{' && !Quoted(line, i)) then i else BareBrace(line, i + 1)
  }

  /** The addresses in front of it. */
  function BareAddresses(line: string): seq<string> {
    NonBlank(Words(TrimSpace(line[..BareBrace(line, 0)])))
  }

  /** What a parser that knows about quotes reads off a line. */
  function ReadBare(text: string): Line {
    Line(text, BareNet(text), BareAddresses(text))
  }

  /** The first brace of the line, if it has one, stands outside quotes. */
  predicate FirstBraceBare(line: string) {
    var i := IndexChar(Uncommented(line), '{');
    i >= 0 ==> !Quoted(line, i)
  }

  lemma TrimSnoc(s: string, x: char)
    requires IsSpace(x)
    ensures TrimSpace(s + [x]) == TrimSpace(s)
  {
    TrimLeftSnoc(s, x);
    var t := TrimLeft(s);
    if t != "" {
      assert (t + [x])[..|t|] == t;
    }
  }

  lemma {:induction false} TrimLeftSnoc(s: string, x: char)
    requires IsSpace(x)
    ensures TrimLeft(s + [x]) == if TrimLeft(s) == "" then "" else TrimLeft(s) + [x]
  {
    if s == "" {
      assert s + [x] == [x] && [x][1..] == "";
    } else if IsSpace(s[0]) {
      assert (s + [x])[1..] == s[1..] + [x];
      TrimLeftSnoc(s[1..], x);
    }
  }

  lemma UptoSnoc(s: string, x: char, c: char)
    requires x != c
    ensures Upto(s + [x], c) == if c in s then Upto(s, c) else s + [x]
  {
    var r := Upto(s + [x], c);
    if c in s {
      var i := IndexChar(s, c);
      assert (s + [x])[i] == c;
      assert s[..i] == (s + [x])[..i];
    }
  }

  lemma UptoCons(x: char, s: string, c: char)
    requires x != c
    ensures Upto([x] + s, c) == [x] + Upto(s, c)
  {
    assert ([x] + s)[1..] == s;
    var i := IndexChar(s, c);
    if i >= 0 {
      assert ([x] + s)[..i + 1] == [x] + s[..i];
    }
  }

  /** Trimming a text first does not change its trimmed header. */
  lemma {:induction false} HeaderTrimRight(s: string, c: char)
    requires !IsSpace(c)
    ensures TrimSpace(Upto(TrimRight(s), c)) == TrimSpace(Upto(s, c))
  {
    if s != "" && IsSpace(s[|s| - 1]) {
      var init, x := s[..|s| - 1], s[|s| - 1];
      assert s == init + [x];
      HeaderTrimRight(init, c);
      UptoSnoc(init, x, c);
      if c !in init {
        TrimSnoc(init, x);
        assert Upto(init, c) == init;
      }
    }
  }

  lemma {:induction false} HeaderTrimLeft(s: string, c: char)
    requires !IsSpace(c)
    ensures TrimSpace(Upto(TrimLeft(s), c)) == TrimSpace(Upto(s, c))
  {
    if s != "" && IsSpace(s[0]) {
      HeaderTrimLeft(s[1..], c);
      assert s == [s[0]] + s[1..];
      UptoCons(s[0], s[1..], c);
      TrimCons(s[0], Upto(s[1..], c));
    }
  }

  lemma TrimCons(x: char, s: string)
    requires IsSpace(x)
    ensures TrimSpace([x] + s) == TrimSpace(s)
  {
    assert ([x] + s)[1..] == s;
  }

  lemma HeaderOfCode(line: string)
    ensures TrimSpace(Upto(Code(line), '{')) == TrimSpace(Upto(Uncommented(line), '{'))
  {
    HeaderTrimLeft(Uncommented(line), '{');
    HeaderTrimRight(TrimLeft(Uncommented(line)), '{');
  }

  lemma BareBraceIs(line: string)
    requires FirstBraceBare(line)
    ensures line[..BareBrace(line, 0)] == Upto(Uncommented(line), '{')
  {
    var s, k := Uncommented(line), BareBrace(line, 0);
    var i := IndexChar(s, '{');
    if i >= 0 {
      assert s[i] == '{' == line[i];
      assert k <= i;
      assert s[..i] == line[..i];
    }
  }

  /** Where the first brace of a line is not quoted the two read the same addresses. */
  lemma AddressesAlike(line: string)
    requires FirstBraceBare(line)
    ensures BareAddresses(line) == Read(line).addresses
  {
    HeaderOfCode(line);
    BareBraceIs(line);
  }

  function ReadBareAll(texts: seq<string>): (r: seq<Line>)
    ensures |r| == |texts| && forall i :: 0 <= i < |r| ==> r[i] == ReadBare(texts[i])
  {
    seq(|texts|, i requires 0 <= i < |texts| => ReadBare(texts[i]))
  }

  /** The two parsers stand at the same place: same blocks found, same block open. */
  ghost predicate Alike(p: Parse, q: Parse) {
    && p.blocks == q.blocks
    && match p.mode
       case Outside => q.mode.Outside?
       case Inside(depth, header, body, raw, start) =>
         && q.mode.Inside? && q.mode.depth == depth && q.mode.header == header && q.mode.start == start
         && Texts(q.mode.body) == Texts(body) && Texts(q.mode.raw) == Texts(raw)
  }

  /** The difference between two readings of a line does not show here: they open the same block,
      neither opens one, they go on inside one, or both close it. */
  predicate Harmless(m: Mode, l: Line, k: Line) {
    || (l.net == k.net && (m.Outside? && l.net > 0 ==> l.addresses == k.addresses))
    || (m.Outside? && l.net <= 0 && k.net <= 0)
    || (m.Inside? && m.depth + l.net <= 0 && m.depth + k.net <= 0)
  }

  ghost predicate SameLine(l: Line, k: Line) {
    l.text == k.text
  }

  lemma FeedAlike(p: Parse, q: Parse, l: Line, m: Line, i: nat)
    requires Alike(p, q) && SameLine(l, m)
    ensures Alike(Feed(p, l, i), Feed(q, m, i)) <==> Harmless(p.mode, l, m)
  {
    if p.mode.Inside? {
      TextsSnoc(p.mode.body, l);
      TextsSnoc(q.mode.body, m);
      TextsSnoc(p.mode.raw, l);
      TextsSnoc(q.mode.raw, m);
    }
  }

  ghost predicate AlikeAt(a: seq<Line>, b: seq<Line>, i: nat) {
    i <= |a| == |b| && Alike(ParseLines(a[..i]), ParseLines(b[..i]))
  }

  ghost predicate HarmlessAt(a: seq<Line>, b: seq<Line>, i: nat) {
    i < |a| == |b| && Harmless(ParseLines(a[..i]).mode, a[i], b[i])
  }

  ghost predicate SameTexts(a: seq<Line>, b: seq<Line>) {
    |a| == |b| && forall i :: 0 <= i < |a| ==> SameLine(a[i], b[i])
  }

  lemma AlikeNext(a: seq<Line>, b: seq<Line>, i: nat)
    requires SameTexts(a, b) && i < |a| && AlikeAt(a, b, i)
    ensures AlikeAt(a, b, i + 1) <==> HarmlessAt(a, b, i)
  {
    ParseSnoc(a, i);
    ParseSnoc(b, i);
    FeedAlike(ParseLines(a[..i]), ParseLines(b[..i]), a[i], b[i], i);
  }

  lemma {:induction false} AlikeUpTo(a: seq<Line>, b: seq<Line>, n: nat)
    requires SameTexts(a, b) && n <= |a| && forall i: nat :: i < n ==> HarmlessAt(a, b, i)
    ensures AlikeAt(a, b, n)
  {
    if n == 0 {
      assert a[..0] == [] && b[..0] == [];
    } else {
      AlikeUpTo(a, b, n - 1);
      AlikeNext(a, b, n - 1);
    }
  }

  lemma AlikeThroughout(a: seq<Line>, b: seq<Line>)
    requires SameTexts(a, b)
    ensures (forall n: nat :: n <= |a| ==> AlikeAt(a, b, n)) <==> (forall i: nat :: i < |a| ==> HarmlessAt(a, b, i))
  {
    if forall i: nat :: i < |a| ==> HarmlessAt(a, b, i) {
      forall n: nat | n <= |a| ensures AlikeAt(a, b, n) {
        AlikeUpTo(a, b, n);
      }
    } else {
      var i: nat :| i < |a| && !HarmlessAt(a, b, i);
      if AlikeAt(a, b, i) {
        AlikeNext(a, b, i);
        assert !AlikeAt(a, b, i + 1);
      }
    }
  }

  /** Looking past quotes makes no difference down a file exactly when at each line the two counts
      agree, and the addresses too where a block opens, or neither opens a block, or both close it. */
  lemma QuotesExactly(texts: seq<string>)
    ensures var a, b := ReadAll(texts), ReadBareAll(texts);
      (forall n: nat :: n <= |texts| ==> AlikeAt(a, b, n)) <==> (forall i: nat :: i < |texts| ==> HarmlessAt(a, b, i))
  {
    AlikeThroughout(ReadAll(texts), ReadBareAll(texts));
  }

  /** Quoted braces balance, and none of them comes first where a block opens. */
  ghost predicate Tame(line: string) {
    BalancedInQuotes(line) && (Net(line) > 0 ==> FirstBraceBare(line))
  }

  lemma TameIsHarmless(m: Mode, line: string)
    requires Tame(line)
    ensures Harmless(m, Read(line), ReadBare(line))
  {
    NetIsBare(line);
    if Net(line) > 0 {
      AddressesAlike(line);
    }
  }

  /** So where every line is like that, the blocks are those of the quote-aware parser. */
  lemma TameQuotesAreHarmless(texts: seq<string>)
    requires forall i :: 0 <= i < |texts| ==> Tame(texts[i])
    ensures ParseLines(ReadAll(texts)).blocks == ParseLines(ReadBareAll(texts)).blocks
  {
    var a, b := ReadAll(texts), ReadBareAll(texts);
    forall i: nat | i < |texts| ensures HarmlessAt(a, b, i) {
      TameIsHarmless(ParseLines(a[..i]).mode, texts[i]);
    }
    AlikeUpTo(a, b, |texts|);
    assert a[..|texts|] == a && b[..|texts|] == b;
  }

  // --------------------------------------------------- a file that goes wrong

  lemma QuotedLine()
    ensures Net("\"{\"") == 1 && BareNet("\"{\"") == 0
  {
    var l := "\"{\"";
    assert !Quoted(l, 0) && Quoted(l, 1) && Quoted(l, 2);
    assert CodeLength(l, 3) == 3 && CodeLength(l, 2) == 3 && CodeLength(l, 1) == 3 && CodeLength(l, 0) == 3;
    BracesTo3(l);
    NetIsBare(l);
  }

  lemma BracesTo3(l: string)
    requires l == "\"{\"" && !Quoted(l, 0) && Quoted(l, 1) && Quoted(l, 2)
    ensures CountIn(l, 3, '{', true) == 1 && CountIn(l, 3, '}', true) == 0
    ensures CountIn(l, 3, '{', false) == 0 && CountIn(l, 3, '}', false) == 0
  {
    assert CountIn(l, 1, '{', true) == 0 && CountIn(l, 1, '{', false) == 0;
    assert CountIn(l, 1, '}', true) == 0 && CountIn(l, 1, '}', false) == 0;
    assert CountIn(l, 2, '{', true) == 1 && CountIn(l, 2, '{', false) == 0;
    assert CountIn(l, 2, '}', true) == 0 && CountIn(l, 2, '}', false) == 0;
  }

  lemma BraceLine(c: char)
    requires c == '{' || c == '}'
    ensures Net([c]) == BareNet([c]) == if c == '{' then 1 else -1
  {
    var l := [c];
    assert !Quoted(l, 0) && CodeLength(l, 1) == 1 && CodeLength(l, 0) == 1;
    assert CountIn(l, 0, '{', true) == 0 && CountIn(l, 0, '{', false) == 0;
    assert CountIn(l, 0, '}', true) == 0 && CountIn(l, 0, '}', false) == 0;
    NetIsBare(l);
  }

  /** Two blocks, the first with a quoted brace in it. */
  const SWALLOWING: seq<string> := ["{", "\"{\"", "}", "{", "}"]

  lemma FiveLines(lines: seq<Line>)
    requires |lines| == 5
    ensures ParseLines(lines) ==
      Feed(Feed(Feed(Feed(Feed(Parse([], Outside), lines[0], 0), lines[1], 1), lines[2], 2), lines[3], 3), lines[4], 4)
  {
    assert lines[..0] == [] && lines[..5] == lines;
    ParseSnoc(lines, 0);
    ParseSnoc(lines, 1);
    ParseSnoc(lines, 2);
    ParseSnoc(lines, 3);
    ParseSnoc(lines, 4);
  }

  lemma BlocksByNet(lines: seq<Line>)
    requires |lines| == 5 && lines[0].net == 1 && lines[2].net == -1 && lines[3].net == 1 && lines[4].net == -1
    ensures lines[1].net == 1 ==> ParseLines(lines).blocks == []
    ensures lines[1].net == 0 ==> |ParseLines(lines).blocks| == 2
  {
    FiveLines(lines);
  }

  /** A quoted brace inside a block swallows that block and the one after it: the quote-aware parser
      finds two blocks, this one none. */
  lemma QuotedBraceSwallows()
    ensures |ParseLines(ReadBareAll(SWALLOWING)).blocks| == 2
    ensures ParseText(Join(SWALLOWING, '\n')).blocks == []
  {
    SplitJoin(SWALLOWING, '\n');
    QuotedLine();
    BraceLine('{');
    BraceLine('}');
    BlocksByNet(ReadBareAll(SWALLOWING));
    BlocksByNet(ReadAll(SWALLOWING));
  }

  /** A header with a balanced pair of quoted braces in it. */
  const HEADER: string := "\"{}\" {"

  lemma HeaderQuotes()
    ensures !Quoted(HEADER, 0) && Quoted(HEADER, 1) && Quoted(HEADER, 2) && Quoted(HEADER, 3)
    ensures !Quoted(HEADER, 4) && !Quoted(HEADER, 5)
  {
  }

  lemma HeaderCode()
    ensures CodeLength(HEADER, 0) == 6 && Uncommented(HEADER) == HEADER == Code(HEADER) && BareBrace(HEADER, 0) == 5
  {
    assert forall j :: 0 <= j < 6 ==> HEADER[j] != '#';
    HeaderQuotes();
    TrimSpaceFixes(HEADER);
  }

  lemma HeaderNet()
    ensures Net(HEADER) == BareNet(HEADER) == 1 && BalancedInQuotes(HEADER)
  {
    HeaderQuotes();
    HeaderCode();
    HeaderCount('{', true);
    HeaderCount('}', true);
    HeaderCount('{', false);
    HeaderCount('}', false);
    NetIsBare(HEADER);
  }

  lemma HeaderCount(c: char, quoted: bool)
    requires c == '{' || c == '}'
    ensures CountIn(HEADER, 6, c, quoted) == if quoted || c == '{' then 1 else 0
  {
    HeaderQuotes();
    assert CountIn(HEADER, 0, c, quoted) == 0;
    assert CountIn(HEADER, 1, c, quoted) == 0;
    assert CountIn(HEADER, 2, c, quoted) == if quoted && c == '{' then 1 else 0;
    assert CountIn(HEADER, 3, c, quoted) == if quoted then 1 else 0;
    assert CountIn(HEADER, 4, c, quoted) == if quoted then 1 else 0;
    assert CountIn(HEADER, 5, c, quoted) == if quoted then 1 else 0;
  }

  lemma {:induction false} LongWord(s: string)
    requires forall i :: 0 <= i < |s| ==> !AddressGap(s[i])
    ensures WordLength(s) == |s|
  {
    if s != "" {
      LongWord(s[1..]);
    }
  }

  lemma OneAddress(s: string)
    requires s != "" && Trimmed(s) && forall i :: 0 <= i < |s| ==> !AddressGap(s[i])
    ensures NonBlank(Words(s)) == [s]
  {
    LongWord(s);
    assert s[..|s|] == s && s[|s|..] == "";
    TrimSpaceFixes(s);
    assert [s][1..] == [];
  }

  lemma HeaderCut()
    ensures Read(HEADER).addresses == ["\""]
  {
    HeaderCode();
    assert IndexChar(HEADER, '{') == 1 && Upto(HEADER, '{') == "\"";
    TrimSpaceFixes("\"");
    OneAddress("\"");
  }

  const ADDRESS: string := "\"{}\""

  lemma HeaderWhole()
    ensures BareAddresses(HEADER) == [ADDRESS]
  {
    HeaderCode();
    assert HEADER[..5] == ADDRESS + [' '];
    TrimSnoc(ADDRESS, ' ');
    TrimSpaceFixes(ADDRESS);
    OneAddress(ADDRESS);
  }

  /** Balance is not enough: the address in front of this header's brace is cut at the quoted one. */
  lemma QuotedHeader()
    ensures Net(HEADER) == BareNet(HEADER) == 1 && BalancedInQuotes(HEADER)
    ensures Read(HEADER).addresses != ReadBare(HEADER).addresses
  {
    HeaderNet();
    HeaderCut();
    HeaderWhole();
    assert |ADDRESS| != |"\""|;
  }

  lemma BlockOfTwo(open: Line, close: Line)
    requires open.net == 1 && close.net == -1
    ensures |ParseLines([open, close]).blocks| == 1 && ParseLines([open, close]).blocks[0].addresses == open.addresses
  {
    var lines := [open, close];
    assert lines[..0] == [] && lines[..2] == lines;
    ParseSnoc(lines, 0);
    ParseSnoc(lines, 1);
  }

  lemma DifferentBlocks(a: Line, b: Line, c: Line, d: Line)
    requires a.net == b.net == 1 && c.net == d.net == -1 && a.addresses != b.addresses
    ensures ParseLines([a, c]).blocks != ParseLines([b, d]).blocks
  {
    BlockOfTwo(a, c);
    BlockOfTwo(b, d);
  }

  lemma ReadPair(x: string, y: string)
    ensures ReadAll([x, y]) == [Read(x), Read(y)] && ReadBareAll([x, y]) == [ReadBare(x), ReadBare(y)]
  {
  }

  /** So the block it opens gets an address that is not its own. */
  lemma QuotedHeaderMisread()
    ensures ParseLines(ReadAll([HEADER, "}"])).blocks != ParseLines(ReadBareAll([HEADER, "}"])).blocks
  {
    QuotedHeader();
    BraceLine('}');
    DifferentBlocks(Read(HEADER), ReadBare(HEADER), Read("}"), ReadBare("}"));
    ReadPair(HEADER, "}");
  }
}
