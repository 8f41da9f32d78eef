/** Site blocks lifted out of a Caddyfile, and one block replaced in place. */
module Caddyfile {
  import opened Base
  import opened Text

  datatype Block = Block(addresses: seq<string>, body: string, raw: string, startLine: int, endLine: int)

  // --------------------------------------------------------------- one line

  /** Whether position i of a line is inside a quoted string. */
  function Quoted(line: string, i: nat): bool
    requires i <= |line|
  {
    if i == 0 then false
    else if line[i - 1] == '"' && (i == 1 || line[i - 2] != '\\') then !Quoted(line, i - 1)
    else Quoted(line, i - 1)
  }

  /** The quotes among the first i characters that are not escaped. */
  function Quotes(line: string, i: nat): nat
    requires i <= |line|
  {
    if i == 0 then 0
    else Quotes(line, i - 1) + if line[i - 1] == '"' && (i == 1 || line[i - 2] != '\\') then 1 else 0
  }

  /** A position is inside quotes exactly behind an odd number of unescaped ones. */
  lemma {:induction false} QuotedByParity(line: string, i: nat)
    requires i <= |line|
    ensures Quoted(line, i) <==> Quotes(line, i) % 2 == 1
  {
    if i > 0 {
      QuotedByParity(line, i - 1);
    }
  }

  /** Where the comment starts: the first unquoted #. */
  predicate CommentAt(line: string, k: nat) {
    k < |line| && line[k] == '#' && !Quoted(line, k)
  }

  function CodeLength(line: string, i: nat): (k: nat)
    requires i <= |line|
    ensures i <= k <= |line|
    ensures k < |line| ==> CommentAt(line, k)
    ensures forall j :: i <= j < k ==> !CommentAt(line, j)
    decreases |line| - i
  {
    if i == |line| || CommentAt(line, i) then i else CodeLength(line, i + 1)
  }

  /** The line up to its comment. */
  function Uncommented(line: string): string {
    line[..CodeLength(line, 0)]
  }

  method StripComments(line: string) returns (r: string)
    ensures r == Uncommented(line)
  {
    var inQuote := false;
    var i := 0;
    while i < |line|
      invariant 0 <= i <= |line| && inQuote == Quoted(line, i)
      invariant CodeLength(line, 0) == CodeLength(line, i)
    {
      if line[i] == '"' {
        if i == 0 || line[i - 1] != '\\' {
          inQuote := !inQuote;
        }
      } else if line[i] == '#' {
        if !inQuote {
          return line[..i];
        }
      }
      i := i + 1;
    }
    return line;
  }

  function Count(s: string, c: char): nat {
    if s == "" then 0 else Count(s[1..], c) + if s[0] == c then 1 else 0
  }

  function Code(line: string): string { TrimSpace(Uncommented(line)) }

  /** Braces opened less braces closed. */
  function Net(line: string): int { Count(Code(line), '{') - Count(Code(line), '}') }

  /** The text up to a character, or all of it. */
  function Upto(s: string, c: char): (r: string)
    ensures r <= s && c !in r && (r == s || s[|r|] == c)
  {
    if IndexChar(s, c) < 0 then s else s[..IndexChar(s, c)]
  }

  predicate AddressGap(c: char) { c == ',' || c == ' ' || c == '\t' }

  /** `FieldsFunc` on commas, blanks and tabs: the maximal runs of other characters. */
  function Words(s: string): seq<string> {
    if s == "" then []
    else if AddressGap(s[0]) then Words(s[1..])
    else
      var k := WordLength(s);
      [s[..k]] + Words(s[k..])
  }

  function WordLength(s: string): (k: nat)
    ensures k <= |s| && (s != "" && !AddressGap(s[0]) ==> k > 0)
    ensures forall i :: 0 <= i < k ==> !AddressGap(s[i])
    ensures k < |s| ==> AddressGap(s[k])
  {
    if s == "" || AddressGap(s[0]) then 0 else WordLength(s[1..]) + 1
  }

  lemma {:induction false} WordLengthIs(w: string, rest: string)
    requires forall i :: 0 <= i < |w| ==> !AddressGap(w[i])
    requires rest == "" || AddressGap(rest[0])
    ensures WordLength(w + rest) == |w|
  {
    if w == "" {
      assert w + rest == rest;
    } else {
      assert (w + rest)[1..] == w[1..] + rest;
      WordLengthIs(w[1..], rest);
    }
  }

  lemma WordsCons(w: string, rest: string)
    requires w != "" && forall i :: 0 <= i < |w| ==> !AddressGap(w[i])
    requires rest == "" || AddressGap(rest[0])
    ensures Words(w + rest) == [w] + Words(rest)
  {
    WordLengthIs(w, rest);
    assert (w + rest)[..|w|] == w && (w + rest)[|w|..] == rest;
  }

  /** An address without gaps, and without white space around it. */
  predicate IsAddress(w: string) {
    w != "" && (forall i :: 0 <= i < |w| ==> !AddressGap(w[i])) && Trimmed(w)
  }

  /** Addresses as they are commonly written, with a comma and a blank between them. */
  function Listing(ws: seq<string>): string {
    if ws == [] then "" else if |ws| == 1 then ws[0] else ws[0] + (", " + Listing(ws[1..]))
  }

  lemma {:induction false} WordsOfListing(ws: seq<string>)
    requires forall i :: 0 <= i < |ws| ==> IsAddress(ws[i])
    ensures Words(Listing(ws)) == ws && NonBlank(ws) == ws
  {
    if ws != [] {
      assert IsAddress(ws[0]);
      TrimSpaceFixes(ws[0]);
      WordsOfListing(ws[1..]);
      assert ws == [ws[0]] + ws[1..];
      if |ws| == 1 {
        WordsCons(ws[0], "");
        assert ws[0] + "" == ws[0];
      } else {
        var rest := ", " + Listing(ws[1..]);
        WordsCons(ws[0], rest);
        GapsSkipped(Listing(ws[1..]));
      }
    }
  }

  lemma GapsSkipped(s: string)
    ensures Words(", " + s) == Words(s)
  {
    assert (", " + s)[1..] == " " + s;
    assert (" " + s)[1..] == s;
  }

  lemma {:induction false} ListingTrimmed(ws: seq<string>)
    requires forall i :: 0 <= i < |ws| ==> IsAddress(ws[i])
    ensures Trimmed(Listing(ws)) && (ws != [] ==> Listing(ws) != "")
  {
    if |ws| == 1 {
      assert IsAddress(ws[0]);
    } else if |ws| > 1 {
      ListingTrimmed(ws[1..]);
      assert IsAddress(ws[0]);
      var s, t := Listing(ws), Listing(ws[1..]);
      assert s[0] == ws[0][0] && s[|s| - 1] == t[|t| - 1];
    }
  }

  /** The addresses of a header are read back as they were listed. */
  lemma AddressesReadBack(ws: seq<string>, rest: string)
    requires forall i :: 0 <= i < |ws| ==> IsAddress(ws[i]) && '{' !in ws[i]
    ensures SplitAddresses(Listing(ws) + "{" + rest) == ws
  {
    var l := Listing(ws);
    NoBraceListed(ws);
    var s := l + "{" + rest;
    assert s[|l|] == '{' && '{' in s;
    assert s[..|l|] == l;
    assert Upto(s, '{') == l;
    ListingTrimmed(ws);
    TrimSpaceFixes(l);
    WordsOfListing(ws);
  }

  lemma {:induction false} NoBraceListed(ws: seq<string>)
    requires forall i :: 0 <= i < |ws| ==> '{' !in ws[i]
    ensures '{' !in Listing(ws)
  {
    if |ws| > 1 {
      NoBraceListed(ws[1..]);
    }
  }

  function NonBlank(words: seq<string>): seq<string> {
    if words == [] then []
    else (if TrimSpace(words[0]) != "" then [TrimSpace(words[0])] else []) + NonBlank(words[1..])
  }

  /** The addresses in front of the opening brace. */
  function SplitAddresses(code: string): seq<string> {
    NonBlank(Words(TrimSpace(Upto(code, '{'))))
  }

  /** What the parser reads off one line. */
  datatype Line = Line(text: string, net: int, addresses: seq<string>)

  function Read(text: string): Line {
    var code := Code(text);
    Line(text, Net(text), SplitAddresses(code))
  }

  function ReadAll(texts: seq<string>): (r: seq<Line>)
    ensures |r| == |texts| && forall i :: 0 <= i < |r| ==> r[i] == Read(texts[i])
  {
    seq(|texts|, i requires 0 <= i < |texts| => Read(texts[i]))
  }

  function Texts(lines: seq<Line>): (r: seq<string>)
    ensures |r| == |lines| && forall i :: 0 <= i < |r| ==> r[i] == lines[i].text
  {
    seq(|lines|, i requires 0 <= i < |lines| => lines[i].text)
  }

  // ------------------------------------------------------------- the parser

  /** Between blocks, or inside one that started at a known line. */
  datatype Mode =
    | Outside
    | Inside(depth: nat, header: seq<string>, body: seq<Line>, raw: seq<Line>, start: nat)

  datatype Parse = Parse(blocks: seq<Block>, mode: Mode)

  function Feed(p: Parse, line: Line, i: nat): Parse {
    match p.mode
    case Outside =>
      if line.net > 0 then p.(mode := Inside(line.net, line.addresses, [], [line], i)) else p
    case Inside(depth, header, body, raw, start) =>
      if depth + line.net <= 0 then
        var text := Join(Texts(raw + [line]), '\n');
        Parse(p.blocks + [Block(header, Join(Texts(body), '\n'), text, start, i)], Outside)
      else
        p.(mode := Inside(depth + line.net, header, body + [line], raw + [line], start))
  }

  /** The parser after the given lines, the first of which is line `at`. */
  function FeedAll(p: Parse, lines: seq<Line>, at: nat): Parse {
    if lines == [] then p
    else Feed(FeedAll(p, lines[..|lines| - 1], at), lines[|lines| - 1], at + |lines| - 1)
  }

  function ParseLines(lines: seq<Line>): Parse { FeedAll(Parse([], Outside), lines, 0) }

  function ParseText(src: string): Parse { ParseLines(ReadAll(Split(src, '\n'))) }

  method ParseCaddyfile(src: string) returns (blocks: seq<Block>)
    ensures blocks == ParseText(src).blocks
  {
    var lines := Split(src, '\n');
    blocks := ParseAll(lines);
  }

  /** The parser's variables: the blocks found, and the one being collected while the depth is not 0. */
  datatype Progress = Progress(
    blocks: seq<Block>, depth: int, header: seq<string>, body: seq<string>, raw: seq<string>, start: nat)

  /** The variables stand for the automaton's state. */
  ghost predicate Stands(v: Progress, p: Parse) {
    && v.depth >= 0 && v.blocks == p.blocks
    && if v.depth == 0 then p.mode.Outside?
       else
         && p.mode.Inside? && p.mode.depth == v.depth && p.mode.header == v.header && p.mode.start == v.start
         && v.body == Texts(p.mode.body) && v.raw == Texts(p.mode.raw)
  }

  method ParseAll(lines: seq<string>) returns (blocks: seq<Block>)
    ensures blocks == ParseLines(ReadAll(lines)).blocks
  {
    var v := Progress([], 0, [], [], [], 0);
    ghost var all := ReadAll(lines);
    for i := 0 to |lines|
      invariant Stands(v, ParseLines(all[..i]))
    {
      ParseSnoc(all, i);
      v := TakeLine(v, lines[i], i, ParseLines(all[..i]));
    }
    assert all[..|lines|] == all;
    blocks := v.blocks;
  }

  /** The body of the loop. */
  method TakeLine(v: Progress, line: string, i: nat, ghost p: Parse) returns (v': Progress)
    requires Stands(v, p)
    ensures Stands(v', Feed(p, Read(line), i))
  {
    var net, addresses := ReadLine(line);
    v' := Advance(v, Line(line, net, addresses), i, p);
  }

  method Advance(v: Progress, line: Line, i: nat, ghost p: Parse) returns (v': Progress)
    requires Stands(v, p)
    ensures Stands(v', Feed(p, line, i))
  {
    if v.depth == 0 {
      v' := v;
      if line.net > 0 {
        TextsSnoc([], line);
        v' := v.(depth := line.net, header := line.addresses, raw := [line.text], body := [], start := i);
      }
      return;
    }
    TextsSnoc(p.mode.raw, line);
    TextsSnoc(p.mode.body, line);
    v' := v.(raw := v.raw + [line.text], depth := v.depth + line.net);
    if v'.depth <= 0 {
      var block := Block(v.header, Join(v.body, '\n'), Join(v'.raw, '\n'), v.start, i);
      v' := Progress(v.blocks + [block], 0, [], [], [], v.start);
      return;
    }
    v' := v'.(body := v.body + [line.text]);
  }

  lemma ParseSnoc(lines: seq<Line>, i: nat)
    requires i < |lines|
    ensures ParseLines(lines[..i + 1]) == Feed(ParseLines(lines[..i]), lines[i], i)
  {
    assert lines[..i + 1][..i] == lines[..i];
  }

  lemma TextsSnoc(lines: seq<Line>, l: Line)
    ensures Texts(lines + [l]) == Texts(lines) + [l.text] && Texts([]) == []
    ensures lines == [] ==> lines + [l] == [l]
  {
  }

  /** The head of the loop: comment stripped, braces counted, addresses split. */
  method ReadLine(line: string) returns (net: int, addresses: seq<string>)
    ensures Line(line, net, addresses) == Read(line)
  {
    var stripped := StripComments(line);
    var code := TrimSpace(stripped);
    net := Count(code, '{') - Count(code, '}');
    addresses := SplitAddresses(code);
  }

  method ReplaceBlock(src: string, blk: Block, raw: string) returns (r: Result<string>)
    ensures r == Replaced(src, blk, raw)
  {
    var lines := Split(src, '\n');
    if blk.startLine < 0 || blk.endLine < blk.startLine || blk.endLine >= |lines| {
      return Err("block is no longer where it was parsed from");
    }
    var out := lines[..blk.startLine];
    out := out + Split(TrimEnd(raw), '\n');
    out := out + lines[blk.endLine + 1..];
    return Ok(Join(out, '\n'));
  }

  /** `TrimRight(raw, "\r\n")`. */
  function TrimEnd(s: string): string {
    if s != "" && (s[|s| - 1] == '\r' || s[|s| - 1] == '\n') then TrimEnd(s[..|s| - 1]) else s
  }

  function Replaced(src: string, blk: Block, raw: string): Result<string> {
    var lines := Split(src, '\n');
    if blk.startLine < 0 || blk.endLine < blk.startLine || blk.endLine >= |lines| then
      Err("block is no longer where it was parsed from")
    else Ok(Join(lines[..blk.startLine] + Split(TrimEnd(raw), '\n') + lines[blk.endLine + 1..], '\n'))
  }

  // -------------------------------------------------------- compositionality

  function Shift(blocks: seq<Block>, d: int): (r: seq<Block>)
    ensures |r| == |blocks|
    ensures forall i :: 0 <= i < |r| ==>
              r[i] == blocks[i].(startLine := blocks[i].startLine + d, endLine := blocks[i].endLine + d)
  {
    seq(|blocks|, i requires 0 <= i < |blocks| =>
      blocks[i].(startLine := blocks[i].startLine + d, endLine := blocks[i].endLine + d))
  }

  lemma {:induction false} FeedConcat(p: Parse, a: seq<Line>, b: seq<Line>, at: nat)
    ensures FeedAll(p, a + b, at) == FeedAll(FeedAll(p, a, at), b, at + |a|)
    decreases |b|
  {
    if b == [] {
      assert a + b == a;
    } else {
      var init := b[..|b| - 1];
      assert (a + b)[..|a + b| - 1] == a + init;
      FeedConcat(p, a, init, at);
    }
  }

  function ShiftMode(m: Mode, d: nat): Mode {
    if m.Outside? then m else m.(start := m.start + d)
  }

  /** From between blocks, what follows parses as it would at the top of a file,
      after the blocks already found and with its lines counted from there. */
  lemma {:induction false} FeedFromOutside(found: seq<Block>, lines: seq<Line>, at: nat)
    ensures FeedAll(Parse(found, Outside), lines, at) ==
            Parse(found + Shift(ParseLines(lines).blocks, at), ShiftMode(ParseLines(lines).mode, at))
  {
    if lines == [] {
      assert found + Shift([], at) == found;
    } else {
      var n := |lines| - 1;
      FeedFromOutside(found, lines[..n], at);
      FeedShifted(found, ParseLines(lines[..n]), lines[n], n, at);
    }
  }

  lemma FeedShifted(found: seq<Block>, p: Parse, line: Line, i: nat, at: nat)
    ensures var q := Feed(p, line, i);
            Feed(Parse(found + Shift(p.blocks, at), ShiftMode(p.mode, at)), line, at + i) ==
            Parse(found + Shift(q.blocks, at), ShiftMode(q.mode, at))
  {
    var q := Feed(p, line, i);
    if q.blocks != p.blocks {
      assert Shift(q.blocks, at) == Shift(p.blocks, at) + Shift([q.blocks[|p.blocks|]], at);
      assert found + Shift(q.blocks, at) == found + Shift(p.blocks, at) + Shift([q.blocks[|p.blocks|]], at);
    }
  }

  /** Text that returns to depth 0 parses by itself; so does what follows it. */
  lemma ParseConcat(a: seq<Line>, b: seq<Line>)
    requires ParseLines(a).mode.Outside?
    ensures ParseLines(a + b) ==
            Parse(ParseLines(a).blocks + Shift(ParseLines(b).blocks, |a|), ShiftMode(ParseLines(b).mode, |a|))
  {
    FeedConcat(Parse([], Outside), a, b, 0);
    FeedFromOutside(ParseLines(a).blocks, b, |a|);
  }

  // ------------------------------------------------------- where blocks lie

  /** Block k opens and closes between blocks, comes after exactly the blocks
      before it, and is made of its own lines. */
  ghost predicate Placed(lines: seq<Line>, blocks: seq<Block>, k: nat)
    requires k < |blocks|
  {
    var b := blocks[k];
    && 0 <= b.startLine < b.endLine < |lines|
    && ParseLines(lines[..b.startLine]) == Parse(blocks[..k], Outside)
    && ParseLines(lines[..b.endLine + 1]) == Parse(blocks[..k + 1], Outside)
    && b.addresses == lines[b.startLine].addresses
    && b.body == Join(Texts(lines[b.startLine + 1..b.endLine]), '\n')
    && b.raw == Join(Texts(lines[b.startLine..b.endLine + 1]), '\n')
    && lines[b.endLine].net < 0
  }

  ghost predicate ModeOk(lines: seq<Line>, p: Parse) {
    p.mode.Inside? ==>
      var m := p.mode;
      && m.depth > 0 && m.start < |lines|
      && ParseLines(lines[..m.start]) == Parse(p.blocks, Outside)
      && m.header == lines[m.start].addresses
      && m.body == lines[m.start + 1..]
      && m.raw == lines[m.start..]
  }

  lemma {:induction false} BlocksPlaced(lines: seq<Line>)
    ensures ModeOk(lines, ParseLines(lines))
    ensures forall k :: 0 <= k < |ParseLines(lines).blocks| ==> Placed(lines, ParseLines(lines).blocks, k)
  {
    if lines != [] {
      var n := |lines| - 1;
      var init, p, q := lines[..n], ParseLines(lines[..n]), ParseLines(lines);
      BlocksPlaced(init);
      forall k | 0 <= k < |q.blocks| ensures Placed(lines, q.blocks, k) {
        if k < |p.blocks| {
          StillPlaced(lines, p.blocks, q.blocks, k);
        } else {
          NewlyPlaced(lines);
        }
      }
      ModeAdvances(lines);
    }
  }

  lemma StillPlaced(lines: seq<Line>, before: seq<Block>, after: seq<Block>, k: nat)
    requires lines != [] && before <= after && k < |before| && Placed(lines[..|lines| - 1], before, k)
    ensures Placed(lines, after, k)
  {
    var init, b := lines[..|lines| - 1], before[k];
    assert lines[..b.startLine] == init[..b.startLine] && lines[..b.endLine + 1] == init[..b.endLine + 1];
    assert after[..k] == before[..k] && after[..k + 1] == before[..k + 1];
    assert lines[b.startLine + 1..b.endLine] == init[b.startLine + 1..b.endLine];
    assert lines[b.startLine..b.endLine + 1] == init[b.startLine..b.endLine + 1];
  }

  lemma SnocSlices<T>(init: seq<T>, x: T, i: nat)
    requires i <= |init|
    ensures (init + [x])[..i] == init[..i] && (init + [x])[i..] == init[i..] + [x]
    ensures (init + [x])[i..|init|] == init[i..] && (init + [x])[i..|init| + 1] == init[i..] + [x]
  {
  }

  lemma ParseLast(init: seq<Line>, x: Line)
    ensures ParseLines(init + [x]) == Feed(ParseLines(init), x, |init|)
  {
    assert (init + [x])[..|init|] == init;
  }

  lemma NewlyPlaced(lines: seq<Line>)
    requires lines != []
    requires ModeOk(lines[..|lines| - 1], ParseLines(lines[..|lines| - 1]))
    requires |ParseLines(lines).blocks| > |ParseLines(lines[..|lines| - 1]).blocks|
    ensures Placed(lines, ParseLines(lines).blocks, |ParseLines(lines[..|lines| - 1]).blocks|)
  {
    var init, x := lines[..|lines| - 1], lines[|lines| - 1];
    assert lines == init + [x];
    ParseLast(init, x);
    var p := ParseLines(init);
    ClosedHere(init, x, p, Feed(p, x, |init|));
  }

  lemma ClosedHere(init: seq<Line>, x: Line, p: Parse, q: Parse)
    requires p == ParseLines(init) && q == Feed(p, x, |init|) == ParseLines(init + [x])
    requires ModeOk(init, p) && |q.blocks| > |p.blocks|
    ensures Placed(init + [x], q.blocks, |p.blocks|)
  {
    var m, k := p.mode, |p.blocks|;
    SnocSlices(init, x, m.start);
    SnocSlices(init, x, m.start + 1);
    assert q.blocks[..k] == p.blocks && q.blocks[..k + 1] == q.blocks;
    assert (init + [x])[..|init| + 1] == init + [x];
  }

  lemma ModeAdvances(lines: seq<Line>)
    requires lines != []
    requires ModeOk(lines[..|lines| - 1], ParseLines(lines[..|lines| - 1]))
    ensures ModeOk(lines, ParseLines(lines))
  {
    var init, x := lines[..|lines| - 1], lines[|lines| - 1];
    assert lines == init + [x];
    ParseLast(init, x);
    var p := ParseLines(init);
    AdvancesHere(init, x, p, Feed(p, x, |init|));
  }

  lemma AdvancesHere(init: seq<Line>, x: Line, p: Parse, q: Parse)
    requires p == ParseLines(init) && q == Feed(p, x, |init|) == ParseLines(init + [x]) && ModeOk(init, p)
    ensures ModeOk(init + [x], q)
  {
    if q.mode.Inside? {
      var s := q.mode.start;
      SnocSlices(init, x, s);
      if p.mode.Outside? {
        assert (init + [x])[|init| + 1..] == [] && init[|init|..] == [];
        assert init[..|init|] == init;
      } else {
        SnocSlices(init, x, s + 1);
      }
    }
  }

  // ------------------------------------------------------------ replacement

  /** Around any parsed block the file falls into three parts that parse apart. */
  lemma BlockSplits(lines: seq<Line>, k: nat)
    requires k < |ParseLines(lines).blocks|
    ensures var blocks := ParseLines(lines).blocks;
            Placed(lines, blocks, k) &&
            var b := blocks[k];
            ParseLines(lines).blocks ==
              blocks[..k + 1] + Shift(ParseLines(lines[b.endLine + 1..]).blocks, b.endLine + 1)
  {
    BlocksPlaced(lines);
    assert Placed(lines, ParseLines(lines).blocks, k);
    ParseFrom(lines, ParseLines(lines).blocks[k].endLine + 1);
  }

  lemma ParseFrom(lines: seq<Line>, i: nat)
    requires i <= |lines| && ParseLines(lines[..i]).mode.Outside?
    ensures ParseLines(lines).blocks == ParseLines(lines[..i]).blocks + Shift(ParseLines(lines[i..]).blocks, i)
  {
    assert lines == lines[..i] + lines[i..];
    ParseConcat(lines[..i], lines[i..]);
  }

  function Spliced(lines: seq<Line>, b: Block, text: seq<Line>): seq<Line>
    requires 0 <= b.startLine <= b.endLine < |lines|
  {
    lines[..b.startLine] + text + lines[b.endLine + 1..]
  }

  /** The blocks before block k, then the replacement's own (`height` lines), then
      the old ones after it: addresses, body and raw text unchanged, lines moved along. */
  ghost predicate LocalEdit(before: seq<Block>, k: nat, text: seq<Block>, height: nat, after: seq<Block>) {
    && k < |before|
    && var b := before[k];
       after == before[..k] + Shift(text, b.startLine)
                + Shift(before[k + 1..], height - (b.endLine + 1 - b.startLine))
  }

  /** Replacing a block by text that returns to depth 0 changes nothing else. */
  lemma ReplacementIsLocal(lines: seq<Line>, k: nat, text: seq<Line>)
    requires k < |ParseLines(lines).blocks| && ParseLines(text).mode.Outside?
    ensures var b := ParseLines(lines).blocks[k];
            && 0 <= b.startLine <= b.endLine < |lines|
            && LocalEdit(ParseLines(lines).blocks, k, ParseLines(text).blocks, |text|,
                         ParseLines(Spliced(lines, b, text)).blocks)
  {
    Surroundings(lines, k);
    var b := ParseLines(lines).blocks[k];
    var tail := lines[b.endLine + 1..];
    ThreeParts(lines[..b.startLine], text, tail);
    LocalFrom(ParseLines(lines).blocks, k, ParseLines(text).blocks, |text|, ParseLines(tail).blocks,
              ParseLines(lines[..b.startLine] + text + tail).blocks);
  }

  lemma Surroundings(lines: seq<Line>, k: nat)
    requires k < |ParseLines(lines).blocks|
    ensures var blocks := ParseLines(lines).blocks; var b := blocks[k];
            && 0 <= b.startLine <= b.endLine < |lines|
            && ParseLines(lines[..b.startLine]) == Parse(blocks[..k], Outside)
            && blocks == blocks[..k + 1] + Shift(ParseLines(lines[b.endLine + 1..]).blocks, b.endLine + 1)
  {
    BlockSplits(lines, k);
  }

  lemma LocalFrom(before: seq<Block>, k: nat, text: seq<Block>, height: nat, tail: seq<Block>, after: seq<Block>)
    requires k < |before| && before == before[..k + 1] + Shift(tail, before[k].endLine + 1)
    requires after == before[..k] + Shift(text, before[k].startLine) + Shift(tail, before[k].startLine + height)
    ensures LocalEdit(before, k, text, height, after)
  {
    Reshifted(before, k, tail, height);
  }

  lemma ThreeParts(head: seq<Line>, text: seq<Line>, tail: seq<Line>)
    requires ParseLines(head).mode.Outside? && ParseLines(text).mode.Outside?
    ensures ParseLines(head + text + tail).blocks ==
            ParseLines(head).blocks + Shift(ParseLines(text).blocks, |head|)
            + Shift(ParseLines(tail).blocks, |head| + |text|)
  {
    ParseConcat(head, text);
    ParseConcat(head + text, tail);
  }

  lemma Reshifted(blocks: seq<Block>, k: nat, tail: seq<Block>, height: nat)
    requires k < |blocks| && blocks == blocks[..k + 1] + Shift(tail, blocks[k].endLine + 1)
    ensures Shift(blocks[k + 1..], height - (blocks[k].endLine + 1 - blocks[k].startLine)) ==
            Shift(tail, blocks[k].startLine + height)
  {
    assert blocks[k + 1..] == Shift(tail, blocks[k].endLine + 1);
  }

  /** The depth change over some lines. */
  function Sum(lines: seq<Line>): int {
    if lines == [] then 0 else Sum(lines[..|lines| - 1]) + lines[|lines| - 1].net
  }

  ghost predicate OpenAfter(depth: int, tail: seq<Line>, i: nat)
    requires i <= |tail|
  {
    depth + Sum(tail[..i]) > 0
  }

  /** No line of the tail brings the depth back to zero. */
  ghost predicate StaysOpen(depth: int, tail: seq<Line>) {
    forall i: nat :: i <= |tail| ==> OpenAfter(depth, tail, i)
  }

  lemma StaysOpenSnoc(depth: int, tail: seq<Line>)
    requires tail != []
    ensures StaysOpen(depth, tail) <==> StaysOpen(depth, tail[..|tail| - 1]) && depth + Sum(tail) > 0
  {
    var n := |tail| - 1;
    forall i: nat | i <= n ensures OpenAfter(depth, tail, i) == OpenAfter(depth, tail[..n], i) {
      assert tail[..i] == tail[..n][..i];
    }
    assert tail[..n + 1] == tail;
    assert OpenAfter(depth, tail, n + 1) <==> depth + Sum(tail) > 0;
  }

  /** The block open in p is still open in q, or is the first one q has found since. */
  ghost predicate OpenOrFirst(p: Parse, tail: seq<Line>, q: Parse)
    requires p.mode.Inside?
  {
    if StaysOpen(p.mode.depth, tail) then
      q.blocks == p.blocks && q.mode.Inside? && q.mode.start == p.mode.start && q.mode.depth == p.mode.depth + Sum(tail)
    else
      |q.blocks| > |p.blocks| && q.blocks[|p.blocks|].startLine == p.mode.start
  }

  lemma {:induction false} FeedOpen(p: Parse, tail: seq<Line>, at: nat)
    requires p.mode.Inside? && p.mode.depth > 0
    ensures OpenOrFirst(p, tail, FeedAll(p, tail, at))
  {
    if tail == [] {
      assert forall i: nat :: i <= |tail| ==> OpenAfter(p.mode.depth, tail, i);
    } else {
      var n := |tail| - 1;
      FeedOpen(p, tail[..n], at);
      StaysOpenSnoc(p.mode.depth, tail);
      FeedKeepsFound(FeedAll(p, tail[..n], at), tail[n], at + n);
    }
  }

  lemma FeedKeepsFound(p: Parse, line: Line, i: nat)
    ensures p.blocks <= Feed(p, line, i).blocks
  {
  }

  lemma LeftOpen(head: seq<Line>, text: seq<Line>)
    requires ParseLines(head).mode.Outside? && ParseLines(text).mode.Inside?
    ensures var p, t := ParseLines(head + text), ParseLines(text);
      && p.blocks == ParseLines(head).blocks + Shift(t.blocks, |head|)
      && p.mode.Inside? && p.mode.depth == t.mode.depth > 0 && p.mode.start < |head| + |text|
  {
    ParseConcat(head, text);
    BlocksPlaced(text);
  }

  lemma OpenParts(head: seq<Line>, text: seq<Line>, tail: seq<Line>)
    requires ParseLines(head).mode.Outside? && ParseLines(text).mode.Inside?
    ensures var found := ParseLines(head).blocks + Shift(ParseLines(text).blocks, |head|);
      var after := ParseLines(head + text + tail).blocks;
      if StaysOpen(ParseLines(text).mode.depth, tail) then after == found
      else |after| > |found| && after[|found|].startLine < |head| + |text|
  {
    LeftOpen(head, text);
    FeedConcat(Parse([], Outside), head + text, tail, 0);
    FeedOpen(ParseLines(head + text), tail, |head + text|);
  }

  /** Text that leaves a brace open keeps an edit local in one case only: no block follows, and
      nothing behind it closes the brace. */
  lemma UnbalancedEdit(lines: seq<Line>, k: nat, text: seq<Line>)
    requires k < |ParseLines(lines).blocks| && ParseLines(text).mode.Inside?
    ensures var blocks := ParseLines(lines).blocks; var b := blocks[k];
            && 0 <= b.startLine <= b.endLine < |lines|
            && (LocalEdit(blocks, k, ParseLines(text).blocks, |text|, ParseLines(Spliced(lines, b, text)).blocks) <==>
                  OpenAtEnd(lines, k, ParseLines(text)))
  {
    Surroundings(lines, k);
    var blocks := ParseLines(lines).blocks;
    var b := blocks[k];
    OpenParts(lines[..b.startLine], text, lines[b.endLine + 1..]);
    forall i | k < i < |blocks| ensures blocks[i].startLine > b.endLine {
      BlocksInOrder(lines, k, i);
    }
    OpenEdit(blocks, k, ParseLines(text).blocks, |text|, ParseLines(Spliced(lines, b, text)).blocks,
             StaysOpen(ParseLines(text).mode.depth, lines[b.endLine + 1..]));
  }

  lemma OpenEdit(before: seq<Block>, k: nat, text: seq<Block>, height: nat, after: seq<Block>, open: bool)
    requires k < |before| && forall i :: k < i < |before| ==> before[i].startLine > before[k].endLine
    requires var found := before[..k] + Shift(text, before[k].startLine);
      if open then after == found else |after| > |found| && after[|found|].startLine < before[k].startLine + height
    ensures LocalEdit(before, k, text, height, after) <==> k + 1 == |before| && open
  {
    var found := before[..k] + Shift(text, before[k].startLine);
    var rest := Shift(before[k + 1..], height - (before[k].endLine + 1 - before[k].startLine));
    assert |rest| == |before| - k - 1;
    assert |rest| > 0 ==> (found + rest)[|found|] == rest[0];
  }

  /** Whatever opens a block, stays inside it and closes it at its last line is one block. */
  lemma BlockFound(lines: seq<Line>)
    requires |lines| >= 2 && lines[0].net > 0
    requires StaysOpen(lines[0].net, lines[1..|lines| - 1]) && lines[0].net + Sum(lines[1..]) <= 0
    ensures var p := ParseLines(lines);
      && p.mode.Outside? && |p.blocks| == 1 && p.blocks[0].startLine == 0 && p.blocks[0].endLine == |lines| - 1
      && p.blocks[0].addresses == lines[0].addresses
  {
    var n := |lines| - 1;
    var first, middle := [lines[0]], lines[1..n];
    assert lines[..n] == first + middle && lines[1..] == middle + [lines[n]];
    ParseSnoc(lines, n);
    assert lines[..n + 1] == lines;
    FirstOpens(lines[0]);
    FeedConcat(Parse([], Outside), first, middle, 0);
    FeedOpen(ParseLines(first), middle, 1);
    SumSnoc(middle, lines[n]);
    BlocksPlaced(lines);
    assert Placed(lines, ParseLines(lines).blocks, 0);
  }

  lemma FirstOpens(line: Line)
    requires line.net > 0
    ensures ParseLines([line]) == Parse([], Inside(line.net, line.addresses, [], [line], 0))
  {
    ParseSnoc([line], 0);
    assert [line][..0] == [] && [line][..1] == [line];
  }

  lemma SumSnoc(lines: seq<Line>, l: Line)
    ensures Sum(lines + [l]) == Sum(lines) + l.net
  {
    assert (lines + [l])[..|lines|] == lines;
  }

  /** Blocks are disjoint and in file order. */
  lemma BlocksInOrder(lines: seq<Line>, k: nat, l: nat)
    requires k < l < |ParseLines(lines).blocks|
    ensures var blocks := ParseLines(lines).blocks;
            blocks[k].startLine < blocks[k].endLine < blocks[l].startLine < blocks[l].endLine
  {
    BlocksPlaced(lines);
    var blocks := ParseLines(lines).blocks;
    assert Placed(lines, blocks, k) && Placed(lines, blocks, l);
    var head := lines[..blocks[l].startLine];
    BlocksPlaced(head);
    assert Placed(head, ParseLines(head).blocks, k);
  }

  /** A file in which no line opens more braces than it closes has no blocks. */
  lemma {:induction false} NoneOpens(lines: seq<Line>)
    requires forall i :: 0 <= i < |lines| ==> lines[i].net <= 0
    ensures ParseLines(lines) == Parse([], Outside)
  {
    if lines != [] {
      NoneOpens(lines[..|lines| - 1]);
    }
  }

  const ONE_LINE: string := "a { }"

  lemma OneLineNet()
    ensures Net(ONE_LINE) == 0
  {
    var l := ONE_LINE;
    assert forall j :: 0 <= j < 5 ==> l[j] != '#';
    assert Uncommented(l) == l;
    TrimSpaceFixes(l);
    OneLineCount('{');
    OneLineCount('}');
  }

  lemma OneLineCount(c: char)
    requires c == '{' || c == '}'
    ensures Count(ONE_LINE, c) == 1
  {
    assert ONE_LINE[1..] == " { }" && " { }"[1..] == "{ }" && "{ }"[1..] == " }" && " }"[1..] == "}" && "}"[1..] == "";
    assert Count("}", c) == if c == '}' then 1 else 0;
    assert Count(" }", c) == Count("}", c);
    assert Count("{ }", c) == 1;
    assert Count(" { }", c) == 1;
  }

  /** So a block written on one line is not seen. */
  lemma OneLineBlockSkipped()
    ensures ParseText(ONE_LINE).blocks == []
  {
    OneLineNet();
    SplitOne(ONE_LINE, '\n');
    NoneOpens(ReadAll([ONE_LINE]));
  }

  // ------------------------------------------------------------- whole files

  lemma ReadSlices(lines: seq<string>, i: nat, j: nat)
    requires i <= j <= |lines|
    ensures ReadAll(lines)[..i] == ReadAll(lines[..i])
    ensures ReadAll(lines)[j..] == ReadAll(lines[j..])
    ensures Texts(ReadAll(lines)[i..j]) == lines[i..j]
  {
  }

  lemma FreePart(lines: seq<string>, i: nat, j: nat)
    requires i <= j <= |lines| && Free(lines, '\n')
    ensures Free(lines[..i], '\n') && Free(lines[j..], '\n') && Free(lines[i..j], '\n')
  {
  }

  lemma FreeConcat(a: seq<string>, b: seq<string>, c: seq<string>)
    requires Free(a, '\n') && Free(b, '\n') && Free(c, '\n')
    ensures Free(a + b + c, '\n')
  {
  }

  /** The lines with those of the block replaced. */
  function Around(lines: seq<string>, b: Block, text: seq<string>): seq<string>
    requires 0 <= b.startLine <= b.endLine < |lines|
  {
    lines[..b.startLine] + text + lines[b.endLine + 1..]
  }

  /** The edited file has the old lines around the new ones, byte for byte. */
  lemma ReplacedLines(src: string, b: Block, raw: string)
    requires 0 <= b.startLine <= b.endLine < |Split(src, '\n')|
    ensures Replaced(src, b, raw).Ok?
    ensures Split(Replaced(src, b, raw).value, '\n') == Around(Split(src, '\n'), b, Split(TrimEnd(raw), '\n'))
  {
    var lines := Split(src, '\n');
    SplitFree(src, '\n');
    SplitFree(TrimEnd(raw), '\n');
    FreePart(lines, b.startLine, b.endLine + 1);
    FreeConcat(lines[..b.startLine], Split(TrimEnd(raw), '\n'), lines[b.endLine + 1..]);
    SplitJoin(lines[..b.startLine] + Split(TrimEnd(raw), '\n') + lines[b.endLine + 1..], '\n');
  }

  /** When raw editing is safe: the edited file parses to the old blocks around the text's own
      exactly if the text returns to depth 0, or leaves a brace open at the end of the file. */
  lemma EditIsLocal(src: string, k: nat, raw: string)
    requires k < |ParseText(src).blocks|
    ensures Editable(src, k, raw)
  {
    var lines, text := ReadAll(Split(src, '\n')), ReadAll(Split(TrimEnd(raw), '\n'));
    if ParseLines(text).mode.Outside? {
      ReplacementIsLocal(lines, k, text);
    } else {
      UnbalancedEdit(lines, k, text);
    }
    ReplacedReads(src, ParseText(src).blocks[k], raw);
  }

  /** The text leaves a brace open that nothing behind block k closes, and no block follows. */
  ghost predicate OpenAtEnd(lines: seq<Line>, k: nat, text: Parse)
    requires k < |ParseLines(lines).blocks|
  {
    var blocks := ParseLines(lines).blocks;
    && text.mode.Inside? && k + 1 == |blocks| && 0 <= blocks[k].endLine < |lines|
    && StaysOpen(text.mode.depth, lines[blocks[k].endLine + 1..])
  }

  ghost predicate Editable(src: string, k: nat, raw: string)
    requires k < |ParseText(src).blocks|
  {
    var r, text := Replaced(src, ParseText(src).blocks[k], raw), ParseText(TrimEnd(raw));
    && r.Ok?
    && (LocalEdit(ParseText(src).blocks, k, text.blocks, |Split(TrimEnd(raw), '\n')|, ParseText(r.value).blocks) <==>
          text.mode.Outside? || OpenAtEnd(ReadAll(Split(src, '\n')), k, text))
  }

  lemma ReplacedReads(src: string, b: Block, raw: string)
    requires 0 <= b.startLine <= b.endLine < |Split(src, '\n')|
    ensures Replaced(src, b, raw).Ok?
    ensures ReadAll(Split(Replaced(src, b, raw).value, '\n')) ==
            Spliced(ReadAll(Split(src, '\n')), b, ReadAll(Split(TrimEnd(raw), '\n')))
  {
    ReplacedLines(src, b, raw);
    SplicedReads(Split(src, '\n'), b, Split(TrimEnd(raw), '\n'));
  }

  lemma SplicedReads(lines: seq<string>, b: Block, text: seq<string>)
    requires 0 <= b.startLine <= b.endLine < |lines|
    ensures ReadAll(Around(lines, b, text)) == Spliced(ReadAll(lines), b, ReadAll(text))
  {
    MappedSplice(Read, lines, b.startLine, b.endLine + 1, text,
                 ReadAll(lines), ReadAll(text), ReadAll(Around(lines, b, text)));
  }

  lemma MappedSplice<S, T>(f: S -> T, s: seq<S>, i: nat, j: nat, middle: seq<S>,
                           fs: seq<T>, fmiddle: seq<T>, all: seq<T>)
    requires i <= j <= |s| && Maps(f, s, fs) && Maps(f, middle, fmiddle) && Maps(f, s[..i] + middle + s[j..], all)
    ensures all == fs[..i] + fmiddle + fs[j..]
  {
  }

  ghost predicate Maps<S, T>(f: S -> T, s: seq<S>, fs: seq<T>) {
    |s| == |fs| && forall k :: 0 <= k < |s| ==> fs[k] == f(s[k])
  }

  lemma {:induction false} CountFinds(s: string, c: char)
    requires Count(s, c) > 0
    ensures c in s
  {
    if s[0] != c {
      CountFinds(s[1..], c);
    }
  }

  lemma ClosingLineNotBlank(text: string)
    requires Read(text).net < 0
    ensures text != ""
  {
    CountFinds(Code(text), '}');
    TrimSpaceTrims(Uncommented(text));
  }

  lemma {:induction false} JoinLast(lines: seq<string>)
    requires lines != [] && lines[|lines| - 1] != ""
    ensures Join(lines, '\n') != ""
    ensures var j, l := Join(lines, '\n'), lines[|lines| - 1]; j[|j| - 1] == l[|l| - 1]
  {
    if |lines| > 1 {
      JoinLast(lines[1..]);
    }
  }

  /** Trimming cuts off nothing but line ends, and all of them. */
  lemma {:induction false} TrimEndCuts(s: string)
    ensures TrimEnd(s) <= s
    ensures forall i :: |TrimEnd(s)| <= i < |s| ==> s[i] == '\r' || s[i] == '\n'
    ensures TrimEnd(s) != "" ==> TrimEnd(s)[|TrimEnd(s)| - 1] != '\r' && TrimEnd(s)[|TrimEnd(s)| - 1] != '\n'
  {
    if s != "" && (s[|s| - 1] == '\r' || s[|s| - 1] == '\n') {
      TrimEndCuts(s[..|s| - 1]);
    }
  }

  /** The lines of two texts put one behind the other: the last of the first is continued. */
  function Continued(a: seq<string>, b: seq<string>): seq<string>
    requires a != [] && b != []
  {
    a[..|a| - 1] + [a[|a| - 1] + b[0]] + b[1..]
  }

  lemma SplitUnfolds(c: char, s: string)
    ensures Split([c] + s, '\n') == PrependTo(c, Split(s, '\n'))
  {
    assert ([c] + s)[1..] == s;
  }

  lemma {:induction false} SplitAppend(t: string, e: string)
    ensures Split(t + e, '\n') == Continued(Split(t, '\n'), Split(e, '\n'))
  {
    if t == "" {
      NothingContinued(e, Split(e, '\n'));
    } else {
      var c, rest := t[0], t[1..];
      assert t == [c] + rest && t + e == [c] + (rest + e);
      SplitAppend(rest, e);
      SplitUnfolds(c, rest);
      SplitUnfolds(c, rest + e);
      SplitAppendOne(c, Split(rest, '\n'), Split(e, '\n'));
    }
  }

  lemma NothingContinued(e: string, b: seq<string>)
    requires b != []
    ensures "" + e == e && Continued([""], b) == b
  {
    assert "" + b[0] == b[0] && b == [b[0]] + b[1..];
  }

  function PrependTo(c: char, r: seq<string>): seq<string>
    requires r != []
  {
    if c == '\n' then [""] + r else [[c] + r[0]] + r[1..]
  }

  lemma SplitAppendOne(c: char, a: seq<string>, b: seq<string>)
    requires a != [] && b != []
    ensures PrependTo(c, Continued(a, b)) == Continued(PrependTo(c, a), b)
  {
    if c != '\n' && |a| == 1 {
      assert [c] + (a[0] + b[0]) == ([c] + a[0]) + b[0];
    }
  }

  /** The lines an edit writes are those of the user's text up to its trailing line ends: each as it was
      written, the last one less the carriage returns it ends in. */
  lemma TextLinesKept(raw: string)
    ensures var kept, all := Split(TrimEnd(raw), '\n'), Split(raw, '\n');
      && |kept| <= |all| && (forall i :: 0 <= i < |kept| - 1 ==> kept[i] == all[i])
      && kept[|kept| - 1] <= all[|kept| - 1]
      && OnlyReturns(all[|kept| - 1][|kept[|kept| - 1]|..])
  {
    var t := TrimEnd(raw);
    TrimEndCuts(raw);
    var e := raw[|t|..];
    assert raw == t + e;
    SplitAppend(t, e);
    OnlyLineEnds(e);
  }

  predicate OnlyReturns(s: string) {
    forall i :: 0 <= i < |s| ==> s[i] == '\r'
  }

  lemma {:induction false} OnlyLineEnds(e: string)
    requires forall i :: 0 <= i < |e| ==> e[i] == '\r' || e[i] == '\n'
    ensures OnlyReturns(Split(e, '\n')[0])
  {
    if e != "" {
      OnlyLineEnds(e[1..]);
    }
  }

  lemma {:induction false} TrimEndShortens(s: string)
    ensures |TrimEnd(s)| <= |s|
    ensures TrimEnd(s) == s <==> s == "" || (s[|s| - 1] != '\r' && s[|s| - 1] != '\n')
  {
    if s != "" && (s[|s| - 1] == '\r' || s[|s| - 1] == '\n') {
      TrimEndShortens(s[..|s| - 1]);
    }
  }

  /** Writing a block back as it was gives the same file, unless its last line ends in a carriage return. */
  ghost predicate GivesBack(src: string, b: Block) {
    var lines := Split(src, '\n');
    && 0 <= b.startLine <= b.endLine < |lines| && lines[b.endLine] != ""
    && (Replaced(src, b, b.raw) == Ok(src) <==> lines[b.endLine][|lines[b.endLine]| - 1] != '\r')
  }

  /** Writing a block back as it was is the identity, exactly when its last line
      does not end in a carriage return. */
  lemma OwnRawIsIdentity(src: string, k: nat)
    requires k < |ParseText(src).blocks|
    ensures GivesBack(src, ParseText(src).blocks[k])
  {
    OwnLines(src, k);
    OwnRawBack(src, ParseText(src).blocks[k]);
  }

  lemma OwnRawBack(src: string, b: Block)
    requires IsOwn(src, b)
    ensures GivesBack(src, b)
  {
    var own := Split(src, '\n')[b.startLine..b.endLine + 1];
    SplitFree(src, '\n');
    JoinLast(own);
    TrimEndShortens(b.raw);
    OwnLinesBack(src, b, own);
  }

  ghost predicate IsOwn(src: string, b: Block) {
    var lines := Split(src, '\n');
    && 0 <= b.startLine <= b.endLine < |lines| && lines[b.endLine] != ""
    && b.raw == Join(lines[b.startLine..b.endLine + 1], '\n')
  }

  /** A block's raw text is its own lines, the last of which is not blank. */
  lemma OwnLines(src: string, k: nat)
    requires k < |ParseText(src).blocks|
    ensures IsOwn(src, ParseText(src).blocks[k])
  {
    var lines := Split(src, '\n');
    var all := ReadAll(lines);
    BlocksPlaced(all);
    assert Placed(all, ParseLines(all).blocks, k);
    var b := ParseLines(all).blocks[k];
    ReadSlices(lines, b.startLine, b.endLine + 1);
    ClosingLineNotBlank(lines[b.endLine]);
  }

  lemma OwnLinesBack(src: string, b: Block, own: seq<string>)
    requires 0 <= b.startLine <= b.endLine < |Split(src, '\n')|
    requires own == Split(src, '\n')[b.startLine..b.endLine + 1] && b.raw == Join(own, '\n')
    ensures Replaced(src, b, b.raw) == Ok(src) <==> TrimEnd(b.raw) == b.raw
  {
    var lines, text := Split(src, '\n'), Split(TrimEnd(b.raw), '\n');
    SplitFree(src, '\n');
    FreePart(lines, b.startLine, b.endLine + 1);
    SplitJoin(own, '\n');
    JoinSplit(src, '\n');
    JoinSplit(TrimEnd(b.raw), '\n');
    ReplacedLines(src, b, b.raw);
    Spliced3(lines, b.startLine, b.endLine + 1, text);
  }

  /** Putting a middle part back gives the same sequence exactly when it is the part that was there. */
  lemma Spliced3(s: seq<string>, i: nat, j: nat, middle: seq<string>)
    requires i <= j <= |s|
    ensures s[..i] + middle + s[j..] == s <==> middle == s[i..j]
  {
    assert s == s[..i] + s[i..j] + s[j..];
    if s[..i] + middle + s[j..] == s {
      assert middle == (s[..i] + middle + s[j..])[i..j];
    }
  }
}
