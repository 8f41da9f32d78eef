/** The string functions several parsers share, as Go's `strings` defines them. */
module Text {

  predicate IsSpace(c: char) {
    || '\t' <= c <= '\r' || c == ' '
    || c == '\U{85}' || c == '\U{A0}' || c == '\U{1680}' || '\U{2000}' <= c <= '\U{200A}'
    || c == '\U{2028}' || c == '\U{2029}' || c == '\U{202F}' || c == '\U{205F}' || c == '\U{3000}'
  }

  function TrimLeft(s: string): string {
    if s != "" && IsSpace(s[0]) then TrimLeft(s[1..]) else s
  }

  function TrimRight(s: string): string {
    if s != "" && IsSpace(s[|s| - 1]) then TrimRight(s[..|s| - 1]) else s
  }

  function TrimSpace(s: string): string {
    TrimRight(TrimLeft(s))
  }

  predicate Trimmed(s: string) {
    s != "" ==> !IsSpace(s[0]) && !IsSpace(s[|s| - 1])
  }

  lemma {:induction false} TrimLeftStarts(s: string)
    ensures TrimLeft(s) != "" ==> !IsSpace(TrimLeft(s)[0])
    ensures forall c :: c in TrimLeft(s) ==> c in s
    ensures forall c :: c in s && !IsSpace(c) ==> c in TrimLeft(s)
  {
    if s != "" && IsSpace(s[0]) {
      TrimLeftStarts(s[1..]);
      assert s == [s[0]] + s[1..];
    }
  }

  lemma {:induction false} TrimRightEnds(s: string)
    ensures TrimRight(s) <= s
    ensures TrimRight(s) != "" ==> !IsSpace(TrimRight(s)[|TrimRight(s)| - 1])
    ensures forall c :: c in s && !IsSpace(c) ==> c in TrimRight(s)
  {
    if s != "" && IsSpace(s[|s| - 1]) {
      TrimRightEnds(s[..|s| - 1]);
      assert s == s[..|s| - 1] + [s[|s| - 1]];
    }
  }

  lemma TrimSpaceTrims(s: string)
    ensures Trimmed(TrimSpace(s))
    ensures forall c :: c in TrimSpace(s) ==> c in s
    ensures forall c :: c in s && !IsSpace(c) ==> c in TrimSpace(s)
  {
    TrimLeftStarts(s);
    TrimRightEnds(TrimLeft(s));
    var l, t := TrimLeft(s), TrimSpace(s);
    if t != "" {
      assert t[0] == l[0];
    }
    forall c | c in t ensures c in s {
      assert t == l[..|t|];
    }
  }

  lemma TrimSpaceFixes(s: string)
    requires Trimmed(s)
    ensures TrimSpace(s) == s
  {
  }

  // ------------------------------------------------------------ split, join

  function Split(s: string, sep: char): (r: seq<string>)
    ensures r != []
  {
    if s == "" then [""]
    else
      var r := Split(s[1..], sep);
      if s[0] == sep then [""] + r else [[s[0]] + r[0]] + r[1..]
  }

  function Join(lines: seq<string>, sep: char): string {
    if lines == [] then ""
    else if |lines| == 1 then lines[0]
    else lines[0] + [sep] + Join(lines[1..], sep)
  }

  ghost predicate Free(lines: seq<string>, sep: char) {
    forall i :: 0 <= i < |lines| ==> sep !in lines[i]
  }

  lemma {:induction false} SplitFree(s: string, sep: char)
    ensures Free(Split(s, sep), sep)
  {
    if s != "" {
      SplitFree(s[1..], sep);
    }
  }

  lemma {:induction false} JoinSplit(s: string, sep: char)
    ensures Join(Split(s, sep), sep) == s
  {
    if s != "" {
      JoinSplit(s[1..], sep);
      var r := Split(s[1..], sep);
      assert s == [s[0]] + s[1..];
      if s[0] == sep {
        assert ([""] + r)[1..] == r;
        assert "" + [sep] + s[1..] == s;
      } else {
        var q := [[s[0]] + r[0]] + r[1..];
        assert q[1..] == r[1..];
        if |r| > 1 {
          assert [s[0]] + r[0] + [sep] + Join(r[1..], sep) == [s[0]] + (r[0] + [sep] + Join(r[1..], sep));
        }
      }
    }
  }

  lemma {:induction false} SplitOne(line: string, sep: char)
    requires sep !in line
    ensures Split(line, sep) == [line]
  {
    if line != "" {
      SplitOne(line[1..], sep);
      assert line == [line[0]] + line[1..];
    }
  }

  lemma {:induction false} SplitCons(line: string, rest: string, sep: char)
    requires sep !in line
    ensures Split(line + [sep] + rest, sep) == [line] + Split(rest, sep)
  {
    var s := line + [sep] + rest;
    if line == "" {
      assert s[1..] == rest;
    } else {
      assert s[1..] == line[1..] + [sep] + rest;
      SplitCons(line[1..], rest, sep);
      assert line == [line[0]] + line[1..];
      assert ([line[1..]] + Split(rest, sep))[1..] == Split(rest, sep);
    }
  }

  /** Splitting undoes joining when there is a line and none holds the separator, */
  lemma {:induction false} SplitJoin(lines: seq<string>, sep: char)
    requires lines != [] && Free(lines, sep)
    ensures Split(Join(lines, sep), sep) == lines
  {
    if |lines| == 1 {
      SplitOne(lines[0], sep);
      assert lines == [lines[0]];
    } else {
      SplitJoin(lines[1..], sep);
      SplitCons(lines[0], Join(lines[1..], sep), sep);
      assert lines == [lines[0]] + lines[1..];
    }
  }

  /** and only then. */
  lemma SplitJoinExactly(lines: seq<string>, sep: char)
    ensures Split(Join(lines, sep), sep) == lines <==> lines != [] && Free(lines, sep)
  {
    if lines != [] && Free(lines, sep) {
      SplitJoin(lines, sep);
    } else {
      SplitFree(Join(lines, sep), sep);
    }
  }

  // ---------------------------------------------------------- words, search

  ghost predicate Solid(s: string) {
    forall i :: 0 <= i < |s| ==> !IsSpace(s[i])
  }

  /** The longest prefix without white space. */
  function Word(s: string): (r: string)
    ensures r <= s && Solid(r)
    ensures r == s || IsSpace(s[|r|])
  {
    if s == "" || IsSpace(s[0]) then "" else [s[0]] + Word(s[1..])
  }

  lemma {:induction false} WordIs(w: string, rest: string)
    requires Solid(w)
    requires rest == "" || IsSpace(rest[0])
    ensures Word(w + rest) == w
  {
    var s := w + rest;
    if w == "" {
      assert s == rest;
    } else {
      assert !IsSpace(w[0]);
      assert s[1..] == w[1..] + rest;
      WordIs(w[1..], rest);
      assert w == [w[0]] + w[1..];
    }
  }

  function Fields(s: string): seq<string>
    decreases |s|
  {
    if s == "" then []
    else if IsSpace(s[0]) then Fields(s[1..])
    else [Word(s)] + Fields(s[|Word(s)|..])
  }

  /** Fields are never empty and hold no white space. */
  lemma {:induction false} FieldsSolid(s: string, i: nat)
    requires i < |Fields(s)|
    ensures Fields(s)[i] != "" && Solid(Fields(s)[i])
    decreases |s|
  {
    if IsSpace(s[0]) {
      FieldsSolid(s[1..], i);
    } else if i > 0 {
      FieldsSolid(s[|Word(s)|..], i - 1);
    }
  }

  lemma FieldsWord(w: string, rest: string)
    requires Solid(w) && w != ""
    requires rest == "" || IsSpace(rest[0])
    ensures Fields(w + rest) == [w] + Fields(rest)
  {
    WordIs(w, rest);
    assert !IsSpace(w[0]) && (w + rest)[0] == w[0];
    assert (w + rest)[|w|..] == rest;
  }

  lemma FieldsSpace(c: char, rest: string)
    requires IsSpace(c)
    ensures Fields([c] + rest) == Fields(rest)
  {
    assert ([c] + rest)[1..] == rest;
  }

  /** A text starts with a blank or with a whole word. */
  lemma FirstPiece(a: string) returns (w: string, rest: string)
    requires a != ""
    ensures a == w + rest && w != ""
    ensures if IsSpace(a[0]) then w == [a[0]] else Solid(w) && (rest == "" || IsSpace(rest[0]))
  {
    if IsSpace(a[0]) {
      w, rest := [a[0]], a[1..];
    } else {
      w := Word(a);
      rest := a[|w|..];
    }
  }

  lemma {:induction false} FieldsConcat(a: string, c: char, b: string)
    requires IsSpace(c)
    ensures Fields(a + [c] + b) == Fields(a) + Fields(b)
    decreases |a|
  {
    if a == "" {
      assert a + [c] + b == [c] + b;
      FieldsSpace(c, b);
    } else {
      var w, rest := FirstPiece(a);
      FieldsConcat(rest, c, b);
      if IsSpace(a[0]) {
        FieldsConcatSpace(a[0], rest, c, b);
      } else {
        FieldsConcatWord(w, rest, c, b);
      }
    }
  }

  lemma FieldsConcatSpace(x: char, a: string, c: char, b: string)
    requires IsSpace(x) && Fields(a + [c] + b) == Fields(a) + Fields(b)
    ensures Fields(([x] + a) + [c] + b) == Fields([x] + a) + Fields(b)
  {
    FieldsSpace(x, a);
    FieldsSpace(x, a + [c] + b);
    Regroup([x], a, [c], b);
  }

  lemma FieldsConcatWord(w: string, rest: string, c: char, b: string)
    requires Solid(w) && w != "" && IsSpace(c)
    requires rest == "" || IsSpace(rest[0])
    requires Fields(rest + [c] + b) == Fields(rest) + Fields(b)
    ensures Fields((w + rest) + [c] + b) == Fields(w + rest) + Fields(b)
  {
    var longer := rest + [c] + b;
    FieldsWord(w, rest);
    FieldsWord(w, longer);
    Regroup(w, rest, [c], b);
    Prepend(w, Fields(rest), Fields(b));
  }

  lemma Regroup(w: string, a: string, c: string, b: string)
    ensures w + (a + c + b) == (w + a) + c + b
  {
  }

  lemma Prepend(w: string, a: seq<string>, b: seq<string>)
    ensures [w] + (a + b) == ([w] + a) + b
  {
  }

  lemma {:induction false} FieldsTrim(s: string)
    ensures Fields(TrimLeft(s)) == Fields(s)
    ensures Fields(TrimRight(s)) == Fields(s)
    ensures Fields(TrimSpace(s)) == Fields(s)
  {
    FieldsTrimLeft(s);
    FieldsTrimRight(s);
    FieldsTrimRight(TrimLeft(s));
  }

  lemma {:induction false} FieldsTrimLeft(s: string)
    ensures Fields(TrimLeft(s)) == Fields(s)
  {
    if s != "" && IsSpace(s[0]) {
      FieldsTrimLeft(s[1..]);
    }
  }

  lemma {:induction false} FieldsTrimRight(s: string)
    ensures Fields(TrimRight(s)) == Fields(s)
  {
    if s != "" && IsSpace(s[|s| - 1]) {
      var a, c := s[..|s| - 1], s[|s| - 1];
      FieldsTrimRight(a);
      FieldsConcat(a, c, "");
      assert a + [c] + "" == s;
    }
  }

  /** A text has no fields exactly when it is all white space. */
  lemma {:induction false} NoFields(s: string)
    ensures Fields(s) == [] <==> TrimSpace(s) == ""
  {
    FieldsTrim(s);
    var t := TrimSpace(s);
    TrimSpaceTrims(s);
    if t != "" {
      assert Fields(t)[0] == Word(t);
    }
  }

  /** Where the character first occurs, or -1. */
  function IndexChar(s: string, c: char): (r: int)
    ensures -1 <= r < |s|
    ensures r < 0 <==> c !in s
    ensures r >= 0 ==> s[r] == c && c !in s[..r]
  {
    if s == "" then -1
    else if s[0] == c then 0
    else
      var r := IndexChar(s[1..], c);
      assert s == [s[0]] + s[1..];
      if r < 0 then -1 else assert s[..r + 1] == [s[0]] + s[1..][..r]; r + 1
  }

  /** Where `sub` first occurs in `s`, or -1. */
  function Index(s: string, sub: string): (r: int)
    ensures -1 <= r <= |s| - |sub| || r == -1
    ensures r >= 0 ==> sub <= s[r..]
  {
    if sub <= s then 0
    else if s == "" then -1
    else
      var r := Index(s[1..], sub);
      if r < 0 then -1 else assert s[r + 1..] == s[1..][r..]; r + 1
  }

  /** It occurs nowhere before. */
  lemma {:induction false} IndexIsFirst(s: string, sub: string, k: nat)
    requires k <= |s| && sub <= s[k..]
    ensures 0 <= Index(s, sub) <= k
  {
    if !(sub <= s) {
      assert s[0..] == s;
      assert s[k..] == s[1..][k - 1..];
      IndexIsFirst(s[1..], sub, k - 1);
    }
  }

  // --------------------------------------------------------- what trimming is

  ghost predicate AllSpace(s: string) {
    forall i :: 0 <= i < |s| ==> IsSpace(s[i])
  }

  lemma {:induction false} TrimLeftCuts(s: string) returns (lead: string)
    ensures s == lead + TrimLeft(s) && AllSpace(lead)
  {
    lead := "";
    if s != "" && IsSpace(s[0]) {
      lead := TrimLeftCuts(s[1..]);
      assert s == [s[0]] + s[1..];
      lead := [s[0]] + lead;
    }
  }

  lemma {:induction false} TrimRightCuts(s: string) returns (trail: string)
    ensures s == TrimRight(s) + trail && AllSpace(trail)
  {
    trail := "";
    if s != "" && IsSpace(s[|s| - 1]) {
      var x := s[|s| - 1];
      trail := TrimRightCuts(s[..|s| - 1]);
      assert s == s[..|s| - 1] + [x];
      trail := trail + [x];
    }
  }

  /** Trimming cuts white space off both ends and leaves what is between as it is. */
  lemma TrimSpaceCuts(s: string) returns (lead: string, trail: string)
    ensures s == lead + TrimSpace(s) + trail && AllSpace(lead) && AllSpace(trail) && Trimmed(TrimSpace(s))
  {
    TrimSpaceTrims(s);
    lead := TrimLeftCuts(s);
    trail := TrimRightCuts(TrimLeft(s));
    Grouped(lead, TrimSpace(s), trail);
  }

  lemma Grouped(a: string, b: string, c: string)
    ensures a + (b + c) == a + b + c
  {
  }
}
