/**
 * Which time fields a crontab entry may carry. The validator cuts a field at commas, slashes and
 * dashes in place; it is proved here to accept exactly the fields of a small grammar.
 */
module CronFields {
  import opened Text

  predicate Digits(s: string) {
    s != "" && forall i :: 0 <= i < |s| ==> '0' <= s[i] <= '9'
  }

  function Number(s: string): nat
    requires forall i :: 0 <= i < |s| ==> '0' <= s[i] <= '9'
  {
    if s == "" then 0 else 10 * Number(s[..|s| - 1]) + (s[|s| - 1] - '0') as nat
  }

  /**
   * Lower-casing of one character: outside A-Z only the dotted capital I and the Kelvin sign
   * become ASCII letters; every other character stays outside what a field may hold.
   */
  function LowerChar(c: char): char {
    if 'A' <= c <= 'Z' then c + ('a' - 'A')
    else if c == '\U{130}' then 'i'
    else if c == '\U{212A}' then 'k'
    else c
  }

  function Lower(s: string): (r: string)
    ensures |r| == |s| && forall i :: 0 <= i < |s| ==> r[i] == LowerChar(s[i])
  {
    if s == "" then "" else [LowerChar(s[0])] + Lower(s[1..])
  }

  function Low(idx: nat): nat {
    if idx == 2 || idx == 3 then 1 else 0
  }

  function High(idx: nat): nat {
    match idx
    case 0 => 59
    case 1 => 23
    case 2 => 31
    case 3 => 12
    case _ => 7
  }

  const MONTHS: set<string> := {"jan", "feb", "mar", "apr", "may", "jun", "jul", "aug", "sep", "oct", "nov", "dec"}
  const DAYS: set<string> := {"sun", "mon", "tue", "wed", "thu", "fri", "sat"}

  predicate Name(s: string, idx: nat) {
    (idx == 3 && s in MONTHS) || (idx == 4 && s in DAYS)
  }

  // ---------------------------------------------------------------- grammar

  predicate Value(s: string, idx: nat) {
    Name(s, idx) || (Digits(s) && Low(idx) <= Number(s) <= High(idx))
  }

  predicate Step(s: string, idx: nat) {
    Digits(s) && 1 <= Number(s) <= High(idx)
  }

  ghost predicate Range(s: string, idx: nat, lo: string, hi: string) {
    Value(lo, idx) && Value(hi, idx) && s == lo + "-" + hi
  }

  ghost predicate Item(s: string, idx: nat) {
    s == "*" || Value(s, idx) || exists lo, hi :: Range(s, idx, lo, hi)
  }

  ghost predicate Stepped(s: string, idx: nat, item: string, step: string) {
    (item == "" || Item(item, idx)) && Step(step, idx) && s == item + "/" + step
  }

  ghost predicate Part(s: string, idx: nat) {
    Item(s, idx) || exists item, step :: Stepped(s, idx, item, step)
  }

  ghost predicate Field(field: string, idx: nat) {
    Listed(Split(TrimSpace(field), ','), idx)
  }

  ghost predicate Listed(parts: seq<string>, idx: nat) {
    forall i :: 0 <= i < |parts| ==> PartAt(parts, i, idx)
  }

  ghost predicate PartAt(parts: seq<string>, i: int, idx: nat)
    requires 0 <= i < |parts|
  {
    Part(TrimSpace(Lower(parts[i])), idx)
  }

  // ----------------------------------------------- values hold no separators

  ghost predicate Plain(s: string) {
    s != "" && '-' !in s && '/' !in s && ',' !in s
  }

  lemma ValuePlain(s: string, idx: nat)
    requires Value(s, idx)
    ensures Plain(s)
  {
  }

  lemma CutAt(a: string, c: char, b: string)
    requires c !in a
    ensures IndexChar(a + [c] + b, c) == |a|
  {
    var s := a + [c] + b;
    assert s[|a|] == c;
  }

  lemma Around(s: string, c: char)
    requires IndexChar(s, c) >= 0
    ensures s == s[..IndexChar(s, c)] + [c] + s[IndexChar(s, c) + 1..]
  {
  }

  lemma ItemHasNoSlash(s: string, idx: nat)
    requires Item(s, idx)
    ensures s != "" && '/' !in s
  {
    if s != "*" && !Value(s, idx) {
      var lo, hi :| Range(s, idx, lo, hi);
      ValuePlain(lo, idx);
      ValuePlain(hi, idx);
    } else if s != "*" {
      ValuePlain(s, idx);
    }
  }

  // ------------------------------------------------------------ the validator

  method ValueValid(v: string, idx: nat) returns (ok: bool)
    ensures ok <==> Value(v, idx)
  {
    if Name(v, idx) {
      return true;
    }
    if !Digits(v) {
      return false;
    }
    var n := Number(v);
    ok := Low(idx) <= n <= High(idx);
  }

  /** Whether the two ends the code cuts a part into are values. */
  ghost predicate EndsOk(part: string, idx: nat) {
    var i := IndexChar(part, '-');
    if i >= 0 then Value(part[..i], idx) && Value(part[i + 1..], idx) else Value(part, idx)
  }

  method EndsValid(part: string, idx: nat) returns (ok: bool)
    ensures ok <==> EndsOk(part, idx)
  {
    var ends := [part, part];
    var i := IndexChar(part, '-');
    if i >= 0 {
      ends := [part[..i], part[i + 1..]];
    }
    var k := 0;
    ok := true;
    while k < 2 && ok
      invariant 0 <= k <= 2
      invariant ok ==> forall j :: 0 <= j < k ==> Value(ends[j], idx)
      invariant !ok ==> !(Value(ends[0], idx) && Value(ends[1], idx))
      decreases 2 - k
    {
      ok := ValueValid(ends[k], idx);
      k := k + 1;
    }
    assert ok ==> Value(ends[0], idx) && Value(ends[1], idx);
  }

  method ItemValid(part: string, idx: nat) returns (ok: bool)
    requires part != ""
    ensures ok <==> Item(part, idx)
  {
    if part == "*" {
      return true;
    }
    RangeCut(part, idx);
    ok := EndsValid(part, idx);
  }

  /** Cutting at the first dash finds the range if there is one. */
  lemma RangeCut(part: string, idx: nat)
    requires part != "*"
    ensures Item(part, idx) <==> EndsOk(part, idx)
  {
    if EndsOk(part, idx) {
      EndsJoin(part, idx);
    }
    if Value(part, idx) {
      ValuePlain(part, idx);
    } else if lo, hi :| Range(part, idx, lo, hi) {
      RangeEnds(part, idx, lo, hi);
    }
  }

  lemma EndsJoin(part: string, idx: nat)
    requires EndsOk(part, idx)
    ensures Item(part, idx)
  {
    var i := IndexChar(part, '-');
    if i >= 0 {
      Around(part, '-');
      assert Range(part, idx, part[..i], part[i + 1..]);
    }
  }

  lemma RangeEnds(part: string, idx: nat, lo: string, hi: string)
    requires Range(part, idx, lo, hi)
    ensures IndexChar(part, '-') == |lo| && part[..|lo|] == lo && part[|lo| + 1..] == hi
  {
    ValuePlain(lo, idx);
    CutAt(lo, '-', hi);
  }

  method PartValid(whole: string, idx: nat) returns (ok: bool)
    ensures ok <==> Part(whole, idx)
  {
    if whole == "" {
      EmptyIsNoPart(idx);
      return false;
    }
    var part, step := whole, "";
    var i := IndexChar(whole, '/');
    StepCut(whole, idx);
    if i >= 0 {
      step := whole[i + 1..];
      part := whole[..i];
      if !Digits(step) {
        return false;
      }
      var n := Number(step);
      if n < 1 || n > High(idx) {
        return false;
      }
    }
    if part == "" || part == "*" {
      return !(part == "" && step == "");
    }
    ok := ItemValid(part, idx);
  }

  lemma EmptyIsNoPart(idx: nat)
    ensures !Part("", idx)
  {
    if Item("", idx) {
      ItemHasNoSlash("", idx);
    }
  }

  /** The parts of `whole` around its first slash, if it has one, are an item and a step. */
  ghost predicate CutIsPart(whole: string, idx: nat) {
    var i := IndexChar(whole, '/');
    if i >= 0 then Step(whole[i + 1..], idx) && (whole[..i] == "" || Item(whole[..i], idx))
    else Item(whole, idx)
  }

  /** Cutting at the first slash finds the step if there is one. */
  lemma StepCut(whole: string, idx: nat)
    ensures Part(whole, idx) <==> CutIsPart(whole, idx)
  {
    if CutIsPart(whole, idx) {
      CutJoins(whole, idx);
    }
    if Item(whole, idx) {
      ItemHasNoSlash(whole, idx);
    } else if item, step :| Stepped(whole, idx, item, step) {
      SteppedCut(whole, idx, item, step);
    }
  }

  lemma CutJoins(whole: string, idx: nat)
    requires CutIsPart(whole, idx)
    ensures Part(whole, idx)
  {
    var i := IndexChar(whole, '/');
    if i >= 0 {
      Around(whole, '/');
      assert Stepped(whole, idx, whole[..i], whole[i + 1..]);
    }
  }

  lemma SteppedCut(whole: string, idx: nat, item: string, step: string)
    requires Stepped(whole, idx, item, step)
    ensures IndexChar(whole, '/') == |item|
    ensures whole[..|item|] == item && whole[|item| + 1..] == step
  {
    if item != "" {
      ItemHasNoSlash(item, idx);
    }
    CutAt(item, '/', step);
  }

  method CronFieldValid(raw: string, idx: nat) returns (ok: bool)
    ensures ok <==> Field(raw, idx)
  {
    var field := TrimSpace(raw);
    if field == "" || field == "*" {
      OnePart(field, idx);
      return field != "";
    }
    ok := PartsValid(Split(field, ','), idx);
  }

  method PartsValid(parts: seq<string>, idx: nat) returns (ok: bool)
    ensures ok <==> Listed(parts, idx)
  {
    var k := 0;
    while k < |parts|
      invariant 0 <= k <= |parts|
      invariant forall i :: 0 <= i < k ==> PartAt(parts, i, idx)
    {
      var valid := PartValid(TrimSpace(Lower(parts[k])), idx);
      if !valid {
        assert !PartAt(parts, k, idx);
        return false;
      }
      k := k + 1;
    }
    ok := true;
  }

  lemma OnePart(field: string, idx: nat)
    requires field == "" || field == "*"
    ensures Listed(Split(field, ','), idx) <==> field == "*"
  {
    SplitOne(field, ',');
    assert Split(field, ',') == [field];
    var low := Lower(field);
    assert low == field;
    TrimSpaceFixes(field);
    EmptyIsNoPart(idx);
    assert Item("*", idx) && Part("*", idx);
    assert PartAt([field], 0, idx) <==> field == "*";
  }

  // ------------------------------------------------- how a valid minute starts

  predicate Opening(c: char) {
    c == '*' || c == '/' || '0' <= c <= '9'
  }

  /** A minute or hour has no names to use, so it starts with a digit, a star or a slash. */
  lemma PartOpens(s: string, idx: nat)
    requires Part(s, idx) && idx < 3
    ensures s != "" && Opening(s[0])
  {
    if Item(s, idx) {
      ItemOpens(s, idx);
    } else {
      var item, step :| Stepped(s, idx, item, step);
      if item != "" {
        ItemOpens(item, idx);
      }
    }
  }

  lemma ItemOpens(s: string, idx: nat)
    requires Item(s, idx) && idx < 3
    ensures s != "" && Opening(s[0])
  {
    if s != "*" && !Value(s, idx) {
      var lo, hi :| Range(s, idx, lo, hi);
      assert Digits(lo);
      assert s[0] == lo[0];
    }
  }

  lemma FieldNotBlank(field: string, idx: nat)
    requires Field(field, idx)
    ensures TrimSpace(field) != ""
  {
    if TrimSpace(field) == "" {
      OnePart("", idx);
    }
  }

  lemma FieldOpens(field: string, idx: nat)
    requires Field(field, idx) && idx < 3
    ensures TrimSpace(field) != "" && Opening(TrimSpace(field)[0])
  {
    FieldNotBlank(field, idx);
    TrimSpaceTrims(field);
    var f := TrimSpace(field);
    var parts := Split(f, ',');
    FirstPart(f);
    var p := Lower(parts[0]);
    assert PartAt(parts, 0, idx);
    PartOpens(TrimSpace(p), idx);
    assert parts[0] == "" ==> p == "";
    if parts[0] != "" {
      assert p[0] == LowerChar(f[0]);
      StartKept(p);
    }
  }

  lemma StartKept(p: string)
    requires p != "" && !IsSpace(p[0])
    ensures TrimSpace(p) != "" ==> TrimSpace(p)[0] == p[0]
  {
    TrimRightEnds(p);
    assert TrimLeft(p) == p;
  }

  lemma FirstPart(f: string)
    requires f != ""
    ensures Split(f, ',')[0] == "" || Split(f, ',')[0][0] == f[0]
  {
  }

  // --------------------------------------------------------------- what counts

  /** Names may be written in capitals. */
  lemma CapitalNames()
    ensures Lower("JAN") == "jan" && Part(TrimSpace(Lower("JAN")), 3) && Part(TrimSpace(Lower("Sun")), 4)
  {
    NameIsPart("JAN", "jan", 3);
    NameIsPart("Sun", "sun", 4);
  }

  lemma NameIsPart(s: string, lower: string, idx: nat)
    requires |s| == |lower| && (forall i :: 0 <= i < |s| ==> LowerChar(s[i]) == lower[i])
    requires Name(lower, idx) && Trimmed(lower)
    ensures Lower(s) == lower && Part(TrimSpace(Lower(s)), idx)
  {
    assert Lower(s) == lower;
    TrimSpaceFixes(lower);
    assert Item(lower, idx);
  }

  /** What each of the five fields may hold: minutes, hours, days of the month, months, days of the week. */
  lemma FieldBounds(idx: nat)
    requires idx < 5
    ensures (Low(idx), High(idx)) == [(0, 59), (0, 23), (1, 31), (1, 12), (0, 7)][idx]
    ensures Name("jan", 3) && Name("dec", 3) && Name("sun", 4) && Name("sat", 4) && !Name("sun", 3) && !Name("jan", 4)
  {
  }

  /** A number is accepted exactly within the bounds of its field. */
  lemma NumbersExactly(s: string, idx: nat)
    requires Digits(s)
    ensures Part(s, idx) <==> Low(idx) <= Number(s) <= High(idx)
  {
    assert Value(s, idx) <==> Low(idx) <= Number(s) <= High(idx);
    NotSeparated(s, '-');
    NotSeparated(s, '/');
    if Value(s, idx) {
      assert Item(s, idx);
    }
    if lo, hi :| Range(s, idx, lo, hi) {
      Separated(lo, '-', hi);
    }
    if item, step :| Stepped(s, idx, item, step) {
      Separated(item, '/', step);
    }
  }

  lemma Separated(a: string, c: char, b: string)
    ensures c in a + [c] + b
  {
    assert (a + [c] + b)[|a|] == c;
  }

  lemma NotSeparated(s: string, c: char)
    requires Digits(s) && (c == '-' || c == '/')
    ensures c !in s
  {
  }

  /** Ranges, and steps of anything or of nothing, are parts. */
  lemma PartsFromValues(lo: string, hi: string, step: string, idx: nat)
    requires Value(lo, idx) && Value(hi, idx) && Step(step, idx)
    ensures Part("*", idx) && Part(lo, idx) && Part(lo + "-" + hi, idx)
    ensures Part("*/" + step, idx) && Part("/" + step, idx) && Part(lo + "-" + hi + "/" + step, idx)
  {
    assert Item("*", idx) && Item(lo, idx);
    assert Range(lo + "-" + hi, idx, lo, hi);
    assert Item(lo + "-" + hi, idx);
    assert "*/" + step == "*" + "/" + step && "/" + step == "" + "/" + step;
    assert Stepped("*/" + step, idx, "*", step) && Stepped("/" + step, idx, "", step);
    assert Stepped(lo + "-" + hi + "/" + step, idx, lo + "-" + hi, step);
  }
}
