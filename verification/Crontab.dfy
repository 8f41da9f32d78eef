/**
 * Root's crontab and the three edits made to it. An entry's id counts the entries above it, so
 * what matters is which lines an edit leaves alone and which ids still name the same line.
 */
module Crontab {
  import opened Base
  import opened Text
  import opened CronFields
  import opened CronLines

  // ------------------------------------------------------ the file as lines

  function Lines(text: Option<string>): seq<string> {
    if text.None? then []
    else
      var ls := Split(text.value, '\n');
      if ls[|ls| - 1] == "" then ls[..|ls| - 1] else ls
  }

  function Saved(lines: seq<string>): string {
    Join(lines, '\n') + "\n"
  }

  lemma LinesFree(text: Option<string>)
    ensures Free(Lines(text), '\n')
  {
    if text.Some? {
      SplitFree(text.value, '\n');
    }
  }

  lemma {:induction false} JoinEnd(lines: seq<string>, sep: char)
    requires lines != []
    ensures Join(lines + [""], sep) == Join(lines, sep) + [sep]
  {
    var more := lines + [""];
    if |lines| == 1 {
      assert more[1..] == [""];
    } else {
      assert more[1..] == lines[1..] + [""];
      JoinEnd(lines[1..], sep);
      assert lines[0] + [sep] + (Join(lines[1..], sep) + [sep]) == lines[0] + [sep] + Join(lines[1..], sep) + [sep];
    }
  }

  /** What is saved is read back as the same lines exactly when there is a line and none holds a newline. */
  lemma ReloadExact(lines: seq<string>)
    ensures Lines(Some(Saved(lines))) == lines <==> lines != [] && Free(lines, '\n')
  {
    if lines != [] && Free(lines, '\n') {
      JoinEnd(lines, '\n');
      SplitJoin(lines + [""], '\n');
      assert (lines + [""])[..|lines|] == lines;
    } else if lines == [] {
      SplitCons("", "", '\n');
      assert Saved([]) == "" + ['\n'] + "";
    } else {
      LinesFree(Some(Saved(lines)));
    }
  }

  // --------------------------------------------------------- entries and ids

  predicate IsEntry(line: string) {
    Parse(line, false).Some?
  }

  /** For each element, whether it passes. */
  function MarksBy<T>(s: seq<T>, passes: T -> bool): (r: seq<bool>)
    ensures |r| == |s| && forall i :: 0 <= i < |s| ==> r[i] == passes(s[i])
  {
    seq(|s|, i requires 0 <= i < |s| => passes(s[i]))
  }

  function Marks(lines: seq<string>): seq<bool> {
    MarksBy(lines, IsEntry)
  }

  /** The places marked true, in order. */
  function Places(marks: seq<bool>): seq<nat> {
    if marks == [] then []
    else
      var n := |marks| - 1;
      if marks[n] then Places(marks[..n]) + [n] else Places(marks[..n])
  }

  function EntryLines(lines: seq<string>): seq<nat> {
    Places(Marks(lines))
  }

  ghost predicate Rising(s: seq<nat>) {
    forall i, j :: 0 <= i < j < |s| ==> s[i] < s[j]
  }

  lemma {:induction false} PlacesAre(marks: seq<bool>)
    ensures Rising(Places(marks)) && |Places(marks)| <= |marks|
    ensures forall i :: i in Places(marks) <==> 0 <= i < |marks| && marks[i]
  {
    if marks != [] {
      var n := |marks| - 1;
      PlacesAre(marks[..n]);
      var p := Places(marks[..n]);
      forall i | 0 <= i < |p| ensures p[i] < n {
        assert p[i] in p;
      }
    }
  }

  function Off(s: seq<nat>, d: nat): seq<nat> {
    seq(|s|, i requires 0 <= i < |s| => s[i] + d)
  }

  lemma {:induction false} PlacesConcat(a: seq<bool>, b: seq<bool>)
    ensures Places(a + b) == Places(a) + Off(Places(b), |a|)
  {
    if b == [] {
      assert a + b == a;
    } else {
      var n := |b| - 1;
      PlacesConcat(a, b[..n]);
      assert (a + b)[..|a| + n] == a + b[..n];
      assert (a + b)[|a| + n] == b[n];
    }
  }

  /** The entry lines are exactly the lines that parse, in order. */
  lemma EntryLinesAre(lines: seq<string>)
    ensures Rising(EntryLines(lines)) && |EntryLines(lines)| <= |lines|
    ensures forall i :: i in EntryLines(lines) <==> 0 <= i < |lines| && IsEntry(lines[i])
  {
    PlacesAre(Marks(lines));
  }

  method CrontabEntryLines(lines: seq<string>) returns (idx: seq<nat>)
    ensures idx == EntryLines(lines)
  {
    idx := [];
    var i := 0;
    while i < |lines|
      invariant 0 <= i <= |lines|
      invariant idx == EntryLines(lines[..i])
    {
      var entry := ParseCronLine(lines[i], false);
      EntryLinesSnoc(lines[..i], lines[i]);
      assert lines[..i] + [lines[i]] == lines[..i + 1];
      if entry.Some? {
        idx := idx + [i];
      }
      i := i + 1;
    }
    assert lines[..|lines|] == lines;
  }

  lemma EntryLinesSnoc(lines: seq<string>, line: string)
    ensures EntryLines(lines + [line]) == EntryLines(lines) + (if IsEntry(line) then [|lines|] else [])
  {
    assert (lines + [line])[..|lines|] == lines;
    var marks := Marks(lines + [line]);
    assert marks[..|lines|] == Marks(lines);
  }

  function Itoa(n: nat): string {
    if n < 10 then ['0' + n as char] else Itoa(n / 10) + ['0' + (n % 10) as char]
  }

  lemma {:induction false} ItoaReads(n: nat)
    ensures Digits(Itoa(n)) && Number(Itoa(n)) == n
  {
    var s := Itoa(n);
    if n < 10 {
      assert s[..0] == "";
    } else {
      ItoaReads(n / 10);
      assert s[..|s| - 1] == Itoa(n / 10);
    }
  }

  const INT_MAX: nat := 0x7FFF_FFFF_FFFF_FFFF

  function Atoi(s: string): Option<int> {
    var signed := s != "" && (s[0] == '-' || s[0] == '+');
    var digits := if signed then s[1..] else s;
    if !Digits(digits) then None
    else if signed && s[0] == '-' then
      if Number(digits) > INT_MAX + 1 then None else Some(0 - Number(digits))
    else
      if Number(digits) > INT_MAX then None else Some(Number(digits))
  }

  const PREFIX: string := "crontab:"

  function CronID(n: nat): string {
    PREFIX + Itoa(n)
  }

  function ParseCronID(id: string): Option<nat> {
    if !(PREFIX <= id) then None
    else
      match Atoi(id[|PREFIX|..])
      case Some(n) => if n < 0 then None else Some(n)
      case None => None
  }

  lemma IdRoundTrip(n: nat)
    requires n <= INT_MAX
    ensures ParseCronID(CronID(n)) == Some(n)
  {
    ItoaReads(n);
    assert CronID(n)[|PREFIX|..] == Itoa(n);
  }

  /** The line an id names. */
  function Target(lines: seq<string>, id: string): (r: Option<nat>)
    ensures r.Some? ==> r.value < |lines| && IsEntry(lines[r.value])
  {
    var n := ParseCronID(id);
    if n.None? || n.value >= |EntryLines(lines)| then None
    else
      EntryLinesAre(lines);
      assert EntryLines(lines)[n.value] in EntryLines(lines);
      Some(EntryLines(lines)[n.value])
  }

  // ------------------------------------------------------------- three edits

  predicate Fixed(line: string) {
    IsEntry(line) && Parse(line, false).value.spec.minute == REBOOT
  }

  /** How the `crontab` command answers: it exists, lists the file, takes the new one. */
  datatype Host = Host(installed: bool, lists: bool, accepts: bool) {
    predicate Works() {
      installed && lists && accepts
    }
  }

  class File {
    var text: Option<string>

    method CronCreate(e: Spec, host: Host) returns (r: Result<(string, Spec)>)
      modifies this
      ensures r.Ok? <==> Valid(e) && host.Works()
      ensures r.Err? ==> text == old(text)
      ensures r.Ok? ==> text == Some(Saved(old(Lines(text)) + [Render(e)]))
      ensures r.Ok? ==> r.value == (CronID(|EntryLines(old(Lines(text)))|), e)
    {
      var error := ValidateCronSpec(e);
      if error.Some? {
        return Err("invalid entry");
      }
      if !host.installed || !host.lists {
        return Err("crontab not found");
      }
      var lines := Lines(text);
      OneMoreEntry(lines, e);
      lines := lines + [Render(e)];
      if !host.accepts {
        return Err("crontab");
      }
      text := Some(Saved(lines));
      var entries := CrontabEntryLines(lines);
      r := Ok((CronID(|entries| - 1), e));
    }

    method CronUpdate(id: string, e: Spec, host: Host) returns (r: Result<()>)
      modifies this
      ensures var target := old(Target(Lines(text), id));
        && (r.Ok? <==> Valid(e) && host.Works() && target.Some? && !Fixed(old(Lines(text))[target.value]))
        && (r.Ok? ==> text == Some(Saved(old(Lines(text))[target.value := Render(e)])))
      ensures r.Err? ==> text == old(text)
    {
      var error := ValidateCronSpec(e);
      if error.Some? {
        return Err("invalid entry");
      }
      var n := ParseCronID(id);
      if n.None? {
        return Err("unknown entry");
      }
      if !host.installed || !host.lists {
        return Err("crontab not found");
      }
      var lines := Lines(text);
      var entryLines := CrontabEntryLines(lines);
      if n.value >= |entryLines| {
        return Err("entry no longer exists");
      }
      var k := entryLines[n.value];
      assert Target(lines, id) == Some(k);
      var was := ParseCronLine(lines[k], false);
      if was.value.spec.minute == REBOOT {
        return Err("@reboot entries cannot be edited here");
      }
      lines := lines[k := Render(e)];
      if !host.accepts {
        return Err("crontab");
      }
      text := Some(Saved(lines));
      r := Ok(());
    }

    method CronDelete(id: string, host: Host) returns (r: Result<()>)
      modifies this
      ensures var target := old(Target(Lines(text), id));
        && (r.Ok? <==> host.Works() && target.Some?)
        && (r.Ok? ==> text == Some(Saved(Without(old(Lines(text)), target.value))))
      ensures r.Err? ==> text == old(text)
    {
      var n := ParseCronID(id);
      if n.None? {
        return Err("unknown entry");
      }
      if !host.installed || !host.lists {
        return Err("crontab not found");
      }
      var lines := Lines(text);
      var entryLines := CrontabEntryLines(lines);
      if n.value >= |entryLines| {
        return Err("entry no longer exists");
      }
      var k := entryLines[n.value];
      assert Target(lines, id) == Some(k);
      WithoutIs(lines, k);
      lines := lines[..k] + lines[k + 1..];
      if !host.accepts {
        return Err("crontab");
      }
      text := Some(Saved(lines));
      r := Ok(());
    }
  }

  lemma OneMoreEntry(lines: seq<string>, e: Spec)
    requires Valid(e)
    ensures |EntryLines(lines + [Render(e)])| == |EntryLines(lines)| + 1
  {
    EntryLinesSnoc(lines, Render(e));
    RenderedIsEntry(e);
  }

  // --------------------------------------------------------- what edits keep

  /** Replacing an entry by an entry keeps the list of entry lines, and so every id. */
  lemma UpdateKeepsEntryLines(lines: seq<string>, k: nat, line: string)
    requires k < |lines| && IsEntry(lines[k]) && IsEntry(line)
    ensures EntryLines(lines[k := line]) == EntryLines(lines)
  {
    assert Marks(lines[k := line]) == Marks(lines);
  }

  /** What deleting the n-th marked place does to the list of places. */
  ghost predicate Shifted(after: seq<nat>, before: seq<nat>, n: nat) {
    && n < |before| == |after| + 1
    && (forall i :: 0 <= i < n ==> after[i] == before[i])
    && (forall i :: n <= i < |after| ==> after[i] + 1 == before[i + 1])
  }

  lemma PlacesShift(a: seq<bool>, b: seq<bool>)
    ensures |Places(a)| < |Places(a + [true] + b)| && Places(a + [true] + b)[|Places(a)|] == |a|
    ensures Shifted(Places(a + b), Places(a + [true] + b), |Places(a)|)
  {
    PlacesConcat(a, b);
    PlacesConcat(a + [true], b);
    assert (a + [true])[..|a|] == a;
  }

  lemma RisingOnce(s: seq<nat>, i: nat, j: nat)
    requires Rising(s) && i < |s| && j < |s| && s[i] == s[j]
    ensures i == j
  {
  }

  lemma DropMark(marks: seq<bool>, places: seq<nat>, n: nat)
    requires places == Places(marks) && n < |places|
    ensures places[n] < |marks|
    ensures Shifted(Places(Without(marks, places[n])), places, n)
  {
    PlaceIsMarked(marks, n);
    MiddleMark(marks, places[n]);
    DropMarkAt(marks[..places[n]], marks[places[n] + 1..], places, n);
  }

  lemma PlaceIsMarked(marks: seq<bool>, n: nat)
    requires n < |Places(marks)|
    ensures Rising(Places(marks)) && Places(marks)[n] < |marks| && marks[Places(marks)[n]]
  {
    PlacesAre(marks);
    assert Places(marks)[n] in Places(marks);
  }

  lemma MiddleMark(marks: seq<bool>, k: nat)
    requires k < |marks| && marks[k]
    ensures marks == marks[..k] + [true] + marks[k + 1..]
    ensures Without(marks, k) == marks[..k] + marks[k + 1..]
  {
    WithoutIs(marks, k);
  }

  lemma DropMarkAt(a: seq<bool>, b: seq<bool>, places: seq<nat>, n: nat)
    requires places == Places(a + [true] + b) && Rising(places) && n < |places| && places[n] == |a|
    ensures Shifted(Places(a + b), places, n)
  {
    PlacesShift(a, b);
    RisingOnce(places, |Places(a)|, n);
  }

  lemma MarksWithout<T>(s: seq<T>, k: nat, passes: T -> bool)
    requires k < |s|
    ensures MarksBy(Without(s, k), passes) == Without(MarksBy(s, passes), k)
  {
  }

  /** Deleting the n-th entry line drops it from the list and moves the later ones up by one. */
  lemma DeleteShifts(lines: seq<string>, n: nat)
    requires n < |EntryLines(lines)|
    ensures EntryLines(lines)[n] < |lines|
    ensures Shifted(EntryLines(Without(lines, EntryLines(lines)[n])), EntryLines(lines), n)
  {
    DropMark(Marks(lines), EntryLines(lines), n);
    MarksWithout(lines, EntryLines(lines)[n], IsEntry);
  }

  // ------------------------------------------------------ edits, read again

  lemma {:induction false} JoinFree(fs: seq<string>, c: char)
    requires c != ' ' && Free(fs, c)
    ensures c !in Join(fs, ' ')
  {
    if |fs| > 1 {
      JoinFree(fs[1..], c);
    }
  }

  lemma CompactIsOneLine(e: Spec)
    requires Valid(e) && Compact(e)
    ensures '\n' !in Render(e)
  {
    forall i | 0 <= i < 6 ensures '\n' !in Cells(e)[i] {
      if i == 5 {
        TrimSpaceTrims(e.command);
      } else {
        assert Cells(e)[i] == TrimSpace(Times(e)[i]);
        assert IsSpace('\n');
      }
    }
    JoinFree(Cells(e), '\n');
  }

  /** The file after an edit that left these lines. */
  function Edited(lines: seq<string>): seq<string> {
    Lines(Some(Saved(lines)))
  }

  lemma AppendReloads(text: Option<string>, line: string)
    ensures Edited(Lines(text) + [line]) == Lines(text) + [line] <==> '\n' !in line
  {
    LinesFree(text);
    var after := Lines(text) + [line];
    ReloadExact(after);
    assert after[|after| - 1] == line;
  }

  lemma UpdateReloads(text: Option<string>, k: nat, line: string)
    requires k < |Lines(text)|
    ensures Edited(Lines(text)[k := line]) == Lines(text)[k := line] <==> '\n' !in line
  {
    LinesFree(text);
    var after := Lines(text)[k := line];
    ReloadExact(after);
    assert after[k] == line;
  }

  /** A delete is read back as the remaining lines exactly when there are some. */
  lemma DeleteReloads(text: Option<string>, k: nat)
    requires k < |Lines(text)|
    ensures Edited(Without(Lines(text), k)) == Without(Lines(text), k) <==> |Lines(text)| > 1
  {
    LinesFree(text);
    ReloadExact(Without(Lines(text), k));
  }

  /** A created entry is found again in the file, as given, exactly when it is compact. */
  lemma CreateIsExact(text: Option<string>, e: Spec)
    requires Valid(e)
    ensures Edited(Lines(text) + [Render(e)]) == Lines(text) + [Render(e)] && ComesBack(e) <==> Compact(e)
  {
    AppendReloads(text, Render(e));
    RoundTrip(e);
    if Compact(e) {
      CompactIsOneLine(e);
    }
  }

  /** The id given out names the new last line, and every earlier id names the line it named. */
  lemma CreateNamesNewLine(lines: seq<string>, e: Spec, id: string)
    requires Valid(e) && |lines| <= INT_MAX
    ensures Target(lines + [Render(e)], CronID(|EntryLines(lines)|)) == Some(|lines|)
    ensures Target(lines, id).Some? ==> Target(lines + [Render(e)], id) == Target(lines, id)
  {
    EntryLinesAre(lines);
    RenderedIsEntry(e);
    EntryLinesSnoc(lines, Render(e));
    IdRoundTrip(|EntryLines(lines)|);
  }

  /** An updated entry is found again, with no other line touched, exactly when it is compact. */
  lemma UpdateIsExact(text: Option<string>, k: nat, e: Spec)
    requires Valid(e) && k < |Lines(text)|
    ensures Edited(Lines(text)[k := Render(e)]) == Lines(text)[k := Render(e)] && ComesBack(e) <==> Compact(e)
  {
    UpdateReloads(text, k, Render(e));
    RoundTrip(e);
    if Compact(e) {
      CompactIsOneLine(e);
    }
  }

  /** After an update every id names the line it named. */
  lemma UpdateKeepsIds(lines: seq<string>, k: nat, e: Spec, id: string)
    requires Valid(e) && k < |lines| && IsEntry(lines[k])
    ensures Target(lines[k := Render(e)], id) == Target(lines, id)
  {
    RenderedIsEntry(e);
    UpdateKeepsEntryLines(lines, k, Render(e));
  }

  /** Ids below the deleted one keep their line; each one above it names, one lower, the same text. */
  lemma DeleteKeepsTheRest(lines: seq<string>, n: nat, m: nat)
    requires n < |EntryLines(lines)| && m < |EntryLines(lines)| && m != n
    ensures EntryLines(lines)[n] < |lines| && EntryLines(lines)[m] < |lines|
    ensures var rest := Without(lines, EntryLines(lines)[n]);
      var id := if m < n then m else m - 1;
      && id < |EntryLines(rest)| < |EntryLines(lines)|
      && EntryLines(rest)[id] < |rest|
      && rest[EntryLines(rest)[id]] == lines[EntryLines(lines)[m]]
  {
    DeleteShifts(lines, n);
    PlacesAre(Marks(lines));
    var es := EntryLines(lines);
    assert es[m] in es && es[n] in es;
    SameText(lines, es, EntryLines(Without(lines, es[n])), n, m);
  }

  lemma SameText(lines: seq<string>, es: seq<nat>, after: seq<nat>, n: nat, m: nat)
    requires Rising(es) && m < |es| && n < |es| && m != n && es[m] < |lines| && es[n] < |lines|
    requires Shifted(after, es, n)
    ensures var id := if m < n then m else m - 1;
      after[id] < |lines| - 1 && Without(lines, es[n])[after[id]] == lines[es[m]]
  {
    assert if m < n then es[m] < es[n] else es[n] < es[m];
  }

  // --------------------------------------------------------- reading the file

  /** The lines read are the file's, whether or not it ends in a newline. */
  lemma LinesAre(text: string)
    ensures var ls := Lines(Some(text));
      if text != "" && text[|text| - 1] == '\n' then ls != [] && text == Saved(ls) else text == Join(ls, '\n')
  {
    var all := Split(text, '\n');
    JoinSplit(text, '\n');
    SplitFree(text, '\n');
    var n := |all| - 1;
    if all[n] == "" {
      if n == 0 {
        assert all == [""];
      } else {
        assert all == all[..n] + [""];
        JoinEnd(all[..n], '\n');
      }
    } else {
      LastLineEnds(all);
    }
  }

  lemma {:induction false} LastLineEnds(ls: seq<string>)
    requires ls != [] && ls[|ls| - 1] != "" && Free(ls, '\n')
    ensures Join(ls, '\n') != "" && Join(ls, '\n')[|Join(ls, '\n')| - 1] != '\n'
  {
    if |ls| > 1 {
      LastLineEnds(ls[1..]);
      var rest := Join(ls[1..], '\n');
      assert (ls[0] + ['\n'] + rest)[|ls[0]| + |rest|] == rest[|rest| - 1];
    } else {
      assert ls[0][|ls[0]| - 1] in ls[0];
    }
  }
}
