/**
 * One line of a crontab: reading it, validating an entry, and writing an entry as a line. For a
 * validated entry the round trip holds exactly when no time field has white space inside it; the
 * validator lets such fields through, since it trims the parts of a list.
 */
module CronLines {
  import opened Base
  import opened Text
  import opened CronFields

  datatype Spec = Spec(minute: string, hour: string, dayMonth: string, month: string, dayWeek: string, command: string)

  function Times(e: Spec): seq<string> {
    [e.minute, e.hour, e.dayMonth, e.month, e.dayWeek]
  }

  function FromTimes(times: seq<string>, command: string): Spec
    requires |times| == 5
  {
    Spec(times[0], times[1], times[2], times[3], times[4], command)
  }

  // ---------------------------------------------------------- leading fields

  /** The first `n` words, and what is left of the line behind them with its inner spacing. */
  function Peel(line: string, n: nat): (r: (seq<string>, string))
    ensures |r.0| == n
    decreases n
  {
    if n == 0 then ([], line)
    else
      var t := TrimLeft(line);
      var w := Word(t);
      var p := Peel(TrimSpace(t[|w|..]), n - 1);
      ([w] + p.0, p.1)
  }

  lemma {:induction false} PeelSolid(line: string, n: nat, i: nat)
    requires i < n
    ensures Solid(Peel(line, n).0[i])
    decreases n
  {
    if i > 0 {
      var t := TrimLeft(line);
      PeelSolid(TrimSpace(t[|Word(t)|..]), n - 1, i - 1);
    }
  }

  /** Taking off the first word takes off the first field. */
  lemma FirstField(line: string)
    requires Fields(line) != []
    ensures var t := TrimLeft(line); var w := Word(t);
      w != "" && Fields(line) == [w] + Fields(TrimSpace(t[|w|..]))
  {
    var t := TrimLeft(line);
    var w := Word(t);
    FieldsTrim(line);
    TrimLeftStarts(line);
    FieldsTrim(t[|w|..]);
  }

  lemma {:induction false} IndexBehindSpace(line: string, w: string)
    requires w != "" && !IsSpace(w[0]) && w <= TrimLeft(line)
    ensures Index(line, w) >= 0 && line[Index(line, w)..] == TrimLeft(line)
  {
    if IsSpace(line[0]) {
      IndexBehindSpace(line[1..], w);
      assert line[Index(line, w)..] == line[1..][Index(line[1..], w)..];
    }
  }

  function SplitFields(line: string, n: nat): Option<(seq<string>, string)> {
    if |Fields(line)| < n + 1 then None else Some(Peel(line, n))
  }

  ghost predicate Peeled(line: string, fields: seq<string>, n: nat, i: nat, rest: string) {
    && i <= n < |fields|
    && fields[i..] == Fields(rest)
    && fields[..i] + Peel(rest, n - i).0 == Peel(line, n).0
    && Peel(rest, n - i).1 == Peel(line, n).1
  }

  lemma PeelStarts(line: string, n: nat)
    requires n < |Fields(line)|
    ensures Peeled(line, Fields(line), n, 0, line)
  {
    assert Fields(line)[0..] == Fields(line);
    assert [] + Peel(line, n).0 == Peel(line, n).0;
  }

  lemma PeelStep(line: string, fields: seq<string>, n: nat, i: nat, rest: string)
    requires i < n && Peeled(line, fields, n, i, rest)
    ensures fields[i] == Word(TrimLeft(rest)) && fields[i] != ""
    ensures Peeled(line, fields, n, i + 1, TrimSpace(TrimLeft(rest)[|fields[i]|..]))
  {
    FirstField(rest);
    assert fields[i] == fields[i..][0];
    assert fields[i + 1..] == fields[i..][1..];
    var next := TrimSpace(TrimLeft(rest)[|fields[i]|..]);
    assert fields[..i + 1] + Peel(next, n - i - 1).0 == fields[..i] + ([fields[i]] + Peel(next, n - i - 1).0);
  }

  /** The first place a line's first word occurs at is behind its leading white space. */
  lemma PlaceStep(rest: string, w: string)
    requires w == Word(TrimLeft(rest)) && w != ""
    ensures var idx := Index(rest, w);
      && 0 <= idx <= |rest| - |w| && |w| <= |TrimLeft(rest)|
      && rest[idx + |w|..] == TrimLeft(rest)[|w|..]
  {
    IndexBehindSpace(rest, w);
    Behind(rest, Index(rest, w), |w|);
  }

  lemma Behind(s: string, i: nat, n: nat)
    requires i + n <= |s|
    ensures s[i + n..] == s[i..][n..]
  {
  }

  method SplitCronFields(line: string, n: nat) returns (r: Option<(seq<string>, string)>)
    ensures r == SplitFields(line, n)
  {
    var fields := Fields(line);
    if |fields| < n + 1 {
      return None;
    }
    var rest := line;
    var i := 0;
    PeelStarts(line, n);
    while i < n
      invariant 0 <= i <= n
      invariant Peeled(line, fields, n, i, rest)
    {
      PeelStep(line, fields, n, i, rest);
      PlaceStep(rest, fields[i]);
      var idx := Index(rest, fields[i]);
      rest := TrimSpace(rest[idx + |fields[i]|..]);
      i := i + 1;
    }
    assert fields[..n] + [] == fields[..n];
    r := Some((fields[..n], rest));
  }

  // ------------------------------------------------------------ reading a line

  predicate NameStart(c: char) {
    'A' <= c <= 'Z' || 'a' <= c <= 'z' || c == '_'
  }

  /** The white space of a regular expression is narrower than that of `Fields`. */
  predicate Blank(c: char) {
    c == '\t' || c == '\n' || c == '\U{C}' || c == '\r' || c == ' '
  }

  predicate EqualsNext(s: string) {
    s != "" && (s[0] == '=' || (Blank(s[0]) && EqualsNext(s[1..])))
  }

  predicate NameThenEquals(s: string) {
    s != "" &&
    if NameStart(s[0]) || '0' <= s[0] <= '9' then NameThenEquals(s[1..]) else EqualsNext(s)
  }

  predicate IsEnv(s: string) {
    s != "" && NameStart(s[0]) && NameThenEquals(s[1..])
  }

  function Shortcut(name: string): Option<seq<string>> {
    match name
    case "@yearly" => Some(["0", "0", "1", "1", "*"])
    case "@annually" => Some(["0", "0", "1", "1", "*"])
    case "@monthly" => Some(["0", "0", "1", "*", "*"])
    case "@weekly" => Some(["0", "0", "*", "*", "0"])
    case "@daily" => Some(["0", "0", "*", "*", "*"])
    case "@midnight" => Some(["0", "0", "*", "*", "*"])
    case "@hourly" => Some(["0", "*", "*", "*", "*"])
    case _ => None
  }

  const REBOOT: string := "@reboot"

  datatype Entry = Entry(spec: Spec, user: string)

  /** Cuts the user column off a command, for the files that have one. */
  function WithUser(times: seq<string>, tail: string, withUser: bool): Option<Entry>
    requires |times| == 5
  {
    if !withUser then Some(Entry(FromTimes(times, tail), ""))
    else
      match SplitFields(tail, 1)
      case None => None
      case Some(p) => Some(Entry(FromTimes(times, p.1), p.0[0]))
  }

  function ParseShortcut(rest: string, withUser: bool): Option<Entry> {
    var parts := Fields(rest);
    if |parts| < 2 then None
    else
      var tail := Join(parts[1..], ' ');
      if parts[0] == REBOOT then WithUser([REBOOT, "", "", "", ""], tail, withUser)
      else
        match Shortcut(Lower(parts[0]))
        case None => None
        case Some(times) => assert |times| == 5; WithUser(times, tail, withUser)
  }

  function ParseTimes(rest: string, withUser: bool): Option<Entry> {
    match SplitFields(rest, 5)
    case None => None
    case Some(p) => WithUser(p.0, p.1, withUser)
  }

  function Parse(line: string, withUser: bool): Option<Entry> {
    var rest := TrimSpace(line);
    if rest == "" || rest[0] == '#' || IsEnv(rest) then None
    else if rest[0] == '@' then ParseShortcut(rest, withUser)
    else ParseTimes(rest, withUser)
  }

  method ParseCronLine(line: string, withUser: bool) returns (r: Option<Entry>)
    ensures r == Parse(line, withUser)
  {
    var rest := TrimSpace(line);
    if rest == "" || rest[0] == '#' || IsEnv(rest) {
      return None;
    }
    if rest[0] == '@' {
      r := ParseShortcutLine(rest, withUser);
      return;
    }
    var p := SplitCronFields(rest, 5);
    if p.None? {
      return None;
    }
    r := CutUser(p.value.0, p.value.1, withUser);
  }

  method ParseShortcutLine(rest: string, withUser: bool) returns (r: Option<Entry>)
    ensures r == ParseShortcut(rest, withUser)
  {
    var parts := Fields(rest);
    if |parts| < 2 {
      return None;
    }
    var tail := Join(parts[1..], ' ');
    if parts[0] == REBOOT {
      r := CutUser([REBOOT, "", "", "", ""], tail, withUser);
      return;
    }
    var exp := Shortcut(Lower(parts[0]));
    if exp.None? {
      return None;
    }
    r := CutUser(exp.value, tail, withUser);
  }

  method CutUser(times: seq<string>, tail: string, withUser: bool) returns (r: Option<Entry>)
    requires |times| == 5
    ensures r == WithUser(times, tail, withUser)
  {
    if !withUser {
      return Some(Entry(FromTimes(times, tail), ""));
    }
    var u := SplitCronFields(tail, 1);
    if u.None? {
      return None;
    }
    r := Some(Entry(FromTimes(times, u.value.1), u.value.0[0]));
  }

  // ------------------------------------------------- validating and rendering

  ghost predicate Valid(e: Spec) {
    && (forall i :: 0 <= i < 5 ==> Field(Times(e)[i], i))
    && TrimSpace(e.command) != ""
    && '\n' !in e.command
  }

  const FIELD_NAMES: seq<string> := ["minute", "hour", "day of month", "month", "day of week"]

  /** Why an entry is refused; a bad field is reported by name and with its value. */
  datatype Fault = BadField(name: string, value: string) | EmptyCommand | CommandNotOneLine

  ghost predicate FirstBad(e: Spec, i: nat)
    requires i < 5
  {
    !Field(Times(e)[i], i) && forall k :: 0 <= k < i ==> Field(Times(e)[k], k)
  }

  method ValidateCronSpec(e: Spec) returns (error: Option<Fault>)
    ensures error.None? <==> Valid(e)
    ensures forall i :: 0 <= i < 5 && FirstBad(e, i) ==> error == Some(BadField(FIELD_NAMES[i], Times(e)[i]))
    ensures !Valid(e) && (forall i :: 0 <= i < 5 ==> Field(Times(e)[i], i)) ==>
      error == Some(if TrimSpace(e.command) == "" then EmptyCommand else CommandNotOneLine)
  {
    var fields := Times(e);
    var i := 0;
    while i < 5
      invariant 0 <= i <= 5
      invariant forall k :: 0 <= k < i ==> Field(fields[k], k)
    {
      var valid := CronFieldValid(fields[i], i);
      if !valid {
        return Some(BadField(FIELD_NAMES[i], fields[i]));
      }
      i := i + 1;
    }
    if TrimSpace(e.command) == "" {
      return Some(EmptyCommand);
    }
    if IndexChar(e.command, '\n') >= 0 {
      return Some(CommandNotOneLine);
    }
    error := None;
  }

  function Tidy(e: Spec): Spec {
    Spec(TrimSpace(e.minute), TrimSpace(e.hour), TrimSpace(e.dayMonth), TrimSpace(e.month), TrimSpace(e.dayWeek),
         TrimSpace(e.command))
  }

  function Render(e: Spec): string {
    var t := Tidy(e);
    Join(Times(t) + [t.command], ' ')
  }

  // ---------------------------------------------------------------- round trip

  /** No time field has white space inside it. */
  ghost predicate Compact(e: Spec) {
    forall i :: 0 <= i < 5 ==> Solid(TrimSpace(Times(e)[i]))
  }

  ghost predicate Words(fs: seq<string>) {
    forall i :: 0 <= i < |fs| ==> fs[i] != "" && Solid(fs[i])
  }

  lemma JoinCons(f: string, more: seq<string>)
    requires more != []
    ensures Join([f] + more, ' ') == f + ([' '] + Join(more, ' '))
  {
    assert ([f] + more)[1..] == more;
    assert f + [' '] + Join(more, ' ') == f + ([' '] + Join(more, ' '));
  }

  lemma TrimLeadingSpace(s: string)
    requires Trimmed(s)
    ensures TrimSpace([' '] + s) == s
  {
    assert ([' '] + s)[1..] == s;
    TrimSpaceFixes(s);
  }

  lemma {:induction false} PeelJoin(fs: seq<string>, command: string)
    requires Words(fs) && Trimmed(command) && command != ""
    ensures var line := Join(fs + [command], ' ');
      Trimmed(line) && line != "" && Peel(line, |fs|) == (fs, command)
  {
    if fs == [] {
      assert fs + [command] == [command];
    } else {
      PeelJoin(fs[1..], command);
      PeelOne(fs[0], Join(fs[1..] + [command], ' '), |fs| - 1);
      JoinCons(fs[0], fs[1..] + [command]);
      assert [fs[0]] + (fs[1..] + [command]) == fs + [command];
      assert [fs[0]] + fs[1..] == fs;
    }
  }

  lemma PeelOne(f: string, line: string, n: nat)
    requires f != "" && Solid(f) && Trimmed(line) && line != ""
    ensures var longer := f + ([' '] + line);
      && Trimmed(longer) && longer != ""
      && Peel(longer, n + 1) == ([f] + Peel(line, n).0, Peel(line, n).1)
  {
    var longer := f + ([' '] + line);
    assert !IsSpace(f[0]) && longer[0] == f[0];
    assert longer[|longer| - 1] == line[|line| - 1];
    WordIs(f, [' '] + line);
    assert longer[|f|..] == [' '] + line;
    TrimLeadingSpace(line);
  }

  ghost predicate NoneBlank(fs: seq<string>) {
    forall i :: 0 <= i < |fs| ==> TrimSpace(fs[i]) != ""
  }

  /** Joining by spaces never merges fields. */
  lemma {:induction false} FieldsOfJoin(fs: seq<string>)
    requires fs != [] && NoneBlank(fs)
    ensures |Fields(Join(fs, ' '))| >= |fs|
  {
    NoFields(fs[0]);
    if |fs| > 1 {
      FieldsOfJoin(fs[1..]);
      FieldsConcat(fs[0], ' ', Join(fs[1..], ' '));
    }
  }

  ghost predicate Pieces(fs: seq<string>) {
    forall i :: 0 <= i < |fs| ==> fs[i] != "" && Trimmed(fs[i])
  }

  lemma {:induction false} JoinTrimmed(fs: seq<string>)
    requires fs != [] && Pieces(fs)
    ensures Trimmed(Join(fs, ' ')) && Join(fs, ' ') != "" && Join(fs, ' ')[0] == fs[0][0]
  {
    if |fs| > 1 {
      JoinTrimmed(fs[1..]);
      var more := Join(fs[1..], ' ');
      var line := fs[0] + [' '] + more;
      assert line[|line| - 1] == more[|more| - 1];
    }
  }

  /** The six texts a rendered entry is joined from. */
  function Cells(e: Spec): seq<string> {
    Times(Tidy(e)) + [Tidy(e).command]
  }

  lemma CellsArePieces(e: Spec)
    requires Valid(e)
    ensures Pieces(Cells(e)) && Opening(Cells(e)[0][0])
  {
    FieldOpens(Times(e)[0], 0);
    forall i | 0 <= i < 5 ensures Cells(e)[i] == TrimSpace(Times(e)[i]) && Cells(e)[i] != "" {
      FieldNotBlank(Times(e)[i], i);
    }
    forall i | 0 <= i < 6 ensures Trimmed(Cells(e)[i]) {
      TrimSpaceTrims(if i == 5 then e.command else Times(e)[i]);
    }
  }

  lemma PiecesNotBlank(fs: seq<string>)
    requires Pieces(fs)
    ensures NoneBlank(fs)
  {
    forall i | 0 <= i < |fs| ensures TrimSpace(fs[i]) != "" {
      TrimSpaceFixes(fs[i]);
    }
  }

  lemma RenderOpens(e: Spec)
    requires Valid(e)
    ensures Render(e) != "" && Trimmed(Render(e)) && Opening(Render(e)[0]) && |Fields(Render(e))| >= 6
  {
    CellsArePieces(e);
    JoinTrimmed(Cells(e));
    PiecesNotBlank(Cells(e));
    FieldsOfJoin(Cells(e));
  }

  lemma OpeningIsTimes(line: string)
    requires line != "" && Trimmed(line) && Opening(line[0])
    ensures Parse(line, false) == ParseTimes(line, false)
  {
    TrimSpaceFixes(line);
  }

  /** Every validated entry is written as a line that is read as an entry with time fields. */
  lemma RenderedIsEntry(e: Spec)
    requires Valid(e)
    ensures Parse(Render(e), false) == Some(Entry(FromTimes(Peel(Render(e), 5).0, Peel(Render(e), 5).1), ""))
    ensures Parse(Render(e), false).value.spec.minute != REBOOT
  {
    RenderOpens(e);
    OpeningIsTimes(Render(e));
    PeelStartsAlike(Render(e), 4);
  }

  lemma PeelStartsAlike(line: string, n: nat)
    requires line != "" && !IsSpace(line[0])
    ensures Peel(line, n + 1).0[0] != "" && Peel(line, n + 1).0[0][0] == line[0]
  {
  }

  lemma CompactWords(e: Spec)
    requires Valid(e) && Compact(e)
    ensures Words(Times(Tidy(e)))
  {
    forall i | 0 <= i < 5 ensures Times(Tidy(e))[i] != "" && Solid(Times(Tidy(e))[i]) {
      CompactWord(Times(e)[i], i);
      TidyAt(e, i);
    }
  }

  lemma CompactWord(field: string, idx: nat)
    requires Field(field, idx) && Solid(TrimSpace(field))
    ensures TrimSpace(field) != "" && Solid(TrimSpace(field))
  {
    FieldNotBlank(field, idx);
  }

  lemma TidyAt(e: Spec, i: nat)
    requires i < 5
    ensures Times(Tidy(e))[i] == TrimSpace(Times(e)[i])
  {
  }

  lemma CompactComesBack(e: Spec)
    requires Valid(e) && Compact(e)
    ensures Peel(Render(e), 5) == (Times(Tidy(e)), Tidy(e).command)
  {
    CompactWords(e);
    TrimSpaceTrims(e.command);
    PeelJoin(Times(Tidy(e)), Tidy(e).command);
  }

  lemma SolidIsCompact(e: Spec, times: seq<string>, command: string)
    requires |times| == 5 && FromTimes(times, command) == Tidy(e)
    requires forall i :: 0 <= i < 5 ==> Solid(times[i])
    ensures Compact(e)
  {
    forall i | 0 <= i < 5 ensures Solid(TrimSpace(Times(e)[i])) {
      assert times[i] == Times(Tidy(e))[i] == TrimSpace(Times(e)[i]);
    }
  }

  lemma PeelAllSolid(line: string, n: nat)
    ensures forall i :: 0 <= i < n ==> Solid(Peel(line, n).0[i])
  {
    forall i | 0 <= i < n ensures Solid(Peel(line, n).0[i]) {
      PeelSolid(line, n, i);
    }
  }

  ghost predicate ComesBack(e: Spec) {
    Parse(Render(e), false) == Some(Entry(Tidy(e), ""))
  }

  /** Reading back what was written gives the trimmed entry exactly when its time fields are compact. */
  lemma RoundTrip(e: Spec)
    requires Valid(e)
    ensures ComesBack(e) <==> Compact(e)
  {
    RenderedIsEntry(e);
    if Compact(e) {
      CompactComesBack(e);
    } else if ComesBack(e) {
      PeelAllSolid(Render(e), 5);
      SolidIsCompact(e, Peel(Render(e), 5).0, Peel(Render(e), 5).1);
      assert false;
    }
  }

  // ------------------------------------------- a list with a blank in it spills

  lemma DigitIsMinute(c: char)
    requires '0' <= c <= '9'
    ensures Part([c], 0)
  {
    assert Number([c]) == (c - '0') as nat by {
      assert [c][..0] == "";
    }
    assert Value([c], 0) && Item([c], 0);
  }

  lemma StarIsField(idx: nat)
    ensures Field("*", idx) && TrimSpace("*") == "*"
  {
    OnePart("*", idx);
    TrimSpaceFixes("*");
  }

  lemma LowerDigit(c: char)
    requires '0' <= c <= '9'
    ensures TrimSpace(Lower([c])) == [c] && TrimSpace(Lower([' ', c])) == [c]
  {
    assert Lower([c]) == [c];
    assert Lower([' ', c]) == [' '] + [c];
    TrimSpaceFixes([c]);
    TrimLeadingSpace([c]);
  }

  lemma BlankInList()
    ensures Field("1, 2", 0) && TrimSpace("1, 2") == "1, 2"
  {
    var parts := ["1", " 2"];
    SplitJoin(parts, ',');
    assert Join(parts, ',') == "1, 2" by {
      assert parts[1..] == [" 2"];
    }
    TrimSpaceFixes("1, 2");
    LowerDigit('1');
    LowerDigit('2');
    DigitIsMinute('1');
    DigitIsMinute('2');
  }

  const SPILLING: Spec := Spec("1, 2", "*", "*", "*", "*", "run")

  lemma SpillingIsValid()
    ensures Valid(SPILLING)
  {
    BlankInList();
    TrimSpaceFixes("run");
    StarIsField(1);
    StarIsField(2);
    StarIsField(3);
    StarIsField(4);
    FieldsOneByOne(SPILLING);
  }

  lemma FieldsOneByOne(e: Spec)
    requires Field(e.minute, 0) && Field(e.hour, 1) && Field(e.dayMonth, 2) && Field(e.month, 3) && Field(e.dayWeek, 4)
    ensures forall i :: 0 <= i < 5 ==> Field(Times(e)[i], i)
  {
  }

  /** A validated entry with a blank in its minute list is read back as a different entry. */
  lemma BlankSpills()
    ensures Valid(SPILLING) && !ComesBack(SPILLING)
  {
    SpillingIsValid();
    BlankInList();
    assert Times(SPILLING)[0] == "1, 2" && IsSpace("1, 2"[2]);
    assert !Solid(TrimSpace(Times(SPILLING)[0]));
    RoundTrip(SPILLING);
  }

  // ------------------------------------------------------- what a line means

  ghost predicate EndsWith(s: string, t: string) {
    |t| <= |s| && s[|s| - |t|..] == t
  }

  /** The times are the first n fields of a line, and the rest is its end, with the other fields. */
  ghost predicate PeeledAs(line: string, n: nat, p: (seq<string>, string), fields: seq<string>) {
    && n <= |fields| && p.0 == fields[..n] && Fields(p.1) == fields[n..]
    && Trimmed(p.1) && EndsWith(line, p.1)
  }

  lemma PeelsOneMore(line: string, w: string, next: string, n: nat, p: (seq<string>, string), fields: seq<string>)
    requires PeeledAs(next, n, p, fields) && EndsWith(line, next)
    ensures PeeledAs(line, n + 1, ([w] + p.0, p.1), [w] + fields)
  {
    assert ([w] + fields)[..n + 1] == [w] + fields[..n] && ([w] + fields)[n + 1..] == fields[n..];
    SuffixOfSuffix(line, next, p.1);
  }

  /** Peeling words off takes the first fields, and leaves the end of the line behind them. */
  lemma {:induction false} PeelIs(line: string, n: nat)
    requires Trimmed(line) && n < |Fields(line)|
    ensures PeeledAs(line, n, Peel(line, n), Fields(line))
    decreases n
  {
    if n == 0 {
      PeelsNone(line, Fields(line));
    } else {
      var w, next := PeelUnfolds(line, n);
      PeelIs(next, n - 1);
      PeelsOneMore(line, w, next, n - 1, Peel(next, n - 1), Fields(next));
    }
  }

  lemma PeelUnfolds(line: string, n: nat) returns (w: string, next: string)
    requires n > 0 && Trimmed(line) && Fields(line) != []
    ensures Fields(line) == [w] + Fields(next) && Trimmed(next) && EndsWith(line, next)
    ensures Peel(line, n) == ([w] + Peel(next, n - 1).0, Peel(next, n - 1).1)
  {
    NotBlankAtStart(line);
    w := Word(line);
    next := TrimSpace(line[|w|..]);
    FirstField(line);
    NextEnds(line, w);
  }

  lemma NotBlankAtStart(line: string)
    requires Trimmed(line) && Fields(line) != []
    ensures line != "" && TrimLeft(line) == line
  {
  }

  lemma PeelsNone(line: string, fields: seq<string>)
    requires Trimmed(line) && fields == Fields(line)
    ensures PeeledAs(line, 0, ([], line), fields)
  {
    assert fields[..0] == [] && fields[0..] == fields && line[0..] == line;
  }

  lemma SuffixOfSuffix(a: string, b: string, c: string)
    requires EndsWith(a, b) && EndsWith(b, c)
    ensures EndsWith(a, c)
  {
    assert a[|a| - |c|..] == a[|a| - |b|..][|b| - |c|..];
  }

  lemma NextEnds(line: string, w: string)
    requires Trimmed(line) && line != "" && w == Word(line) && TrimLeft(line) == line
    ensures var next := TrimSpace(TrimLeft(line)[|w|..]); Trimmed(next) && EndsWith(line, next)
  {
    var rest := line[|w|..];
    TrimSpaceTrims(rest);
    var lead := TrimLeftCuts(rest);
    var t := TrimLeft(rest);
    assert rest[|lead|..] == t;
    if t != "" {
      assert t[|t| - 1] == rest[|rest| - 1] == line[|line| - 1];
      assert TrimRight(t) == t;
    }
    assert EndsWith(rest, t);
    assert EndsWith(line, rest);
    SuffixOfSuffix(line, rest, t);
  }

  predicate Plain(rest: string) {
    rest != "" && rest[0] != '#' && rest[0] != '@' && !IsEnv(rest)
  }

  lemma PlainIsTimes(line: string, withUser: bool)
    requires Plain(TrimSpace(line))
    ensures Parse(line, withUser) == ParseTimes(TrimSpace(line), withUser)
    ensures Trimmed(TrimSpace(line)) && Fields(TrimSpace(line)) == Fields(line)
  {
    TrimSpaceTrims(line);
    FieldsTrim(line);
  }

  /** What an entry with time fields is made of: n of the line's fields stand before its command. */
  ghost predicate MadeOf(e: Entry, rest: string, fields: seq<string>, n: nat) {
    && 5 <= n <= |fields| && Times(e.spec) == fields[..5]
    && Fields(e.spec.command) == fields[n..] && EndsWith(rest, e.spec.command)
  }

  lemma TimesMean(rest: string, fields: seq<string>)
    requires Trimmed(rest) && fields == Fields(rest)
    ensures ParseTimes(rest, false).Some? <==> |fields| >= 6
    ensures |fields| >= 6 ==>
      ParseTimes(rest, false).value.user == "" && MadeOf(ParseTimes(rest, false).value, rest, fields, 5)
  {
    if |fields| >= 6 {
      PeelIs(rest, 5);
      TimesBack(Peel(rest, 5).0, Peel(rest, 5).1);
    }
  }

  lemma TimesBack(times: seq<string>, command: string)
    requires |times| == 5
    ensures Times(FromTimes(times, command)) == times && FromTimes(times, command).command == command
  {
  }

  /** A line that is neither blank, comment, assignment nor shortcut is an entry exactly if it has six
      fields: the first five are its times, and the command is the rest of the line as it stands. */
  lemma PlainLineMeans(line: string)
    requires Plain(TrimSpace(line))
    ensures Parse(line, false).Some? <==> |Fields(line)| >= 6
    ensures Parse(line, false).Some? ==>
      Parse(line, false).value.user == "" && MadeOf(Parse(line, false).value, TrimSpace(line), Fields(line), 5)
  {
    PlainIsTimes(line, false);
    TimesMean(TrimSpace(line), Fields(line));
  }

  lemma UserMeans(rest: string, fields: seq<string>)
    requires Trimmed(rest) && fields == Fields(rest)
    ensures ParseTimes(rest, true).Some? <==> |fields| >= 7
    ensures |fields| >= 7 ==>
      ParseTimes(rest, true).value.user == fields[5] && MadeOf(ParseTimes(rest, true).value, rest, fields, 6)
  {
    if |fields| >= 6 {
      PeelIs(rest, 5);
      var times, tail := Peel(rest, 5).0, Peel(rest, 5).1;
      if |fields| >= 7 {
        PeelIs(tail, 1);
        UserColumn(fields, Fields(tail));
        SuffixOfSuffix(rest, tail, Peel(tail, 1).1);
        TimesBack(times, Peel(tail, 1).1);
      }
    }
  }

  /** In a file with a user column the sixth field is the user, and the command begins behind it. */
  lemma UserLineMeans(line: string)
    requires Plain(TrimSpace(line))
    ensures Parse(line, true).Some? <==> |Fields(line)| >= 7
    ensures Parse(line, true).Some? ==>
      && Parse(line, true).value.user == Fields(line)[5]
      && MadeOf(Parse(line, true).value, TrimSpace(line), Fields(line), 6)
  {
    PlainIsTimes(line, true);
    UserMeans(TrimSpace(line), Fields(line));
  }

  lemma UserColumn(all: seq<string>, tail: seq<string>)
    requires |all| >= 7 && tail == all[5..]
    ensures tail[..1] == [all[5]] && tail[1..] == all[6..]
  {
  }

  /** Blank lines, comments and assignments are no entries. */
  lemma NoEntry(line: string, withUser: bool)
    requires var rest := TrimSpace(line); rest == "" || rest[0] == '#' || IsEnv(rest)
    ensures Parse(line, withUser).None?
  {
  }

  /** What the shortcuts stand for. */
  lemma ShortcutsMean()
    ensures Shortcut("@hourly") == Some(["0", "*", "*", "*", "*"])
    ensures Shortcut("@daily") == Shortcut("@midnight") == Some(["0", "0", "*", "*", "*"])
    ensures Shortcut("@weekly") == Some(["0", "0", "*", "*", "0"])
    ensures Shortcut("@monthly") == Some(["0", "0", "1", "*", "*"])
    ensures Shortcut("@yearly") == Shortcut("@annually") == Some(["0", "0", "1", "1", "*"])
  {
  }

  /** A line with a shortcut is an entry exactly if a command follows and the shortcut is `@reboot` or
      known, in whatever case; its command is the rest of its fields. */
  lemma ShortcutLineMeans(line: string)
    requires TrimSpace(line) != "" && TrimSpace(line)[0] == '@'
    ensures Parse(line, false).Some? <==> KnownShortcut(Fields(line))
    ensures Parse(line, false).Some? ==> ExpandedFrom(Parse(line, false).value.spec, Fields(line))
  {
    AtIsShortcut(line);
    FieldsTrim(line);
    ShortcutMeans(TrimSpace(line));
  }

  lemma AtIsShortcut(line: string)
    requires TrimSpace(line) != "" && TrimSpace(line)[0] == '@'
    ensures Parse(line, false) == ParseShortcut(TrimSpace(line), false)
  {
  }

  lemma ShortcutMeans(rest: string)
    ensures ParseShortcut(rest, false).Some? <==> KnownShortcut(Fields(rest))
    ensures ParseShortcut(rest, false).Some? ==> ExpandedFrom(ParseShortcut(rest, false).value.spec, Fields(rest))
  {
    var fs := Fields(rest);
    if KnownShortcut(fs) {
      TimesBack(Expansion(fs[0]), Join(fs[1..], ' '));
    }
  }

  /** The times a known shortcut stands for. */
  function Expansion(name: string): (r: seq<string>)
    requires name == REBOOT || Shortcut(Lower(name)).Some?
    ensures |r| == 5
  {
    if name == REBOOT then [REBOOT, "", "", "", ""] else Shortcut(Lower(name)).value
  }

  predicate KnownShortcut(fs: seq<string>) {
    |fs| >= 2 && (fs[0] == REBOOT || Shortcut(Lower(fs[0])).Some?)
  }

  ghost predicate ExpandedFrom(e: Spec, fs: seq<string>) {
    KnownShortcut(fs) && e.command == Join(fs[1..], ' ') && Times(e) == Expansion(fs[0])
  }

  // ------------------------------------------------------- what an assignment is

  predicate NameChar(c: char) {
    NameStart(c) || '0' <= c <= '9'
  }

  /** A name up to i, blanks up to j, and an equals sign there. */
  ghost predicate Assigns(s: string, i: nat, j: nat) {
    && 0 < i <= j < |s| && NameStart(s[0]) && s[j] == '='
    && (forall k :: 0 < k < i ==> NameChar(s[k])) && (forall k :: i <= k < j ==> Blank(s[k]))
  }

  lemma {:induction false} EqualsFound(s: string) returns (j: nat)
    requires EqualsNext(s)
    ensures j < |s| && s[j] == '=' && forall k :: 0 <= k < j ==> Blank(s[k])
  {
    j := 0;
    if s[0] != '=' {
      j := EqualsFound(s[1..]);
      j := j + 1;
    }
  }

  lemma {:induction false} NameFound(s: string) returns (i: nat, j: nat)
    requires NameThenEquals(s)
    ensures i <= j < |s| && s[j] == '='
    ensures (forall k :: 0 <= k < i ==> NameChar(s[k])) && (forall k :: i <= k < j ==> Blank(s[k]))
  {
    i := 0;
    if NameChar(s[0]) {
      i, j := NameFound(s[1..]);
      i, j := i + 1, j + 1;
    } else {
      j := EqualsFound(s);
    }
  }

  lemma {:induction false} FindsEquals(s: string, j: nat)
    requires j < |s| && s[j] == '=' && forall k :: 0 <= k < j ==> Blank(s[k])
    ensures EqualsNext(s)
  {
    if j > 0 {
      FindsEquals(s[1..], j - 1);
    }
  }

  lemma {:induction false} FindsName(s: string, i: nat, j: nat)
    requires i <= j < |s| && s[j] == '='
    requires (forall k :: 0 <= k < i ==> NameChar(s[k])) && (forall k :: i <= k < j ==> Blank(s[k]))
    ensures NameThenEquals(s)
  {
    if i > 0 {
      FindsName(s[1..], i - 1, j - 1);
    } else {
      assert j > 0 ==> Blank(s[0]);
      FindsEquals(s, j);
    }
  }

  /** An assignment is exactly a name, perhaps blanks, and an equals sign at the start of a line. */
  lemma IsEnvExactly(s: string)
    ensures IsEnv(s) <==> exists i: nat, j: nat :: Assigns(s, i, j)
  {
    if IsEnv(s) {
      var i, j := NameFound(s[1..]);
      assert Assigns(s, i + 1, j + 1);
    }
    if i: nat, j: nat :| Assigns(s, i, j) {
      FindsName(s[1..], i - 1, j - 1);
    }
  }
}
