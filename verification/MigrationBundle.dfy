/** The embedded migration bundle (migrations/embed.go): a byte-level parser, the printer it
    inverts, and the exact language it accepts. */
module MigrationBundle {
  import opened Common

  datatype Migration = Migration(name: seq<Byte>, version: int, script: seq<Byte>)

  datatype Fault =
    | EmptyBundle
    | MarkerNotTerminated
    | ExpectedBegin
    | DuplicateName
    | BadFileName
    | Noncontiguous
    | EndNotTerminated
    | ClosedByOther
    | EmptyScript
    | NoEndMarker
    | WrongLastVersion

  datatype Parse<+T> = Ok(value: T) | Err(fault: Fault)

  function Ascii(s: string): (r: seq<Byte>)
    requires forall i | 0 <= i < |s| :: s[i] as int < 128
    ensures |r| == |s|
  {
    seq(|s|, i requires 0 <= i < |s| => s[i] as int)
  }

  const NL: Byte := 10

  /** The marker prefixes, the rule that reads a marker line and the version a file name carries. The
      reading below is correct for any such rules that are coherent. */
  datatype Markers = Markers(
    begin: seq<Byte>,
    end: seq<Byte>,
    marker: (seq<Byte>, seq<Byte>) -> Option<seq<Byte>>,
    version: seq<Byte> -> Option<int>)
  {
    ghost predicate Coherent() {
      && NL !in begin && NL !in end
      && (exists i | 0 <= i < |begin| && i < |end| :: begin[i] != end[i])
      && (forall line, prefix {:trigger marker(line, prefix)} :: marker(line, prefix).Some? ==>
            line == prefix + marker(line, prefix).value && MarkerName(marker(line, prefix).value))
      && (forall line, prefix {:trigger marker(line, prefix)} :: prefix <= line && MarkerName(line[|prefix|..]) ==>
            marker(line, prefix) == Some(line[|prefix|..]))
    }
  }

  const MARKERS := Markers(Ascii("-- dirextalk-agent migration begin "), Ascii("-- dirextalk-agent migration end "),
                           ParseMarker, MigrationVersion)

  lemma MarkersAreCoherent()
    ensures MARKERS.Coherent()
  {
    assert MARKERS.begin[29] != MARKERS.end[29];
  }

  const UP_SQL := Ascii(".up.sql")
  const CURRENT_VERSION := 41

  /** `bytes.IndexByte` on `s[from..]`, as a position in `s`. */
  function IndexFrom(s: seq<Byte>, b: Byte, from: nat): (r: int)
    requires from <= |s|
    ensures r == -1 || (from <= r < |s| && s[r] == b)
    decreases |s| - from
  {
    if from == |s| then -1 else if s[from] == b then from else IndexFrom(s, b, from + 1)
  }

  lemma {:induction false} FirstIndex(s: seq<Byte>, b: Byte, from: nat, at: nat)
    requires from <= at < |s| && s[at] == b && b !in s[from..at]
    ensures IndexFrom(s, b, from) == at
    decreases at - from
  {
    if from < at {
      assert s[from..at][0] == s[from] && s[from + 1..at] == s[from..at][1..];
      FirstIndex(s, b, from + 1, at);
    }
  }

  /** The first occurrence at or after `i` in `s` is the one in the part of `s` that starts at `i`. */
  lemma {:induction false} IndexLocal(s: seq<Byte>, b: Byte, i: nat, part: seq<Byte>, from: nat)
    requires At(s, i, part) && from <= |part|
    ensures IndexFrom(part, b, from) >= 0 ==> IndexFrom(s, b, i + from) == i + IndexFrom(part, b, from)
    ensures IndexFrom(part, b, from) < 0 ==> IndexFrom(s, b, i + from) < 0 || IndexFrom(s, b, i + from) >= i + |part|
    decreases |part| - from
  {
    if from < |part| {
      assert s[i + from] == s[i..i + |part|][from];
      IndexLocal(s, b, i, part, from + 1);
    }
  }

  predicate Blank(b: Byte) {
    b == 32 || b == 9 || b == 13 || b == 10
  }

  predicate MarkerName(name: seq<Byte>) {
    name != [] && forall i | 0 <= i < |name| :: !Blank(name[i])
  }

  function ParseMarker(line: seq<Byte>, prefix: seq<Byte>): (r: Option<seq<Byte>>)
  {
    if prefix <= line && MarkerName(line[|prefix|..]) then Some(line[|prefix|..]) else None
  }

  predicate MarkerLine(mk: Markers, line: seq<Byte>) {
    mk.marker(line, mk.begin).Some? || mk.marker(line, mk.end).Some?
  }

  function Decimal(digits: seq<Byte>): int
    requires forall i | 0 <= i < |digits| :: 48 <= digits[i] <= 57
  {
    if digits == [] then 0
    else Decimal(digits[..|digits| - 1]) * 10 + (digits[|digits| - 1] - 48)
  }

  /** `strconv.ParseInt(s, 10, 64)`: an optional sign, digits, and a signed 64-bit range check. */
  function ParseInt(s: seq<Byte>): Option<int> {
    var signed := s != [] && (s[0] == 43 || s[0] == 45);
    var digits := if signed then s[1..] else s;
    if digits == [] || exists i | 0 <= i < |digits| :: !(48 <= digits[i] <= 57) then None
    else
      var v := if signed && s[0] == 45 then -Decimal(digits) else Decimal(digits);
      if -0x8000_0000_0000_0000 <= v < 0x8000_0000_0000_0000 then Some(v) else None
  }

  function MigrationVersion(name: seq<Byte>): Option<int> {
    var separator := IndexFrom(name, 95, 0);
    if |name| < |UP_SQL| || name[|name| - |UP_SQL|..] != UP_SQL || separator <= 0 then None
    else match ParseInt(name[..separator])
      case None => None
      case Some(v) => if v < 1 then None else Some(v)
  }

  // ---- The version that a file name carries. ----

  /** A number in decimal, with leading zeros. */
  function Digits(v: nat, zeros: nat): seq<Byte>
    decreases zeros, v
  {
    if zeros > 0 then [48] + Digits(v, zeros - 1)
    else if v < 10 then [48 + v]
    else Digits(v / 10, 0) + [48 + v % 10]
  }

  lemma {:induction false} DigitsAreDecimal(v: nat, zeros: nat)
    ensures Digits(v, zeros) != [] && forall i | 0 <= i < |Digits(v, zeros)| :: 48 <= Digits(v, zeros)[i] <= 57
    ensures Decimal(Digits(v, zeros)) == v
    decreases zeros, v
  {
    if zeros > 0 {
      DigitsAreDecimal(v, zeros - 1);
      LeadingZero(Digits(v, zeros - 1));
    } else if v >= 10 {
      DigitsAreDecimal(v / 10, 0);
      var d := Digits(v, 0);
      assert d[..|d| - 1] == Digits(v / 10, 0);
    } else {
      assert Decimal([48 + v][..0]) == 0;
    }
  }

  lemma {:induction false} LeadingZero(d: seq<Byte>)
    requires forall i | 0 <= i < |d| :: 48 <= d[i] <= 57
    ensures Decimal([48] + d) == Decimal(d)
    decreases |d|
  {
    var e := [48] + d;
    if d == [] {
      assert e[..0] == [];
    } else {
      assert e[..|e| - 1] == [48] + d[..|d| - 1];
      LeadingZero(d[..|d| - 1]);
    }
  }

  lemma ParsesDigits(v: nat, zeros: nat)
    ensures ParseInt(Digits(v, zeros)) == if v < 0x8000_0000_0000_0000 then Some(v) else None
  {
    DigitsAreDecimal(v, zeros);
  }

  function FileName(v: nat, zeros: nat, title: seq<Byte>): seq<Byte> {
    Digits(v, zeros) + [95] + title + UP_SQL
  }

  /** A file name is a number, an underscore, any title and the ending; its version is that number if it is positive and
      fits into 64 bits, and no version otherwise. */
  lemma FileVersion(v: nat, zeros: nat, title: seq<Byte>)
    ensures MigrationVersion(FileName(v, zeros, title)) == if 1 <= v < 0x8000_0000_0000_0000 then Some(v) else None
  {
    hide ParseInt, Digits;
    var d, name := Digits(v, zeros), FileName(v, zeros, title);
    DigitsAreDecimal(v, zeros);
    ParsesDigits(v, zeros);
    assert name[..|d|] == d && name[|d|] == 95;
    assert name[0..|d|] == d;
    FirstIndex(name, 95, 0, |d|);
    assert name[|name| - |UP_SQL|..] == UP_SQL;
  }

  /** Without the ending, or without an underscore behind at least one character, a name has no version; and a version
      is what stands before the first underscore, and positive. */
  lemma VersionExactly(name: seq<Byte>, v: int)
    ensures MigrationVersion(name) == Some(v) <==>
            && v >= 1 && |name| >= 7 && name[|name| - 7..] == Ascii(".up.sql")
            && exists k | 0 < k < |name| :: name[k] == 95 && 95 !in name[..k] && ParseInt(name[..k]) == Some(v)
  {
    hide ParseInt;
    var at := IndexFrom(name, 95, 0);
    if at >= 0 {
      NoneBefore(name, 95, 0);
    }
    if k :| 0 < k < |name| && name[k] == 95 && 95 !in name[..k] && ParseInt(name[..k]) == Some(v) {
      assert name[0..k] == name[..k];
      FirstIndex(name, 95, 0, k);
    }
  }

  lemma {:induction false} NoneBefore(s: seq<Byte>, b: Byte, from: nat)
    requires from <= |s| && IndexFrom(s, b, from) >= 0
    ensures b !in s[from..IndexFrom(s, b, from)]
    decreases |s| - from
  {
    if s[from] != b {
      NoneBefore(s, b, from + 1);
      var at := IndexFrom(s, b, from);
      assert s[from..at] == [s[from]] + s[from + 1..at];
    }
  }

  // ---- The format: what a bundle is, independently of how it is read. ----

  function Line(prefix: seq<Byte>, name: seq<Byte>): seq<Byte> {
    prefix + name + [NL]
  }

  function PrintOne(mk: Markers, m: Migration): seq<Byte> {
    Line(mk.begin, m.name) + m.script + Line(mk.end, m.name)
  }

  function Print(mk: Markers, ms: seq<Migration>): seq<Byte> {
    if ms == [] then [] else PrintOne(mk, ms[0]) + Print(mk, ms[1..])
  }

  /** `s[lo..hi]` is a run of newline-terminated lines, none of which is a marker. */
  predicate PlainLines(mk: Markers, s: seq<Byte>, lo: nat, hi: nat)
    requires lo <= hi <= |s|
    decreases hi - lo
  {
    lo == hi ||
    (var end := IndexFrom(s, NL, lo);
     lo <= end < hi && !MarkerLine(mk, s[lo..end]) && PlainLines(mk, s, end + 1, hi))
  }

  predicate WellFormedOne(mk: Markers, m: Migration, version: int) {
    && MarkerName(m.name)
    && mk.version(m.name) == Some(version)
    && m.version == version
    && m.script != []
    && PlainLines(mk, m.script, 0, |m.script|)
  }

  predicate WellFormed(mk: Markers, ms: seq<Migration>, first: int) {
    forall i | 0 <= i < |ms| :: WellFormedOne(mk, ms[i], first + i)
  }

  predicate IsBundle(mk: Markers, raw: seq<Byte>, ms: seq<Migration>) {
    raw == Print(mk, ms) && |ms| == CURRENT_VERSION && WellFormed(mk, ms, 1)
  }

  // ---- The reading, as a function of the position in the bytes. ----

  datatype Verdict = Close | Reject(fault: Fault) | Text

  /** What one line inside a script means; `empty` says that no script line came before it. */
  function ScriptLine(mk: Markers, line: seq<Byte>, name: seq<Byte>, empty: bool): Verdict {
    match mk.marker(line, mk.end)
    case Some(endName) =>
      if endName != name then Reject(ClosedByOther) else if empty then Reject(EmptyScript) else Close
    case None =>
      if mk.marker(line, mk.begin).Some? then Reject(NoEndMarker) else Text
  }

  /** Where the script that starts at `start` ends and where the bytes after its end marker begin. */
  function ScanScript(mk: Markers, raw: seq<Byte>, start: nat, cursor: nat, name: seq<Byte>): (r: Parse<(nat, nat)>)
    requires start <= cursor <= |raw|
    ensures r.Ok? ==> cursor <= r.value.0 < r.value.1 <= |raw|
    decreases |raw| - cursor
  {
    if cursor == |raw| then Err(NoEndMarker)
    else
      var end := IndexFrom(raw, NL, cursor);
      if end < 0 then Err(EndNotTerminated)
      else match ScriptLine(mk, raw[cursor..end], name, cursor == start)
        case Close => Ok((cursor, end + 1))
        case Reject(f) => Err(f)
        case Text => ScanScript(mk, raw, start, end + 1, name)
  }

  /** The name on the begin marker at `offset` and where its script starts. */
  function ScanHead(mk: Markers, raw: seq<Byte>, offset: nat, expected: int): (r: Parse<(seq<Byte>, nat)>)
    requires offset <= |raw|
    ensures r.Ok? ==> offset < r.value.1 <= |raw|
  {
    var end := IndexFrom(raw, NL, offset);
    if end < 0 then Err(MarkerNotTerminated)
    else match mk.marker(raw[offset..end], mk.begin)
      case None => Err(ExpectedBegin)
      case Some(name) =>
        match mk.version(name)
        case None => Err(BadFileName)
        case Some(version) => if version != expected then Err(Noncontiguous) else Ok((name, end + 1))
  }

  function ParseBlock(mk: Markers, raw: seq<Byte>, offset: nat, expected: int): (r: Parse<(Migration, nat)>)
    requires offset <= |raw|
    ensures r.Ok? ==> offset < r.value.1 <= |raw|
  {
    match ScanHead(mk, raw, offset, expected)
    case Err(f) => Err(f)
    case Ok((name, start)) =>
      match ScanScript(mk, raw, start, start, name)
      case Err(f) => Err(f)
      case Ok((stop, next)) => Ok((Migration(name, expected, raw[start..stop]), next))
  }

  function ParseFrom(mk: Markers, raw: seq<Byte>, offset: nat, expected: int): Parse<seq<Migration>>
    requires offset <= |raw|
    decreases |raw| - offset
  {
    if offset == |raw| then
      if expected == CURRENT_VERSION + 1 then Ok([]) else Err(WrongLastVersion)
    else match ParseBlock(mk, raw, offset, expected)
      case Err(f) => Err(f)
      case Ok((m, next)) => Prepend([m], ParseFrom(mk, raw, next, expected + 1))
  }

  function Prepend(ms: seq<Migration>, rest: Parse<seq<Migration>>): Parse<seq<Migration>> {
    if rest.Ok? then Ok(ms + rest.value) else rest
  }

  // ---- Reading is exactly the inverse of printing. ----

  ghost predicate At(raw: seq<Byte>, i: nat, part: seq<Byte>) {
    i + |part| <= |raw| && raw[i..i + |part|] == part
  }

  lemma AtConcat(raw: seq<Byte>, i: nat, a: seq<Byte>, b: seq<Byte>)
    ensures At(raw, i, a + b) <==> At(raw, i, a) && At(raw, i + |a|, b)
  {
    if i + |a + b| <= |raw| {
      assert raw[i..i + |a + b|] == raw[i..i + |a|] + raw[i + |a|..i + |a + b|];
      assert (a + b)[..|a|] == a && (a + b)[|a|..] == b;
    }
  }

  lemma SliceAt(raw: seq<Byte>, lo: nat, hi: nat)
    requires lo <= hi <= |raw|
    ensures At(raw, lo, raw[lo..hi])
  {
  }

  lemma AtFits(raw: seq<Byte>, i: nat, part: seq<Byte>)
    requires At(raw, i, part)
    ensures i + |part| <= |raw|
  {
  }

  lemma AtSlice(raw: seq<Byte>, i: nat, part: seq<Byte>, a: nat, b: nat)
    requires At(raw, i, part) && a <= b <= |part|
    ensures raw[i + a..i + b] == part[a..b]
  {
    forall k | 0 <= k < b - a
      ensures raw[i + a..i + b][k] == part[a..b][k]
    {
      assert raw[i..i + |part|][a + k] == part[a + k];
    }
  }

  /** Finding the end of a line is the same as having a newline-free line there. */
  lemma LineAt(raw: seq<Byte>, i: nat, line: seq<Byte>)
    requires NL !in line && At(raw, i, line + [NL])
    ensures IndexFrom(raw, NL, i) == i + |line| && raw[i..i + |line|] == line
  {
    AtConcat(raw, i, line, [NL]);
    assert raw[i + |line|] == raw[i + |line|..i + |line| + 1][0] == NL;
    FirstIndex(raw, NL, i, i + |line|);
  }

  lemma LineFound(raw: seq<Byte>, i: nat)
    requires i <= |raw| && IndexFrom(raw, NL, i) >= 0
    ensures At(raw, i, raw[i..IndexFrom(raw, NL, i)] + [NL])
  {
  }

  lemma MarkerLineAt(mk: Markers, raw: seq<Byte>, i: nat, prefix: seq<Byte>, name: seq<Byte>)
    requires mk.Coherent() && MarkerName(name) && (prefix == mk.begin || prefix == mk.end)
    requires At(raw, i, Line(prefix, name))
    ensures IndexFrom(raw, NL, i) == i + |prefix| + |name|
    ensures mk.marker(raw[i..i + |prefix| + |name|], prefix) == Some(name)
  {
    LineAt(raw, i, prefix + name);
    assert (prefix + name)[|prefix|..] == name;
    assert mk.marker(prefix + name, prefix) == Some(name);
  }

  /** Lines read inside a larger text are the lines of the part alone. */
  lemma {:induction false} PlainLinesLocal(mk: Markers, raw: seq<Byte>, i: nat, part: seq<Byte>, from: nat)
    requires At(raw, i, part) && from <= |part|
    ensures PlainLines(mk, raw, i + from, i + |part|) <==> PlainLines(mk, part, from, |part|)
    decreases |part| - from
  {
    hide MarkerLine, IndexFrom, At;
    assert i + |part| <= |raw| by { AtFits(raw, i, part); }
    if from < |part| {
      var inner := IndexFrom(part, NL, from);
      IndexLocal(raw, NL, i, part, from);
      if inner >= 0 {
        AtSlice(raw, i, part, from, inner);
        PlainLinesLocal(mk, raw, i, part, inner + 1);
      }
    }
  }

  lemma {:induction false} ScriptSound(mk: Markers, raw: seq<Byte>, start: nat, cursor: nat, name: seq<Byte>)
    requires mk.Coherent() && start <= cursor <= |raw| && ScanScript(mk, raw, start, cursor, name).Ok?
    ensures var (stop, next) := ScanScript(mk, raw, start, cursor, name).value;
            start < stop && PlainLines(mk, raw, cursor, stop) && next == stop + |Line(mk.end, name)| &&
            At(raw, stop, Line(mk.end, name))
    decreases |raw| - cursor
  {
    var end := IndexFrom(raw, NL, cursor);
    LineFound(raw, cursor);
    if ScriptLine(mk, raw[cursor..end], name, cursor == start).Text? {
      ScriptSound(mk, raw, start, end + 1, name);
    } else {
      assert raw[cursor..end] == mk.end + name;
    }
  }

  lemma {:induction false} ScriptComplete(mk: Markers, raw: seq<Byte>, start: nat, cursor: nat, stop: nat,
                                          name: seq<Byte>)
    requires mk.Coherent() && MarkerName(name) && start <= cursor <= stop <= |raw| && start < stop
    requires PlainLines(mk, raw, cursor, stop) && At(raw, stop, Line(mk.end, name))
    ensures ScanScript(mk, raw, start, cursor, name) == Ok((stop, stop + |Line(mk.end, name)|))
    decreases stop - cursor
  {
    hide Markers.Coherent, At;
    if cursor == stop {
      MarkerLineAt(mk, raw, stop, mk.end, name);
    } else {
      ScriptComplete(mk, raw, start, IndexFrom(raw, NL, cursor) + 1, stop, name);
    }
  }

  lemma BlockAt(mk: Markers, raw: seq<Byte>, offset: nat, m: Migration)
    ensures At(raw, offset, PrintOne(mk, m)) <==>
            (var start := offset + |Line(mk.begin, m.name)|;
             At(raw, offset, Line(mk.begin, m.name)) && At(raw, start, m.script) &&
             At(raw, start + |m.script|, Line(mk.end, m.name)))
  {
    AtConcat(raw, offset, Line(mk.begin, m.name) + m.script, Line(mk.end, m.name));
    AtConcat(raw, offset, Line(mk.begin, m.name), m.script);
  }

  lemma HeadSound(mk: Markers, raw: seq<Byte>, offset: nat, expected: int)
    requires mk.Coherent() && offset <= |raw| && ScanHead(mk, raw, offset, expected).Ok?
    ensures var (name, start) := ScanHead(mk, raw, offset, expected).value;
            MarkerName(name) && mk.version(name) == Some(expected)
            && At(raw, offset, Line(mk.begin, name)) && start == offset + |Line(mk.begin, name)|
  {
    LineFound(raw, offset);
    var end := IndexFrom(raw, NL, offset);
    var name := mk.marker(raw[offset..end], mk.begin).value;
    assert raw[offset..end] == mk.begin + name;
  }

  lemma BlockSound(mk: Markers, raw: seq<Byte>, offset: nat, expected: int)
    requires mk.Coherent() && offset <= |raw| && ParseBlock(mk, raw, offset, expected).Ok?
    ensures var (m, next) := ParseBlock(mk, raw, offset, expected).value;
            WellFormedOne(mk, m, expected) && At(raw, offset, PrintOne(mk, m)) && next == offset + |PrintOne(mk, m)|
  {
    hide ScanHead, ScanScript, Markers.Coherent, PlainLines, At, MarkerName;
    var (name, start) := ScanHead(mk, raw, offset, expected).value;
    var (stop, next) := ScanScript(mk, raw, start, start, name).value;
    HeadSound(mk, raw, offset, expected);
    ScriptSound(mk, raw, start, start, name);
    var m := Migration(name, expected, raw[start..stop]);
    SliceAt(raw, start, stop);
    PlainLinesLocal(mk, raw, start, m.script, 0);
    BlockAt(mk, raw, offset, m);
  }

  lemma BlockComplete(mk: Markers, raw: seq<Byte>, offset: nat, m: Migration, expected: int)
    requires mk.Coherent() && WellFormedOne(mk, m, expected) && At(raw, offset, PrintOne(mk, m))
    ensures ParseBlock(mk, raw, offset, expected) == Ok((m, offset + |PrintOne(mk, m)|))
  {
    hide PlainLines, ScanScript, Markers.Coherent;
    var start := offset + |Line(mk.begin, m.name)|;
    BlockAt(mk, raw, offset, m);
    MarkerLineAt(mk, raw, offset, mk.begin, m.name);
    PlainLinesLocal(mk, raw, start, m.script, 0);
    ScriptComplete(mk, raw, start, start, start + |m.script|, m.name);
  }

  lemma WellFormedCons(mk: Markers, m: Migration, ms: seq<Migration>, first: int)
    ensures WellFormed(mk, [m] + ms, first) <==> WellFormedOne(mk, m, first) && WellFormed(mk, ms, first + 1)
  {
    var all := [m] + ms;
    if WellFormed(mk, all, first) {
      assert all[0] == m;
      forall i | 0 <= i < |ms|
        ensures WellFormedOne(mk, ms[i], first + 1 + i)
      {
        assert all[i + 1] == ms[i] && WellFormedOne(mk, all[i + 1], first + (i + 1));
      }
    }
  }

  lemma {:induction false} ParseFromSound(mk: Markers, raw: seq<Byte>, offset: nat, expected: int)
    requires mk.Coherent() && offset <= |raw| && ParseFrom(mk, raw, offset, expected).Ok?
    ensures At(raw, offset, Print(mk, ParseFrom(mk, raw, offset, expected).value))
    ensures offset + |Print(mk, ParseFrom(mk, raw, offset, expected).value)| == |raw|
    ensures WellFormed(mk, ParseFrom(mk, raw, offset, expected).value, expected)
    ensures expected + |ParseFrom(mk, raw, offset, expected).value| == CURRENT_VERSION + 1
    decreases |raw| - offset
  {
    hide ParseBlock, WellFormedOne, PrintOne, Markers.Coherent;
    if offset < |raw| {
      var (m, next) := ParseBlock(mk, raw, offset, expected).value;
      BlockSound(mk, raw, offset, expected);
      ParseFromSound(mk, raw, next, expected + 1);
      var ms := ParseFrom(mk, raw, next, expected + 1).value;
      WellFormedCons(mk, m, ms, expected);
      assert ([m] + ms)[1..] == ms;
      AtConcat(raw, offset, PrintOne(mk, m), Print(mk, ms));
    }
  }

  lemma {:induction false} ParseFromComplete(mk: Markers, raw: seq<Byte>, offset: nat, ms: seq<Migration>,
                                             expected: int)
    requires mk.Coherent() && WellFormed(mk, ms, expected) && expected + |ms| == CURRENT_VERSION + 1
    requires At(raw, offset, Print(mk, ms)) && offset + |Print(mk, ms)| == |raw|
    ensures ParseFrom(mk, raw, offset, expected) == Ok(ms)
    decreases |ms|
  {
    hide ParseBlock, WellFormedOne, PrintOne, At, Markers.Coherent;
    if ms != [] {
      var m, rest := ms[0], ms[1..];
      assert ms == [m] + rest;
      WellFormedCons(mk, m, rest, expected);
      AtConcat(raw, offset, PrintOne(mk, m), Print(mk, rest));
      BlockComplete(mk, raw, offset, m, expected);
      ParseFromComplete(mk, raw, offset + |PrintOne(mk, m)|, rest, expected + 1);
    }
  }

  /** The bytes are accepted with result `ms` exactly when they are the printing of `ms`. */
  lemma ReadingInvertsPrinting(mk: Markers, raw: seq<Byte>, ms: seq<Migration>)
    requires mk.Coherent()
    ensures ParseFrom(mk, raw, 0, 1) == Ok(ms) <==> IsBundle(mk, raw, ms)
  {
    assert raw[0..|raw|] == raw;
    if ParseFrom(mk, raw, 0, 1) == Ok(ms) {
      ParseFromSound(mk, raw, 0, 1);
    }
    if IsBundle(mk, raw, ms) {
      ParseFromComplete(mk, raw, 0, ms, 1);
    }
  }

  /** A bundle has one reading: printing is injective on well-formed lists. */
  lemma PrintInjective(mk: Markers, xs: seq<Migration>, ys: seq<Migration>)
    requires mk.Coherent() && IsBundle(mk, Print(mk, xs), xs) && IsBundle(mk, Print(mk, xs), ys)
    ensures xs == ys
  {
    ReadingInvertsPrinting(mk, Print(mk, xs), xs);
    ReadingInvertsPrinting(mk, Print(mk, xs), ys);
  }

  // ---- The loops of the source, with their duplicate-name set. ----

  ghost predicate Refines(r: Parse<seq<Migration>>, spec: Parse<seq<Migration>>) {
    r == spec || (r == Err(DuplicateName) && spec == Err(Noncontiguous))
  }

  /** `ParseBundle`. Acceptance is stated by the grammar alone, which has no uniqueness clause, so the
      duplicate-name check only ever renames a rejection. */
  method ParseBundle(raw: seq<Byte>) returns (r: Parse<seq<Migration>>)
    ensures r.Ok? ==> IsBundle(MARKERS, raw, r.value)
    ensures r.Err? ==> forall ms :: !IsBundle(MARKERS, raw, ms)
    ensures raw == [] ==> r == Err(EmptyBundle)
    ensures raw != [] ==> Refines(r, ParseFrom(MARKERS, raw, 0, 1))
  {
    hide WellFormed, Print, ParseBlock;
    r := ParseLoop(MARKERS, raw);
    MarkersAreCoherent();
    forall ms
      ensures r == Ok(ms) <==> IsBundle(MARKERS, raw, ms)
    {
      ReadingInvertsPrinting(MARKERS, raw, ms);
    }
  }

  method ParseLoop(mk: Markers, raw: seq<Byte>) returns (r: Parse<seq<Migration>>)
    ensures raw == [] ==> r == Err(EmptyBundle)
    ensures raw != [] ==> Refines(r, ParseFrom(mk, raw, 0, 1))
  {
    if |raw| == 0 {
      return Err(EmptyBundle);
    }
    var migrations: seq<Migration> := [];
    var seen: set<seq<Byte>> := {};
    var offset, expected := 0, 1;
    PrependNothing(ParseFrom(mk, raw, 0, 1));
    while offset < |raw|
      invariant 0 <= offset <= |raw|
      invariant ParseFrom(mk, raw, 0, 1) == Prepend(migrations, ParseFrom(mk, raw, offset, expected))
      invariant forall name | name in seen :: mk.version(name).Some? && mk.version(name).value < expected
    {
      var lineEnd := IndexFrom(raw, NL, offset);
      if lineEnd < 0 {
        return Err(MarkerNotTerminated);
      }
      var marker := mk.marker(raw[offset..lineEnd], mk.begin);
      if marker.None? {
        return Err(ExpectedBegin);
      }
      var name := marker.value;
      if name in seen {
        return Err(DuplicateName);
      }
      var version := mk.version(name);
      if version.None? {
        return Err(BadFileName);
      }
      if version.value != expected {
        return Err(Noncontiguous);
      }
      seen := seen + {name};
      var body := ScriptLoop(mk, raw, lineEnd + 1, name);
      if body.Err? {
        return Err(body.fault);
      }
      var migration := Migration(name, version.value, raw[lineEnd + 1..body.value.0]);
      PrependAssoc(migrations, [migration], ParseFrom(mk, raw, body.value.1, expected + 1));
      migrations, offset, expected := migrations + [migration], body.value.1, expected + 1;
    }
    PrependEnd(migrations);
    r := if expected != CURRENT_VERSION + 1 then Err(WrongLastVersion) else Ok(migrations);
  }

  /** The inner loop: the script ends at the first end marker. */
  method ScriptLoop(mk: Markers, raw: seq<Byte>, bodyStart: nat, name: seq<Byte>) returns (r: Parse<(nat, nat)>)
    requires bodyStart <= |raw|
    ensures r == ScanScript(mk, raw, bodyStart, bodyStart, name)
  {
    var cursor := bodyStart;
    while cursor < |raw|
      invariant bodyStart <= cursor <= |raw|
      invariant cursor > bodyStart ==> raw[cursor - 1] == NL
      invariant ScanScript(mk, raw, bodyStart, bodyStart, name) == ScanScript(mk, raw, bodyStart, cursor, name)
    {
      var nextEnd := IndexFrom(raw, NL, cursor);
      if nextEnd < 0 {
        return Err(EndNotTerminated);
      }
      match ScriptLine(mk, raw[cursor..nextEnd], name, cursor == bodyStart || raw[cursor - 1] != NL) {
        case Close => return Ok((cursor, nextEnd + 1));
        case Reject(f) => return Err(f);
        case Text => cursor := nextEnd + 1;
      }
    }
    r := Err(NoEndMarker);
  }

  lemma PrependNothing(rest: Parse<seq<Migration>>)
    ensures Prepend([], rest) == rest
  {
    assert rest.Ok? ==> [] + rest.value == rest.value;
  }

  lemma PrependEnd(ms: seq<Migration>)
    ensures Prepend(ms, Ok([])) == Ok(ms)
  {
    assert ms + [] == ms;
  }

  lemma PrependAssoc(xs: seq<Migration>, ys: seq<Migration>, rest: Parse<seq<Migration>>)
    ensures Prepend(xs, Prepend(ys, rest)) == Prepend(xs + ys, rest)
  {
    if rest.Ok? {
      assert xs + (ys + rest.value) == (xs + ys) + rest.value;
    }
  }

  /** Migrations named by their versions 1 to N, with any titles without blanks. */
  function Named(titles: nat -> seq<Byte>, scripts: nat -> seq<Byte>): (ms: seq<Migration>)
    ensures |ms| == CURRENT_VERSION
    ensures forall i | 0 <= i < |ms| :: ms[i] == Migration(FileName(i + 1, 5, titles(i)), i + 1, scripts(i))
  {
    seq(CURRENT_VERSION, i requires i >= 0 => Migration(FileName(i + 1, 5, titles(i)), i + 1, scripts(i)))
  }

  lemma FileNameIsName(v: nat, zeros: nat, title: seq<Byte>)
    requires forall i | 0 <= i < |title| :: !Blank(title[i])
    ensures MarkerName(FileName(v, zeros, title))
  {
    DigitsAreDecimal(v, zeros);
    hide Digits;
    var d := Digits(v, zeros);
    assert forall i | 0 <= i < |d| :: !Blank(d[i]);
    EndingIsPlain();
  }

  lemma EndingIsPlain()
    ensures forall i | 0 <= i < |UP_SQL| :: !Blank(UP_SQL[i])
  {
    assert UP_SQL == [46, 117, 112, 46, 115, 113, 108];
  }

  /** Bundles exist for all titles and scripts: printed, they are read back. */
  lemma EveryNamedBundleIsRead(titles: nat -> seq<Byte>, scripts: nat -> seq<Byte>)
    requires forall i :: forall j | 0 <= j < |titles(i)| :: !Blank(titles(i)[j])
    requires forall i :: scripts(i) != [] && PlainLines(MARKERS, scripts(i), 0, |scripts(i)|)
    ensures var ms := Named(titles, scripts); ParseFrom(MARKERS, Print(MARKERS, ms), 0, 1) == Ok(ms)
  {
    hide Print, ParseFrom, PlainLines, FileName, MigrationVersion, MarkerName, Blank;
    var ms := Named(titles, scripts);
    forall i | 0 <= i < |ms|
      ensures WellFormedOne(MARKERS, ms[i], 1 + i)
    {
      FileVersion(i + 1, 5, titles(i));
      FileNameIsName(i + 1, 5, titles(i));
    }
    MarkersAreCoherent();
    ReadingInvertsPrinting(MARKERS, Print(MARKERS, ms), ms);
  }
}
