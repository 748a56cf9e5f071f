/** Reading atoms from a Protein Data Bank file (src/pdb.js) and classifying them against the
    viewer's atom-group table (dist/index.js).

    An ATOM/HETATM record is sliced by fixed columns, as in the Protein Data Bank File
    Format v3.3, Coordinate Section, ATOM record: record name in columns 1–6, atom name from
    column 13, chain identifier in column 22, residue sequence number in columns 23–26; the
    coordinates are the first three whitespace-separated tokens from column 30 on.  Turning
    text into a number (`Number`) is a parameter `number`. */
module Pdb {
  import opened Outcomes

  /** A JavaScript number as the model needs it: NaN or a value. */
  datatype Num = NaN | Val(v: real)

  /** A parsed record.  `coords` is every token of the coordinate text mapped through
      `Number`; the record's `pos.x`, `pos.y` and `pos.z` are its first three elements,
      `undefined` past its end. */
  datatype Atom = Atom(kind: string, descriptor: string, index: Num, chain: string, coords: seq<Num>)

  /** `pos.x`, `pos.y` or `pos.z` (`k` = 0, 1, 2): absent when there are fewer tokens. */
  function Coordinate(a: Atom, k: nat): Option<Num>
  {
    if k < |a.coords| then Some(a.coords[k]) else None
  }

  // ---------------------------------------------------------------------------
  // String primitives with JavaScript's semantics
  // ---------------------------------------------------------------------------

  function Min(a: int, b: int): int { if a <= b then a else b }

  /** `s` from index `a` up to `b`, both clamped to the length (`a <= b`). */
  function Slice(s: string, a: nat, b: nat): (r: string)
    requires a <= b
    ensures b <= |s| ==> r == s[a..b]
    ensures |r| <= b - a
  {
    s[Min(a, |s|)..Min(b, |s|)]
  }

  /** `s.substr(start, length)` for a non-negative start. */
  function Substr(s: string, start: nat, length: nat): string
  {
    Slice(s, start, start + length)
  }

  /** `s.substring(a, b)`; the arguments are swapped when `a > b`. */
  function Substring(s: string, a: nat, b: nat): string
  {
    if a <= b then Slice(s, a, b) else Slice(s, b, a)
  }

  /** ECMAScript line terminators: LF, CR, LINE SEPARATOR, PARAGRAPH SEPARATOR. */
  predicate IsLineTerminator(c: char)
  {
    c == '\n' || c == '\r' || c as int == 0x2028 || c as int == 0x2029
  }

  /** What `trim` removes and `\s` matches: ECMAScript WhiteSpace and LineTerminator. */
  predicate IsSpace(c: char)
  {
    IsLineTerminator(c) || c == '\t' || c as int == 0x0B || c as int == 0x0C || c == ' ' ||
    c as int == 0xA0 || c as int == 0x1680 || 0x2000 <= c as int <= 0x200A ||
    c as int == 0x202F || c as int == 0x205F || c as int == 0x3000 || c as int == 0xFEFF
  }

  function TrimStart(s: string): (r: string)
    ensures |r| <= |s|
  {
    if s != [] && IsSpace(s[0]) then TrimStart(s[1..]) else s
  }

  function TrimEnd(s: string): (r: string)
    ensures |r| <= |s|
  {
    if s != [] && IsSpace(s[|s| - 1]) then TrimEnd(s[..|s| - 1]) else s
  }

  /** `s.trim()`: `s` without its leading and trailing white space. */
  function Trim(s: string): string
  {
    TrimEnd(TrimStart(s))
  }

  lemma {:induction false} TrimStartSpec(s: string)
    ensures var r := TrimStart(s);
      r == s[|s| - |r|..] && (r == [] || !IsSpace(r[0])) &&
      forall k | 0 <= k < |s| - |r| :: IsSpace(s[k])
  {
    if s != [] && IsSpace(s[0]) {
      TrimStartSpec(s[1..]);
    }
  }

  lemma {:induction false} TrimEndSpec(s: string)
    ensures var r := TrimEnd(s);
      r == s[..|r|] && (r == [] || !IsSpace(r[|r| - 1])) &&
      forall k | |r| <= k < |s| :: IsSpace(s[k])
  {
    if s != [] && IsSpace(s[|s| - 1]) {
      TrimEndSpec(s[..|s| - 1]);
    }
  }

  /** What `trim` keeps neither starts nor ends with white space. */
  lemma TrimEnds(s: string)
    ensures var r := Trim(s);
      r == [] || (!IsSpace(r[0]) && !IsSpace(r[|r| - 1]))
  {
    var t := TrimStart(s);
    TrimStartSpec(s);
    TrimEndSpec(t);
    var r := TrimEnd(t);
    if r != [] {
      assert r[0] == t[0];
    }
  }

  /** What `trim` keeps is a piece of `s`, and what it drops on either side is white
      space. */
  lemma TrimDropsSpaces(s: string)
    ensures var r := Trim(s);
      var i := |s| - |TrimStart(s)|;
      i + |r| <= |s| && r == s[i..i + |r|] &&
      (forall k | 0 <= k < i :: IsSpace(s[k])) && forall k | i + |r| <= k < |s| :: IsSpace(s[k])
  {
    var t := TrimStart(s);
    TrimStartSpec(s);
    TrimEndSpec(t);
    var i := |s| - |t|;
    assert forall k | i + |TrimEnd(t)| <= k < |s| :: s[k] == t[k - i];
  }

  /** The index of the first white-space character of `s` at or after `i`, or `|s|`. */
  function SpaceFrom(s: string, i: nat): (j: nat)
    requires i <= |s|
    ensures i <= j <= |s|
    decreases |s| - i
  {
    if i == |s| || IsSpace(s[i]) then i else SpaceFrom(s, i + 1)
  }

  lemma {:induction false} SpaceFromSpec(s: string, i: nat)
    requires i <= |s|
    ensures var j := SpaceFrom(s, i);
      (j < |s| ==> IsSpace(s[j])) && forall k | i <= k < j :: !IsSpace(s[k])
    decreases |s| - i
  {
    if !(i == |s| || IsSpace(s[i])) {
      SpaceFromSpec(s, i + 1);
    }
  }

  /** The end of the white-space run of `s` that starts at `i`. */
  function RunEnd(s: string, i: nat): (j: nat)
    requires i <= |s|
    ensures i <= j <= |s|
    decreases |s| - i
  {
    if i == |s| || !IsSpace(s[i]) then i else RunEnd(s, i + 1)
  }

  lemma {:induction false} RunEndSpec(s: string, i: nat)
    requires i <= |s|
    ensures var j := RunEnd(s, i);
      (j < |s| ==> !IsSpace(s[j])) && forall k | i <= k < j :: IsSpace(s[k])
    decreases |s| - i
  {
    if !(i == |s| || !IsSpace(s[i])) {
      RunEndSpec(s, i + 1);
    }
  }

  /** `s.split(/\s+/)`: the pieces between maximal white-space runs; `[""]` for `""`. */
  function SplitSpaces(s: string): (r: seq<string>)
    ensures |r| >= 1
    decreases |s|
  {
    var i := SpaceFrom(s, 0);
    if i == |s| then [s] else [s[..i]] + SplitSpaces(s[RunEnd(s, i)..])
  }

  /** Splitting text without leading or trailing white space gives non-empty tokens free of
      white space, except that the empty text gives the one token "". */
  lemma {:induction false} SplitTrimmed(s: string)
    requires s == [] || (!IsSpace(s[0]) && !IsSpace(s[|s| - 1]))
    ensures s == [] ==> SplitSpaces(s) == [""]
    ensures s != [] ==> forall t | t in SplitSpaces(s) :: t != [] && forall k | 0 <= k < |t| :: !IsSpace(t[k])
    decreases |s|
  {
    var i := SpaceFrom(s, 0);
    SpaceFromSpec(s, 0);
    if s != [] && i < |s| {
      var j := RunEnd(s, i);
      RunEndSpec(s, i);
      assert j < |s|;
      SplitTrimmed(s[j..]);
      assert s[..i] != [];
      assert forall k | 0 <= k < i :: s[..i][k] == s[k];
    }
  }

  // ---------------------------------------------------------------------------
  // parseAtom
  // ---------------------------------------------------------------------------

  /** `map(Number)` over the tokens. */
  function Numbers(tokens: seq<string>, number: string -> Num): seq<Num>
  {
    if tokens == [] then [] else [number(tokens[0])] + Numbers(tokens[1..], number)
  }

  lemma {:induction false} NumbersAt(tokens: seq<string>, number: string -> Num)
    ensures |Numbers(tokens, number)| == |tokens|
    ensures forall k | 0 <= k < |tokens| :: Numbers(tokens, number)[k] == number(tokens[k])
  {
    if tokens != [] {
      NumbersAt(tokens[1..], number);
    }
  }

  /** `parseAtom`: fixed-column slices of one record line. */
  function ParseAtom(line: string, number: string -> Num): Atom
  {
    Atom(Trim(Substr(line, 0, 6)),
         Substring(line, 12, 22),
         number(Trim(Substring(line, 22, 26))),
         Substring(line, 21, 22),
         Numbers(SplitSpaces(Trim(Substr(line, 29, 54))), number))
  }

  /** On a line of at least 26 characters the fields are exactly the PDB columns: record
      name 1–6 (trimmed), columns 13–22 as descriptor, column 22 as chain, residue number
      from columns 23–26 (trimmed); and the descriptor's last character is the chain, since
      both are column 22.  On a shorter line the slices are clamped: a line of at most 21
      characters has an empty chain. */
  lemma ParseAtomColumns(line: string, number: string -> Num)
    ensures |line| >= 26 ==>
      var a := ParseAtom(line, number);
      a.kind == Trim(line[0..6]) && a.descriptor == line[12..22] && a.chain == line[21..22] &&
      a.index == number(Trim(line[22..26]))
    ensures |line| >= 22 ==>
      var a := ParseAtom(line, number);
      |a.descriptor| == 10 && |a.chain| == 1 && a.descriptor[9] == a.chain[0]
    ensures |line| <= 21 ==> ParseAtom(line, number).chain == ""
  {
  }

  /** The coordinates are the tokens of the trimmed text from column 30 on, each through
      `Number`, so x is always present; the tokens are non-empty and free of white space,
      except that an all-blank tail gives the single token "" and so x = `Number("")` with
      no y or z. */
  lemma CoordinateTokens(line: string, number: string -> Num)
    ensures var text := Trim(Substr(line, 29, 54));
      var tokens := SplitSpaces(text);
      var a := ParseAtom(line, number);
      |a.coords| == |tokens| >= 1 &&
      (forall k | 0 <= k < |tokens| :: Coordinate(a, k) == Some(number(tokens[k]))) &&
      (text == [] ==> a.coords == [number("")] && Coordinate(a, 1).None? && Coordinate(a, 2).None?) &&
      (text != [] ==> forall t | t in tokens :: t != [] && forall k | 0 <= k < |t| :: !IsSpace(t[k]))
  {
    var text := Trim(Substr(line, 29, 54));
    TrimEnds(Substr(line, 29, 54));
    SplitTrimmed(text);
    NumbersAt(SplitSpaces(text), number);
  }

  // ---------------------------------------------------------------------------
  // Group descriptors and findAtomGroup
  // ---------------------------------------------------------------------------

  /** One character of a descriptor regular expression: `.` or a literal. */
  datatype PatChar = AnyChar | Lit(c: char)

  /** `new RegExp(s.replace(/-/g, '.'))` for a descriptor string of the table, whose other
      characters (letters and spaces) are literals. */
  function ToPattern(s: string): (p: seq<PatChar>)
    ensures |p| == |s|
    ensures forall k | 0 <= k < |s| :: p[k] == (if s[k] == '-' then AnyChar else Lit(s[k]))
  {
    seq(|s|, k requires 0 <= k < |s| => if s[k] == '-' then AnyChar else Lit(s[k]))
  }

  /** `.` matches any character but a line terminator. */
  predicate CharMatches(p: PatChar, c: char)
  {
    match p
    case AnyChar => !IsLineTerminator(c)
    case Lit(l) => l == c
  }

  predicate MatchesAt(p: seq<PatChar>, s: string, k: nat)
  {
    k + |p| <= |s| && forall j | 0 <= j < |p| :: CharMatches(p[j], s[k + j])
  }

  /** The search `exec` performs from position `k` on. */
  predicate SearchFrom(p: seq<PatChar>, s: string, k: nat)
    decreases |s| - k
  {
    k + |p| <= |s| && (MatchesAt(p, s, k) || SearchFrom(p, s, k + 1))
  }

  /** `re.exec(s)` is non-null: the pattern matches somewhere in `s` (it is not anchored). */
  predicate Exec(p: seq<PatChar>, s: string)
  {
    SearchFrom(p, s, 0)
  }

  lemma {:induction false} SearchFromSpec(p: seq<PatChar>, s: string, k: nat)
    ensures SearchFrom(p, s, k) <==> exists m | k <= m :: MatchesAt(p, s, m)
    decreases |s| - k
  {
    if k + |p| <= |s| {
      SearchFromSpec(p, s, k + 1);
      if MatchesAt(p, s, k) {
      } else {
        forall m | k <= m && MatchesAt(p, s, m) ensures k + 1 <= m {
        }
      }
    } else {
      forall m | k <= m ensures !MatchesAt(p, s, m) {
      }
    }
  }

  /** A ten-character pattern on a ten-character descriptor can only match at position 0,
      so the unanchored search behaves as a whole-descriptor match: position by position,
      '-' accepts any character but a line terminator and every other character itself. */
  lemma ExecOnTenColumns(pattern: string, descriptor: string)
    requires |pattern| == 10 && |descriptor| == 10
    ensures Exec(ToPattern(pattern), descriptor) <==>
      forall j | 0 <= j < 10 ::
        if pattern[j] == '-' then !IsLineTerminator(descriptor[j]) else pattern[j] == descriptor[j]
  {
    var p := ToPattern(pattern);
    SearchFromSpec(p, descriptor, 0);
    if Exec(p, descriptor) {
      var m :| 0 <= m && MatchesAt(p, descriptor, m);
      assert m == 0;
      forall j | 0 <= j < 10
        ensures if pattern[j] == '-' then !IsLineTerminator(descriptor[j]) else pattern[j] == descriptor[j]
      {
        assert CharMatches(p[j], descriptor[m + j]);
      }
    } else {
      assert !MatchesAt(p, descriptor, 0);
    }
  }

  /** One row of the atom-group table. */
  datatype Group = Group(kind: string, descriptor: seq<PatChar>, idx: nat, low: real, high: real,
                         color: (real, real, real), radius: real)

  /** The test of `findAtomGroup`: same kind, descriptor found, low ≤ index ≤ high.  A NaN
      index fails both comparisons. */
  predicate Matches(g: Group, a: Atom)
  {
    g.kind == a.kind && Exec(g.descriptor, a.descriptor) &&
    a.index.Val? && g.low <= a.index.v && g.high >= a.index.v
  }

  /** The first group in table order that matches the atom, if any. */
  function FirstMatch(groups: seq<Group>, a: Atom): (r: Option<Group>)
    ensures r.None? <==> forall i | 0 <= i < |groups| :: !Matches(groups[i], a)
    ensures r.Some? ==>
      exists i | 0 <= i < |groups| ::
        groups[i] == r.value && Matches(groups[i], a) && forall j | 0 <= j < i :: !Matches(groups[j], a)
  {
    if groups == [] then None
    else if Matches(groups[0], a) then Some(groups[0])
    else
      var rest := FirstMatch(groups[1..], a);
      assert forall i | 1 <= i < |groups| :: groups[i] == groups[1..][i - 1];
      if rest.Some? then
        var i :| 0 <= i < |groups| - 1 && groups[1..][i] == rest.value && Matches(groups[1..][i], a) &&
          forall j | 0 <= j < i :: !Matches(groups[1..][j], a);
        assert groups[i + 1] == rest.value && forall j | 0 <= j < i + 1 :: !Matches(groups[j], a);
        rest
      else rest
  }

  /** Table order decides: rows after the first match are never consulted, so changing
      them does not change the result. */
  lemma {:induction false} LaterRowsIrrelevant(groups: seq<Group>, i: nat, other: seq<Group>, a: Atom)
    requires i < |groups| && Matches(groups[i], a)
    ensures FirstMatch(groups[..i + 1] + other, a) == FirstMatch(groups, a)
  {
    var ext := groups[..i + 1] + other;
    assert ext[0] == groups[0];
    if !Matches(groups[0], a) {
      LaterRowsIrrelevant(groups[1..], i - 1, other, a);
      assert ext[1..] == groups[1..][..i] + other;
    }
  }

  /** `findAtomGroup`: the loop with early return. */
  method FindAtomGroup(groups: seq<Group>, a: Atom) returns (r: Option<Group>)
    ensures r == FirstMatch(groups, a)
  {
    var i := 0;
    while i < |groups|
      invariant 0 <= i <= |groups|
      invariant FirstMatch(groups, a) == FirstMatch(groups[i..], a)
    {
      if Matches(groups[i], a) {
        return Some(groups[i]);
      }
      assert groups[i..][1..] == groups[i + 1..];
      i := i + 1;
    }
    return None;
  }

  // ---------------------------------------------------------------------------
  // loadPdb
  // ---------------------------------------------------------------------------

  /** The index of the first line terminator of `s` at or after `i`, or `|s|`. */
  function LineEnd(s: string, i: nat): (j: nat)
    requires i <= |s|
    ensures i <= j <= |s|
    decreases |s| - i
  {
    if i == |s| || IsLineTerminator(s[i]) then i else LineEnd(s, i + 1)
  }

  lemma {:induction false} LineEndSpec(s: string, i: nat)
    requires i <= |s|
    ensures var j := LineEnd(s, i);
      (j < |s| ==> IsLineTerminator(s[j])) && forall k | i <= k < j :: !IsLineTerminator(s[k])
    decreases |s| - i
  {
    if !(i == |s| || IsLineTerminator(s[i])) {
      LineEndSpec(s, i + 1);
    }
  }

  /** The lines of `s` from position `i` on, as the multiline `^` and `$` see them: the
      text between line terminators. */
  function LinesFrom(s: string, i: nat): (r: seq<string>)
    requires i <= |s|
    ensures |r| >= 1
    decreases |s| - i
  {
    var j := LineEnd(s, i);
    if j == |s| then [s[i..]] else [s[i..j]] + LinesFrom(s, j + 1)
  }

  /** No line contains a line terminator: `.` never crosses one. */
  lemma {:induction false} LinesHaveNoTerminators(s: string, i: nat)
    requires i <= |s|
    ensures forall l | l in LinesFrom(s, i) :: forall k | 0 <= k < |l| :: !IsLineTerminator(l[k])
    decreases |s| - i
  {
    var j := LineEnd(s, i);
    LineEndSpec(s, i);
    if j < |s| {
      LinesHaveNoTerminators(s, j + 1);
    }
  }

  function Lines(s: string): seq<string>
  {
    LinesFrom(s, 0)
  }

  /** `prefix` is where `s` begins. */
  predicate StartsWith(s: string, prefix: string)
  {
    prefix == [] || (s != [] && s[0] == prefix[0] && StartsWith(s[1..], prefix[1..]))
  }

  /** A line `/^(ATOM|HETATM).*$/m` matches as a whole. */
  predicate IsRecord(line: string)
  {
    StartsWith(line, "ATOM") || StartsWith(line, "HETATM")
  }

  /** The record lines of `s` from position `i` on, in file order. */
  function RecordsFrom(s: string, i: nat): (r: seq<string>)
    requires i <= |s|
    decreases |s| - i
  {
    var j := LineEnd(s, i);
    var line := s[i..j];
    var rest := if j == |s| then [] else RecordsFrom(s, j + 1);
    (if IsRecord(line) then [line] else []) + rest
  }

  function Records(s: string): seq<string>
  {
    RecordsFrom(s, 0)
  }

  /** Every record is a line of the file that is a record. */
  lemma {:induction false} RecordsAreLines(s: string, i: nat)
    requires i <= |s|
    ensures forall l | l in RecordsFrom(s, i) :: l in LinesFrom(s, i) && IsRecord(l)
    decreases |s| - i
  {
    var j := LineEnd(s, i);
    if j < |s| {
      RecordsAreLines(s, j + 1);
    } else {
      assert s[i..j] == s[i..];
    }
  }

  /** Every line of the file that is a record is kept. */
  lemma {:induction false} RecordLinesAreKept(s: string, i: nat)
    requires i <= |s|
    ensures forall l | l in LinesFrom(s, i) && IsRecord(l) :: l in RecordsFrom(s, i)
    decreases |s| - i
  {
    var j := LineEnd(s, i);
    if j < |s| {
      RecordLinesAreKept(s, j + 1);
    } else {
      assert s[i..j] == s[i..];
    }
  }

  /** Each line parsed, in order. */
  function ParseAll(lines: seq<string>, number: string -> Num): seq<Atom>
  {
    if lines == [] then [] else [ParseAtom(lines[0], number)] + ParseAll(lines[1..], number)
  }

  lemma {:induction false} ParseAllAt(lines: seq<string>, number: string -> Num)
    ensures |ParseAll(lines, number)| == |lines|
    ensures forall k | 0 <= k < |lines| :: ParseAll(lines, number)[k] == ParseAtom(lines[k], number)
  {
    if lines != [] {
      ParseAllAt(lines[1..], number);
    }
  }

  lemma {:induction false} ParseAllPush(lines: seq<string>, line: string, number: string -> Num)
    ensures ParseAll(lines + [line], number) == ParseAll(lines, number) + [ParseAtom(line, number)]
  {
    if lines == [] {
      assert lines + [line] == [line];
    } else {
      assert (lines + [line])[1..] == lines[1..] + [line];
      ParseAllPush(lines[1..], line, number);
      AppendAssoc([ParseAtom(lines[0], number)], ParseAll(lines[1..], number), [ParseAtom(line, number)]);
    }
  }

  /** The records of the lines that start at or after `pos`; none once `pos` is past the
      end of the text. */
  function RecordsAfter(s: string, pos: nat): seq<string>
  {
    if pos <= |s| then RecordsFrom(s, pos) else []
  }

  /** `re.exec(data)` for `/^(ATOM|HETATM).*$/gm`, searching from the line that starts at
      `pos`: the next record line and the start of the line after it, or no match. */
  method NextRecord(data: string, pos: nat) returns (row: Option<(string, nat)>)
    requires pos <= |data| + 1
    ensures row.None? ==> RecordsAfter(data, pos) == []
    ensures row.Some? ==>
      pos < row.value.1 <= |data| + 1 &&
      RecordsAfter(data, pos) == [row.value.0] + RecordsAfter(data, row.value.1)
  {
    var at := pos;
    while at <= |data|
      invariant pos <= at <= |data| + 1
      invariant RecordsAfter(data, pos) == RecordsAfter(data, at)
      decreases |data| + 1 - at
    {
      var end := ScanLine(data, at);
      RecordsStep(data, at, end);
      if IsRecord(data[at..end]) {
        return Some((data[at..end], end + 1));
      }
      at := end + 1;
    }
    return None;
  }

  /** `loadPdb` after the download: while `exec` finds a record, push its parsed atom. */
  method LoadPdb(data: string, number: string -> Num) returns (atoms: seq<Atom>)
    ensures atoms == ParseAll(Records(data), number)
  {
    atoms := [];
    ghost var seen: seq<string> := [];
    var pos := 0;
    var done := false;
    while !done
      invariant pos <= |data| + 1
      invariant atoms == ParseAll(seen, number)
      invariant done ==> seen == Records(data)
      invariant !done ==> seen + RecordsAfter(data, pos) == Records(data)
      decreases |data| + 1 - pos, if done then 0 else 1
    {
      var row := NextRecord(data, pos);
      if row.None? {
        assert seen + [] == seen;
        done := true;
      } else {
        var line := row.value.0;
        AppendAssoc(seen, [line], RecordsAfter(data, row.value.1));
        ParseAllPush(seen, line, number);
        atoms := atoms + [ParseAtom(line, number)];
        seen := seen + [line];
        pos := row.value.1;
      }
    }
  }

  /** The `.*` of the pattern: the end of the line that starts at `pos`. */
  method ScanLine(data: string, pos: nat) returns (end: nat)
    requires pos <= |data|
    ensures pos <= end <= |data| && (end < |data| ==> IsLineTerminator(data[end]))
    ensures forall k | pos <= k < end :: !IsLineTerminator(data[k])
  {
    end := pos;
    while end < |data| && !IsLineTerminator(data[end])
      invariant pos <= end <= |data|
      invariant forall k | pos <= k < end :: !IsLineTerminator(data[k])
    {
      end := end + 1;
    }
  }

  /** One line: the records from `pos` on are this line's, when it is a record, followed
      by those of the lines after its terminator. */
  lemma RecordsStep(data: string, pos: nat, end: nat)
    requires pos <= end <= |data| && (end < |data| ==> IsLineTerminator(data[end]))
    requires forall k | pos <= k < end :: !IsLineTerminator(data[k])
    ensures RecordsAfter(data, pos) ==
      (if IsRecord(data[pos..end]) then [data[pos..end]] else []) + RecordsAfter(data, end + 1)
  {
    LineEndIs(data, pos, end);
  }

  lemma {:induction false} LineEndIs(s: string, i: nat, j: nat)
    requires i <= j <= |s| && (j < |s| ==> IsLineTerminator(s[j]))
    requires forall k | i <= k < j :: !IsLineTerminator(s[k])
    ensures LineEnd(s, i) == j
    decreases j - i
  {
    if i < j {
      LineEndIs(s, i + 1, j);
    }
  }

  lemma AppendAssoc<T>(a: seq<T>, b: seq<T>, c: seq<T>)
    ensures a + (b + c) == (a + b) + c
  {
  }
}
