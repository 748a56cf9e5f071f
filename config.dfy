/** The `.inp` configuration reader (src/config.js).

    A line cursor (`Lines`) feeds `parseInp`, which dispatches on each keyword line and
    reads the keyword's operands from the lines after it: a file name and group lines up
    to `END`, a single text line, or a fixed count of comma-separated numbers that may
    spread over several lines.  The reader fills a `Config` whose defaults are those of the
    source.  `Number` is modelled as ECMAScript's string-to-number rule with the numeric
    literal grammar left as the parameter `literal`; `Math.sin` and `Math.cos`, applied to
    the array of numbers read after a rotation keyword, are the parameters `sin` and `cos`. */
module InpConfig {
  import opened Outcomes
  import opened Matrix
  import Pdb
  import Strings

  // ---------------------------------------------------------------------------
  // The configuration
  // ---------------------------------------------------------------------------

  /** `ShadowConfig`: the four soft-shadow parameters. */
  datatype ShadowConfig = ShadowConfig(pcone: real, coneAngle: real, rcone: real, pshadowmax: real)

  /** `WorldConfig`: background and fog colour, fog transparency, soft shadow (null until a
      `wor` block enables it) and image size. */
  datatype WorldConfig = WorldConfig(
    backgroundColor: seq<real>, fogColor: seq<real>, pfogHigh: real, pfogLow: real,
    shadow: Option<ShadowConfig>, size: seq<real>)

  /** `IllustrateConfig`.  `kernel` starts as the empty string and an `illustrate` block
      stores a number in it; `None` stands for the initial empty string. */
  datatype IllustrateConfig = IllustrateConfig(
    contourOutlines: seq<real>, kernel: Option<real>, zdiffRange: seq<real>,
    subunitOutlines: seq<real>, residueOutlines: seq<real>, residueDiff: real)

  /** Every field of a `Config`.  `scale` is absent (`undefined`) until a `scale` block
      sets it; `shadow` is the top-level field, which nothing assigns. */
  datatype Settings = Settings(
    groups: seq<string>, file: string, output: string, center: string,
    translate: seq<real>, rotation: Mat, scale: Option<real>, shadow: Option<ShadowConfig>,
    world: WorldConfig, illustrate: IllustrateConfig)

  function DefaultWorld(): WorldConfig
  {
    WorldConfig([1.0, 1.0, 1.0], [1.0, 1.0, 1.0], 0.0, 0.0, None, [0.0, 0.0])
  }

  function DefaultIllustrate(): IllustrateConfig
  {
    IllustrateConfig([3.0, 10.0], None, [0.0, 5.0], [3.0, 20.0], [3.0, 20.0], 6000.0)
  }

  /** `new Config()`. */
  function Defaults(): Settings
  {
    Settings([], "", "", "auto", [0.0, 0.0, 0.0], Unit(), None, None, DefaultWorld(), DefaultIllustrate())
  }

  /** The configuration object `parseInp` fills. */
  class Config {
    var groups: seq<string>
    var file: string
    var output: string
    var center: string
    var translate: seq<real>
    var rotation: Mat
    var scale: Option<real>
    var shadow: Option<ShadowConfig>
    var world: WorldConfig
    var illustrate: IllustrateConfig

    function Value(): Settings
      reads this
    {
      Settings(groups, file, output, center, translate, rotation, scale, shadow, world, illustrate)
    }

    constructor ()
      ensures Value() == Defaults()
    {
      groups, file, output, center := [], "", "", "auto";
      translate, rotation, scale, shadow := [0.0, 0.0, 0.0], Unit(), None, None;
      world, illustrate := DefaultWorld(), DefaultIllustrate();
    }
  }

  // ---------------------------------------------------------------------------
  // The line cursor and `readLineOrErr`
  // ---------------------------------------------------------------------------

  /** The `Lines` cursor over the lines of the input.  How the text is cut into lines is
      not part of this model: the cursor is given its lines. */
  class Lines {
    const text: seq<string>
    var pos: nat

    ghost predicate Valid()
      reads this
    {
      pos <= |text|
    }

    constructor (lines: seq<string>)
      ensures Valid() && text == lines && pos == 0
    {
      text, pos := lines, 0;
    }

    /** `next()`: the next line, or nothing once every line has been handed out. */
    method Next() returns (line: Option<string>)
      requires Valid()
      modifies this
      ensures Valid()
      ensures old(pos) < |text| ==> line == Some(text[old(pos)]) && pos == old(pos) + 1
      ensures old(pos) == |text| ==> line.None? && pos == old(pos)
    {
      if pos < |text| {
        line := Some(text[pos]);
        pos := pos + 1;
      } else {
        line := None;
      }
    }
  }

  function EndOfInput(err: string): string
  {
    "Unexpected end of input at: " + err
  }

  /** `readLineOrErr`: the next line, or the "Unexpected end of input" error naming `err`
      when the cursor is exhausted. */
  method ReadLineOrErr(lines: Lines, err: string) returns (r: Result<string>)
    requires lines.Valid()
    modifies lines
    ensures lines.Valid()
    ensures old(lines.pos) < |lines.text| ==> r == Ok(lines.text[old(lines.pos)]) && lines.pos == old(lines.pos) + 1
    ensures old(lines.pos) == |lines.text| ==> r == Err(EndOfInput(err)) && lines.pos == old(lines.pos)
  {
    var line := lines.Next();
    if line.Some? {
      return Ok(line.value);
    }
    return Err(EndOfInput(err));
  }

  // ---------------------------------------------------------------------------
  // `parseRead`
  // ---------------------------------------------------------------------------

  /** The position of the first `END` line at or after `i`, or `|text|` when there is none. */
  function EndFrom(text: seq<string>, i: nat): (e: nat)
    requires i <= |text|
    ensures i <= e <= |text|
    ensures e < |text| ==> text[e] == "END"
    ensures forall k | i <= k < e :: text[k] != "END"
    decreases |text| - i
  {
    if i == |text| || text[i] == "END" then i else EndFrom(text, i + 1)
  }

  /** What `parseRead` reads from position `pos`: the file name, the group lines, and the
      position after the `END` line. */
  function ReadBlock(text: seq<string>, pos: nat): (r: Result<(string, seq<string>, nat)>)
    requires pos <= |text|
  {
    if pos == |text| then Err(EndOfInput("read"))
    else
      var e := EndFrom(text, pos + 1);
      if e == |text| then Err(EndOfInput("read")) else Ok((text[pos], text[pos + 1..e], e + 1))
  }

  /** `parseRead` takes the first line as the file name and every following line as a
      group, up to but excluding the first `END`; it fails exactly when the input runs out
      first. */
  lemma ReadBlockSpec(text: seq<string>, pos: nat)
    requires pos <= |text|
    ensures ReadBlock(text, pos).Ok? <==> pos < |text| && exists e | pos < e < |text| :: text[e] == "END"
    ensures ReadBlock(text, pos).Err? ==> ReadBlock(text, pos).message == EndOfInput("read")
    ensures match ReadBlock(text, pos)
      case Ok((file, groups, next)) =>
        file == text[pos] && next == pos + 2 + |groups| && next <= |text| && text[next - 1] == "END" &&
        groups == text[pos + 1..next - 1] && forall g | g in groups :: g != "END"
      case Err(_) => true
  {
    if pos < |text| {
      var e := EndFrom(text, pos + 1);
      if exists e' | pos < e' < |text| :: text[e'] == "END" {
        var e' :| pos < e' < |text| && text[e'] == "END";
        assert e <= e';
      }
    }
  }

  /** `parseRead`. */
  method ParseRead(lines: Lines) returns (r: Result<(string, seq<string>)>)
    requires lines.Valid()
    modifies lines
    ensures lines.Valid()
    ensures var b := ReadBlock(lines.text, old(lines.pos));
      (r.Err? <==> b.Err?) &&
      (b.Err? ==> r.message == b.message) &&
      (b.Ok? ==> r.value == (b.value.0, b.value.1) && lines.pos == b.value.2)
  {
    ghost var start := lines.pos;
    var file := ReadLineOrErr(lines, "read");
    if file.Err? {
      return Err(file.message);
    }
    var groups: seq<string> := [];
    while true
      invariant lines.Valid() && start < lines.pos
      invariant groups == lines.text[start + 1..lines.pos]
      invariant forall k | start < k < lines.pos :: lines.text[k] != "END"
      decreases |lines.text| - lines.pos
    {
      var line := ReadLineOrErr(lines, "read");
      if line.Err? {
        assert EndFrom(lines.text, start + 1) == |lines.text|;
        return Err(line.message);
      }
      if line.value == "END" {
        assert EndFrom(lines.text, start + 1) == lines.pos - 1;
        break;
      }
      groups := groups + [line.value];
    }
    r := Ok((file.value, groups));
  }

  // ---------------------------------------------------------------------------
  // Numbers
  // ---------------------------------------------------------------------------

  /** `Number(x)` for a string, by ECMAScript's rule: white space around the literal is
      ignored and an empty or all-blank string is 0; anything else is read by the numeric
      literal grammar, here the parameter `literal`, which yields NaN for what it rejects. */
  function ToNumber(x: string, literal: string -> Pdb.Num): Pdb.Num
  {
    var t := Pdb.Trim(x);
    if t == "" then Pdb.Val(0.0) else literal(t)
  }

  /** A token of `parseNumbers`, trimmed and converted. */
  function TokenValue(token: string, literal: string -> Pdb.Num): Pdb.Num
  {
    ToNumber(Pdb.Trim(token), literal)
  }

  /** The `map` of `parseNumbers` over the comma-separated tokens: each token trimmed and
      converted, the first one that is not a number throwing "Not a number:" with it. */
  function NumberTokens(tokens: seq<string>, literal: string -> Pdb.Num): (r: Result<seq<real>>)
  {
    if tokens == [] then Ok([])
    else
      match TokenValue(tokens[0], literal)
      case NaN => Err("Not a number:" + Pdb.Trim(tokens[0]))
      case Val(v) =>
        match NumberTokens(tokens[1..], literal)
        case Err(e) => Err(e)
        case Ok(vs) => Ok([v] + vs)
  }

  /** The tokens are numbers exactly when every one converts; then there is one number
      per token, in order. */
  lemma {:induction false} NumberTokensSpec(tokens: seq<string>, literal: string -> Pdb.Num)
    ensures var r := NumberTokens(tokens, literal);
      (r.Ok? <==> forall i | 0 <= i < |tokens| :: TokenValue(tokens[i], literal).Val?) &&
      (r.Ok? ==> (|r.value| == |tokens| &&
        forall i | 0 <= i < |tokens| :: TokenValue(tokens[i], literal) == Pdb.Val(r.value[i])))
  {
    if tokens != [] {
      NumberTokensSpec(tokens[1..], literal);
      assert forall i | 1 <= i < |tokens| :: tokens[i] == tokens[1..][i - 1];
    }
  }

  /** A failure names the first token that does not convert. */
  lemma {:induction false} NumberTokensError(tokens: seq<string>, literal: string -> Pdb.Num)
    ensures var r := NumberTokens(tokens, literal);
      r.Err? ==> exists i | 0 <= i < |tokens| ::
        TokenValue(tokens[i], literal).NaN? && r.message == "Not a number:" + Pdb.Trim(tokens[i]) &&
        forall k | 0 <= k < i :: TokenValue(tokens[k], literal).Val?
  {
    if tokens != [] && TokenValue(tokens[0], literal).Val? {
      NumberTokensError(tokens[1..], literal);
      var rest := NumberTokens(tokens[1..], literal);
      if rest.Err? {
        var i :| 0 <= i < |tokens[1..]| && TokenValue(tokens[1..][i], literal).NaN? &&
          rest.message == "Not a number:" + Pdb.Trim(tokens[1..][i]) &&
          forall k | 0 <= k < i :: TokenValue(tokens[1..][k], literal).Val?;
        assert forall k | 1 <= k < i + 1 :: tokens[k] == tokens[1..][k - 1];
        assert TokenValue(tokens[i + 1], literal).NaN?;
      }
    }
  }

  /** `parseNumbers`: split on commas (with the white space around them, which the trim of
      each token removes anyway) and convert every token. */
  function ParseNumbers(str: string, literal: string -> Pdb.Num): Result<seq<real>>
  {
    NumberTokens(Strings.Split(str, ','), literal)
  }

  /** `parseNumbers` yields one number per comma-separated token, and an empty token is 0. */
  lemma ParseNumbersCount(str: string, literal: string -> Pdb.Num)
    ensures ParseNumbers(str, literal).Ok? ==> |ParseNumbers(str, literal).value| == Strings.Count(str, ',') + 1
    ensures ParseNumbers("", literal) == Ok([0.0])
  {
    Strings.SplitPieces(str, ',');
    NumberTokensSpec(Strings.Split(str, ','), literal);
    assert Strings.Split("", ',') == [""];
    assert Pdb.Trim("") == "";
    assert TokenValue("", literal) == Pdb.Val(0.0);
    assert NumberTokens([], literal) == Ok([]);
    assert [""][1..] == [];
    assert [0.0] + [] == [0.0];
  }

  /** `line.replace(/[#!].*$/)`: the first `#` or `!` from which no line terminator follows
      starts the match. */
  function CommentStart(s: string, i: nat): (k: Option<nat>)
    requires i <= |s|
    ensures k.Some? ==> i <= k.value < |s| && (s[k.value] == '#' || s[k.value] == '!')
    decreases |s| - i
  {
    if i == |s| then None
    else if (s[i] == '#' || s[i] == '!') && forall j | i < j < |s| :: !Pdb.IsLineTerminator(s[j]) then Some(i)
    else CommentStart(s, i + 1)
  }

  /** `line.replace(/[#!].*$/)` with no replacement argument: the replacement is
      `undefined`, so a comment is replaced by the text "undefined". */
  function StripComment(s: string): string
  {
    match CommentStart(s, 0)
    case None => s
    case Some(k) => s[..k] + "undefined"
  }

  predicate EndsWithUndefined(t: string)
  {
    |t| >= 9 && t[|t| - 9..] == "undefined"
  }

  /** Trimming keeps a suffix that holds no white space. */
  lemma TrimKeepsUndefined(s: string)
    requires EndsWithUndefined(s)
    ensures EndsWithUndefined(Pdb.Trim(s))
  {
    Pdb.TrimDropsSpaces(s);
    var r := Pdb.Trim(s);
    var i := |s| - |Pdb.TrimStart(s)|;
    assert s[|s| - 1] == 'd';
    assert !Pdb.IsSpace(s[|s| - 1]);
    assert i + |r| == |s|;
    forall k | |s| - 9 <= k < |s| ensures !Pdb.IsSpace(s[k]) {
      assert s[k] == "undefined"[k - (|s| - 9)];
    }
    assert !Pdb.IsSpace(s[|s| - 9]);
    assert i <= |s| - 9;
    assert r[|r| - 9..] == s[|s| - 9..];
  }

  /** A line with a comment can never be read as numbers: its last token ends in
      "undefined", which no numeric literal does. */
  lemma CommentLineRejected(line: string, literal: string -> Pdb.Num)
    requires CommentStart(line, 0).Some?
    requires forall t | EndsWithUndefined(t) :: literal(t).NaN?
    ensures ParseNumbers(StripComment(line), literal).Err?
  {
    var k := CommentStart(line, 0).value;
    var u := "undefined";
    assert ',' !in u;
    Strings.SplitSuffix(line[..k], u, ',');
    var r := Strings.Split(line[..k], ',');
    var tokens := Strings.Split(StripComment(line), ',');
    var last := tokens[|tokens| - 1];
    assert last == r[|r| - 1] + u;
    assert EndsWithUndefined(last) by {
      assert last[|last| - 9..] == u;
    }
    TrimKeepsUndefined(last);
    TrimIdempotent(last);
    var t := Pdb.Trim(last);
    assert ToNumber(t, literal) == literal(t);
    assert TokenValue(tokens[|tokens| - 1], literal).NaN?;
    NumberTokensSpec(tokens, literal);
  }

  /** Trimming twice is trimming once. */
  lemma TrimIdempotent(t: string)
    ensures Pdb.Trim(Pdb.Trim(t)) == Pdb.Trim(t)
  {
    var r := Pdb.Trim(t);
    Pdb.TrimEnds(t);
    if r != [] {
      assert Pdb.TrimStart(r) == r;
      assert Pdb.TrimEnd(r) == r;
    }
  }

  /** A line of `readNumbers` turned into numbers: its comment replaced, then parsed. */
  function LineParser(literal: string -> Pdb.Num): string -> Result<seq<real>>
  {
    line => ParseNumbers(StripComment(line), literal)
  }

  /** What `readNumbers(lines, count, err)` reads from position `pos`: whole lines, each
      turned into numbers by `parse` (`LineParser` in `readNumbers`), until at least `count` numbers are gathered; all of
      them, and the position after the last line read. */
  function NumbersFrom(text: seq<string>, pos: nat, count: int, err: string, parse: string -> Result<seq<real>>)
    : (r: Result<(seq<real>, nat)>)
    requires pos <= |text|
    ensures r.Ok? ==> pos <= r.value.1 <= |text|
    decreases |text| - pos
  {
    if count <= 0 then Ok(([], pos))
    else if pos == |text| then Err(EndOfInput(err))
    else
      match parse(text[pos])
      case Err(e) => Err(e)
      case Ok(ns) =>
        match NumbersFrom(text, pos + 1, count - |ns|, err, parse)
        case Err(e) => Err(e)
        case Ok((rest, next)) => Ok((ns + rest, next))
  }

  /** `readNumbers` gathers at least `count` numbers, from whole lines, and stops at the
      first line that completes the count: without that line's numbers it would have
      fewer than `count`.  A non-positive count reads nothing. */
  lemma {:induction false} NumbersFromSpec(text: seq<string>, pos: nat, count: int, err: string, parse: string -> Result<seq<real>>)
    requires pos <= |text|
    ensures var r := NumbersFrom(text, pos, count, err, parse);
      (r.Ok? && count <= 0 ==> r.value == ([], pos)) &&
      (r.Ok? && count > 0 ==> (|r.value.0| >= count && pos < r.value.1 &&
        var last := parse(text[r.value.1 - 1]);
        last.Ok? && |r.value.0| - |last.value| < count))
    decreases |text| - pos
  {
    if count > 0 && pos < |text| {
      var line := parse(text[pos]);
      if line.Ok? {
        NumbersFromSpec(text, pos + 1, count - |line.value|, err, parse);
      }
    }
  }

  /** `ns` in front of the numbers of a successful read. */
  function Prefixed(ns: seq<real>, r: Result<(seq<real>, nat)>): Result<(seq<real>, nat)>
  {
    match r
    case Err(e) => Err(e)
    case Ok((rest, next)) => Ok((ns + rest, next))
  }

  /** `parse` is the line parser of `readNumbers`.  The methods below carry `parse` as a
      ghost parameter so that their contracts can speak of `NumbersFrom` without unfolding
      the parser at every use. */
  ghost predicate Parses(parse: string -> Result<seq<real>>, literal: string -> Pdb.Num)
  {
    forall line {:trigger ParseNumbers(StripComment(line), literal)} ::
      parse(line) == ParseNumbers(StripComment(line), literal)
  }

  /** One line of `readNumbers` read, its comment replaced and its numbers parsed. */
  method ReadLineNumbers(lines: Lines, err: string, literal: string -> Pdb.Num) returns (r: Result<seq<real>>)
    requires lines.Valid()
    modifies lines
    ensures lines.Valid() && old(lines.pos) <= lines.pos
    ensures old(lines.pos) == |lines.text| ==> r == Err(EndOfInput(err))
    ensures old(lines.pos) < |lines.text| ==>
      r == ParseNumbers(StripComment(lines.text[old(lines.pos)]), literal) && lines.pos == old(lines.pos) + 1
  {
    var line := ReadLineOrErr(lines, err);
    if line.Err? {
      return Err(line.message);
    }
    line := Ok(StripComment(line.value));
    r := ParseNumbers(line.value, literal);
  }

  /** Reading numbers is reading one line's numbers, pushing them, and reading the rest. */
  lemma NumbersFromStep(text: seq<string>, pos: nat, count: int, err: string, parse: string -> Result<seq<real>>,
                        before: seq<real>, ns: seq<real>, pushed: seq<real>, left: int)
    requires pos < |text| && count > 0
    requires parse(text[pos]) == Ok(ns)
    requires pushed == before + ns && left == count - |ns|
    ensures Prefixed(before, NumbersFrom(text, pos, count, err, parse)) ==
      Prefixed(pushed, NumbersFrom(text, pos + 1, left, err, parse))
  {
    var tail := NumbersFrom(text, pos + 1, left, err, parse);
    assert NumbersFrom(text, pos, count, err, parse) == Prefixed(ns, tail);
    PrefixedTwice(before, ns, tail);
  }

  lemma PrefixedTwice(a: seq<real>, b: seq<real>, r: Result<(seq<real>, nat)>)
    ensures Prefixed(a, Prefixed(b, r)) == Prefixed(a + b, r)
  {
    if r.Ok? {
      assert a + (b + r.value.0) == (a + b) + r.value.0;
    }
  }

  /** The `for` loop of `readNumbers` pushing a line's numbers onto the result. */
  method AppendAll(result: seq<real>, numbers: seq<real>) returns (out: seq<real>)
    ensures out == result + numbers
  {
    out := result;
    var i := 0;
    while i < |numbers|
      invariant 0 <= i <= |numbers|
      invariant out == result + numbers[..i]
    {
      out := out + [numbers[i]];
      i := i + 1;
    }
    assert numbers[..i] == numbers;
  }

  /** One iteration of `readNumbers`: read a line, parse its numbers, push them onto
      `result` and take their count from `remaining`. */
  method GatherLine(lines: Lines, err: string, literal: string -> Pdb.Num, ghost parse: string -> Result<seq<real>>, result: seq<real>, remaining: int)
    returns (r: Result<(seq<real>, int)>)
    requires lines.Valid() && remaining > 0 && Parses(parse, literal)
    modifies lines
    ensures lines.Valid() && old(lines.pos) <= lines.pos
    ensures r.Err? ==> NumbersFrom(lines.text, old(lines.pos), remaining, err, parse) == Err(r.message)
    ensures r.Ok? ==> old(lines.pos) < lines.pos
    ensures r.Ok? ==>
      Prefixed(result, NumbersFrom(lines.text, old(lines.pos), remaining, err, parse)) ==
      Prefixed(r.value.0, NumbersFrom(lines.text, lines.pos, r.value.1, err, parse))
  {
    ghost var here := lines.pos;
    var numbers := ReadLineNumbers(lines, err, literal);
    if numbers.Err? {
      return Err(numbers.message);
    }
    var pushed := AppendAll(result, numbers.value);
    var left := remaining - |numbers.value|;
    NumbersFromStep(lines.text, here, remaining, err, parse, result, numbers.value, pushed, left);
    r := Ok((pushed, left));
  }

  /** `readNumbers`. */
  method ReadNumbers(lines: Lines, count: int, err: string, literal: string -> Pdb.Num, ghost parse: string -> Result<seq<real>>) returns (r: Result<seq<real>>)
    requires lines.Valid() && Parses(parse, literal)
    modifies lines
    ensures lines.Valid()
    ensures var n := NumbersFrom(lines.text, old(lines.pos), count, err, parse);
      (r.Err? <==> n.Err?) &&
      (n.Err? ==> r.message == n.message) &&
      (n.Ok? ==> r.value == n.value.0 && lines.pos == n.value.1)
  {
    ghost var start := lines.pos;
    var result: seq<real> := [];
    var remaining := count;
    while remaining > 0
      invariant lines.Valid() && start <= lines.pos
      invariant Prefixed([], NumbersFrom(lines.text, start, count, err, parse)) ==
        Prefixed(result, NumbersFrom(lines.text, lines.pos, remaining, err, parse))
      decreases |lines.text| - lines.pos
    {
      var step := GatherLine(lines, err, literal, parse, result, remaining);
      if step.Err? {
        return Err(step.message);
      }
      result, remaining := step.value.0, step.value.1;
    }
    assert result + [] == result;
    r := Ok(result);
  }

  // ---------------------------------------------------------------------------
  // Keywords and `parseInp`
  // ---------------------------------------------------------------------------

  datatype Axis = X | Y | Z

  /** The keywords `parseInp` accepts. */
  datatype Keyword = Read | Center | Trans | ScaleBy | Rot(axis: Axis) | Wor | Illustrate | Calculate

  /** The line that names each keyword. */
  function Name(k: Keyword): string
  {
    match k
    case Read => "read"
    case Center => "center"
    case Trans => "trans"
    case ScaleBy => "scale"
    case Rot(X) => "xrot"
    case Rot(Y) => "yrot"
    case Rot(Z) => "zrot"
    case Wor => "wor"
    case Illustrate => "illustrate"
    case Calculate => "calculate"
  }

  /** The `switch (line)` of `parseInp`: a line is a keyword only when it is exactly the
      keyword's name. */
  function KeywordOf(line: string): Option<Keyword>
  {
    if line == "read" then Some(Read)
    else if line == "center" then Some(Center)
    else if line == "trans" then Some(Trans)
    else if line == "scale" then Some(ScaleBy)
    else if line == "xrot" then Some(Rot(X))
    else if line == "yrot" then Some(Rot(Y))
    else if line == "zrot" then Some(Rot(Z))
    else if line == "wor" then Some(Wor)
    else if line == "illustrate" then Some(Illustrate)
    else if line == "calculate" then Some(Calculate)
    else None
  }

  /** A line selects a keyword exactly when it is that keyword's name. */
  lemma KeywordNames(line: string, k: Keyword)
    ensures KeywordOf(line) == Some(k) <==> line == Name(k)
  {
    if line == Name(k) {
      match k
      case Read =>
      case Center =>
      case Trans =>
      case ScaleBy =>
      case Rot(a) =>
      case Wor =>
      case Illustrate =>
      case Calculate =>
    }
  }

  /** `Matrix4.rotX`, `rotY` or `rotZ` (`rotMap`), given the sine and cosine of the angle. */
  function AxisRotation(axis: Axis, sin: real, cos: real): Mat
  {
    match axis
    case X => RotX(sin, cos)
    case Y => RotY(sin, cos)
    case Z => RotZ(sin, cos)
  }

  /** The `wor` block: fifteen or more numbers, of which the ninth switches soft shadows on
      when it is truthy (not 0); a zero leaves whatever shadow was there. */
  function WorldOf(world: WorldConfig, ns: seq<real>): (w: WorldConfig)
    requires |ns| >= 15
    ensures w.backgroundColor == ns[0..3] && w.fogColor == ns[3..6]
    ensures w.pfogHigh == ns[6] && w.pfogLow == ns[7] && w.size == ns[13..15]
    ensures ns[8] != 0.0 ==> w.shadow == Some(ShadowConfig(ns[9], ns[10], ns[11], ns[12]))
    ensures ns[8] == 0.0 ==> w.shadow == world.shadow
  {
    var shadow := if ns[8] != 0.0 then Some(ShadowConfig(ns[9], ns[10], ns[11], ns[12])) else world.shadow;
    WorldConfig(ns[0..3], ns[3..6], ns[6], ns[7], shadow, ns[13..15])
  }

  /** The `illustrate` block: ten or more numbers. */
  function IllustrateOf(ns: seq<real>): (c: IllustrateConfig)
    requires |ns| >= 10
    ensures c.contourOutlines == ns[0..2] && c.kernel == Some(ns[2]) && c.zdiffRange == ns[3..5]
    ensures c.subunitOutlines == ns[5..7] && c.residueOutlines == ns[7..9] && c.residueDiff == ns[9]
  {
    IllustrateConfig(ns[0..2], Some(ns[2]), ns[3..5], ns[5..7], ns[7..9], ns[9])
  }

  /** How many numbers a numeric keyword reads, and the name its end-of-input error gives. */
  function OperandCount(k: Keyword): int
  {
    match k
    case Trans => 3
    case Wor => 15
    case Illustrate => 10
    case _ => 1
  }

  function Tag(k: Keyword): string
  {
    match k
    case Wor => "wor"
    case Illustrate => "wor"
    case _ => "trans"
  }

  predicate Numeric(k: Keyword)
  {
    k.Trans? || k.ScaleBy? || k.Rot? || k.Wor? || k.Illustrate?
  }

  /** The settings after a numeric keyword's numbers `ns` are read. */
  function WithNumbers(s: Settings, k: Keyword, ns: seq<real>, sin: seq<real> -> real, cos: seq<real> -> real): Settings
    requires Numeric(k) && |ns| >= OperandCount(k)
  {
    match k
    case Trans => s.(translate := ns)
    case ScaleBy => s.(scale := Some(ns[0]))
    case Rot(axis) => s.(rotation := Product(s.rotation, AxisRotation(axis, sin(ns), cos(ns))))
    case Wor => s.(world := WorldOf(s.world, ns))
    case Illustrate => s.(illustrate := IllustrateOf(ns))
  }

  /** One keyword line `line` of `parseInp`, its operands read from position `pos`: the new
      settings and the position after the operands, or the error thrown. */
  function KeywordBlock(s: Settings, line: string, text: seq<string>, pos: nat, parse: string -> Result<seq<real>>,
                        sin: seq<real> -> real, cos: seq<real> -> real): (r: Result<(Settings, nat)>)
    requires pos <= |text|
    ensures r.Ok? ==> pos <= r.value.1 <= |text|
  {
    match KeywordOf(line)
    case None => Err("Unknown keyword: " + line)
    case Some(Read) =>
      (match ReadBlock(text, pos)
       case Err(e) => Err(e)
       case Ok((file, groups, next)) => ReadBlockSpec(text, pos); Ok((s.(file := file, groups := groups), next)))
    case Some(Center) =>
      if pos == |text| then Err(EndOfInput("center")) else Ok((s.(center := text[pos]), pos + 1))
    case Some(Calculate) =>
      if pos == |text| then Err(EndOfInput("calculate")) else Ok((s.(output := text[pos]), pos + 1))
    case Some(k) =>
      match NumbersFrom(text, pos, OperandCount(k), Tag(k), parse)
      case Err(e) => Err(e)
      case Ok((ns, next)) =>
        NumbersFromSpec(text, pos, OperandCount(k), Tag(k), parse);
        Ok((WithNumbers(s, k, ns, sin, cos), next))
  }

  /** `parseInp` from position `pos` on, with the settings `s` so far. */
  function RunFrom(text: seq<string>, pos: nat, s: Settings, parse: string -> Result<seq<real>>,
                   sin: seq<real> -> real, cos: seq<real> -> real): Result<Settings>
    requires pos <= |text|
    decreases |text| - pos
  {
    if pos == |text| then Ok(s)
    else
      match KeywordBlock(s, text[pos], text, pos + 1, parse, sin, cos)
      case Err(e) => Err(e)
      case Ok((s', next)) => RunFrom(text, next, s', parse, sin, cos)
  }

  /** The name an exhausted input gives in the error of each keyword: its own name,
      except that `scale` and the rotations say "trans" and `illustrate` says "wor". */
  function EndTag(k: Keyword): string
  {
    match k
    case Read => "read"
    case Center => "center"
    case Calculate => "calculate"
    case _ => Tag(k)
  }

  /** `s2` differs from `s` at most in the fields keyword `k` assigns. */
  predicate OnlyChanges(k: Keyword, s: Settings, s2: Settings)
  {
    match k
    case Read => s2.(file := s.file, groups := s.groups) == s
    case Center => s2.(center := s.center) == s
    case Trans => s2.(translate := s.translate) == s
    case ScaleBy => s2.(scale := s.scale) == s
    case Rot(_) => s2.(rotation := s.rotation) == s
    case Wor => s2.(world := s.world) == s
    case Illustrate => s2.(illustrate := s.illustrate) == s
    case Calculate => s2.(output := s.output) == s
  }

  /** A keyword block assigns only its own fields; an unknown keyword throws "Unknown
      keyword"; a keyword at the end of the input throws the end-of-input error with its
      tag; the numeric keywords store at least as many numbers as they ask for. */
  lemma KeywordBlockSpec(s: Settings, line: string, text: seq<string>, pos: nat, parse: string -> Result<seq<real>>,
                         sin: seq<real> -> real, cos: seq<real> -> real)
    requires pos <= |text|
    ensures var b := KeywordBlock(s, line, text, pos, parse, sin, cos);
      (KeywordOf(line).None? ==> b == Err("Unknown keyword: " + line)) &&
      (KeywordOf(line).Some? && pos == |text| ==> b == Err(EndOfInput(EndTag(KeywordOf(line).value)))) &&
      (b.Ok? ==> KeywordOf(line).Some? && OnlyChanges(KeywordOf(line).value, s, b.value.0)) &&
      (b.Ok? && KeywordOf(line) == Some(Trans) ==> |b.value.0.translate| >= 3) &&
      (b.Ok? && KeywordOf(line) == Some(ScaleBy) ==> b.value.0.scale.Some?) &&
      (b.Ok? && KeywordOf(line) == Some(Illustrate) ==> b.value.0.illustrate.kernel.Some?)
  {
    match KeywordOf(line)
    case None =>
    case Some(k) =>
      if Numeric(k) {
        NumbersFromSpec(text, pos, OperandCount(k), Tag(k), parse);
      }
  }

  /** Nothing in an input assigns the top-level `shadow` field: only a `wor` block sets a
      shadow, and that is the world's. */
  lemma {:induction false} RunKeepsShadow(text: seq<string>, pos: nat, s: Settings, parse: string -> Result<seq<real>>,
                                          sin: seq<real> -> real, cos: seq<real> -> real)
    requires pos <= |text|
    ensures var run := RunFrom(text, pos, s, parse, sin, cos);
      run.Ok? ==> run.value.shadow == s.shadow
    decreases |text| - pos
  {
    if pos < |text| {
      var b := KeywordBlock(s, text[pos], text, pos + 1, parse, sin, cos);
      KeywordBlockSpec(s, text[pos], text, pos + 1, parse, sin, cos);
      if b.Ok? {
        RunKeepsShadow(text, b.value.1, b.value.0, parse, sin, cos);
      }
    }
  }

  /** Rotation blocks accumulate on the right, in file order: two of them in a row leave
      the rotation multiplied by the product of their matrices, first one first. */
  lemma RotationsCompose(s: Settings, a1: Axis, ns1: seq<real>, a2: Axis, ns2: seq<real>,
                         sin: seq<real> -> real, cos: seq<real> -> real)
    requires |ns1| >= 1 && |ns2| >= 1
    ensures var r1, r2 := AxisRotation(a1, sin(ns1), cos(ns1)), AxisRotation(a2, sin(ns2), cos(ns2));
      WithNumbers(WithNumbers(s, Rot(a1), ns1, sin, cos), Rot(a2), ns2, sin, cos).rotation ==
      Product(s.rotation, Product(r1, r2))
  {
    MulAssoc(s.rotation, AxisRotation(a1, sin(ns1), cos(ns1)), AxisRotation(a2, sin(ns2), cos(ns2)));
  }

  /** The numbers of a numeric keyword, read and stored: `readNumbers` with the keyword's
      count and tag, then the assignment of its `case`. */
  method ApplyNumbers(config: Config, lines: Lines, k: Keyword, literal: string -> Pdb.Num, ghost parse: string -> Result<seq<real>>,
                      sin: seq<real> -> real, cos: seq<real> -> real) returns (err: Option<string>)
    requires lines.Valid() && Numeric(k) && Parses(parse, literal)
    modifies config, lines
    ensures lines.Valid()
    ensures var n := NumbersFrom(lines.text, old(lines.pos), OperandCount(k), Tag(k), parse);
      (err.Some? <==> n.Err?) &&
      (n.Err? ==> err.value == n.message && config.Value() == old(config.Value())) &&
      (n.Ok? ==> (|n.value.0| >= OperandCount(k) && lines.pos == n.value.1 &&
        config.Value() == WithNumbers(old(config.Value()), k, n.value.0, sin, cos)))
  {
    ghost var start := lines.pos;
    var numbers := ReadNumbers(lines, OperandCount(k), Tag(k), literal, parse);
    if numbers.Err? {
      return Some(numbers.message);
    }
    NumbersFromSpec(lines.text, start, OperandCount(k), Tag(k), parse);
    var ns := numbers.value;
    ghost var before := config.Value();
    match k {
      case Trans =>
        config.translate := ns;
        assert config.Value() == before.(translate := ns);
      case ScaleBy =>
        config.scale := Some(ns[0]);
        assert config.Value() == before.(scale := Some(ns[0]));
      case Rot(axis) =>
        config.rotation := Product(config.rotation, AxisRotation(axis, sin(ns), cos(ns)));
        assert config.Value() == before.(rotation := Product(before.rotation, AxisRotation(axis, sin(ns), cos(ns))));
      case Wor =>
        config.world := WorldOf(config.world, ns);
        assert config.Value() == before.(world := WorldOf(before.world, ns));
      case Illustrate =>
        config.illustrate := IllustrateOf(ns);
        assert config.Value() == before.(illustrate := IllustrateOf(ns));
    }
    assert config.Value() == WithNumbers(before, k, ns, sin, cos);
    return None;
  }

  /** One pass of the `switch` in `parseInp`: the keyword `line`, its operands read from
      `lines` and stored in `config`; `Some` error when the source throws. */
  method ApplyKeyword(config: Config, lines: Lines, line: string, literal: string -> Pdb.Num, ghost parse: string -> Result<seq<real>>,
                      sin: seq<real> -> real, cos: seq<real> -> real) returns (err: Option<string>)
    requires lines.Valid() && Parses(parse, literal)
    modifies config, lines
    ensures lines.Valid()
    ensures var b := KeywordBlock(old(config.Value()), line, lines.text, old(lines.pos), parse, sin, cos);
      (err.Some? <==> b.Err?) &&
      (b.Err? ==> err.value == b.message) &&
      (b.Ok? ==> config.Value() == b.value.0 && lines.pos == b.value.1)
  {
    match KeywordOf(line)
    case None =>
      return Some("Unknown keyword: " + line);
    case Some(Read) =>
      var block := ParseRead(lines);
      if block.Err? {
        return Some(block.message);
      }
      config.file, config.groups := block.value.0, block.value.1;
      return None;
    case Some(Center) =>
      var center := ReadLineOrErr(lines, "center");
      if center.Err? {
        return Some(center.message);
      }
      config.center := center.value;
      return None;
    case Some(Calculate) =>
      var output := ReadLineOrErr(lines, "calculate");
      if output.Err? {
        return Some(output.message);
      }
      config.output := output.value;
      return None;
    case Some(k) =>
      err := ApplyNumbers(config, lines, k, literal, parse, sin, cos);
  }

  /** The loop of `parseInp`: every line is a keyword followed by its operands; the first
      unknown keyword or missing operand ends the parse with its error. */
  method ParseWith(text: seq<string>, literal: string -> Pdb.Num, ghost parse: string -> Result<seq<real>>,
                   sin: seq<real> -> real, cos: seq<real> -> real) returns (r: Result<Config>)
    requires Parses(parse, literal)
    ensures var run := RunFrom(text, 0, Defaults(), parse, sin, cos);
      (r.Err? <==> run.Err?) &&
      (run.Err? ==> r.message == run.message) &&
      (run.Ok? ==> r.value.Value() == run.value)
  {
    var config := new Config();
    var lines := new Lines(text);
    while true
      invariant lines.Valid() && lines.text == text
      invariant RunFrom(text, lines.pos, config.Value(), parse, sin, cos) == RunFrom(text, 0, Defaults(), parse, sin, cos)
      decreases |text| - lines.pos
    {
      var line := lines.Next();
      if line.None? {
        break;
      }
      var err := ApplyKeyword(config, lines, line.value, literal, parse, sin, cos);
      if err.Some? {
        return Err(err.value);
      }
    }
    r := Ok(config);
  }

  /** `parseInp`: the configuration `RunFrom` computes from the defaults, or its error. */
  method ParseInp(text: seq<string>, literal: string -> Pdb.Num, sin: seq<real> -> real, cos: seq<real> -> real)
    returns (r: Result<Config>)
    ensures var run := RunFrom(text, 0, Defaults(), LineParser(literal), sin, cos);
      (r.Err? <==> run.Err?) &&
      (run.Err? ==> r.message == run.message) &&
      (run.Ok? ==> r.value.Value() == run.value)
  {
    r := ParseWith(text, literal, LineParser(literal), sin, cos);
  }
}
