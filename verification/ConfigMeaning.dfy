/**
 What each kind of line and of value means to the loader, said on the characters themselves:
 together with the shapes, which leave out no line, these laws determine every load.
 */
module ConfigMeaning {
  import opened Common
  import opened ConfigText
  import opened ConfigLoader
  import opened ConfigRoundTrip

  /** The six white-space characters of the "C" locale. */
  lemma SpacesAreSix(c: char)
    ensures IsSpace(c) <==> c as int in {9, 10, 11, 12, 13, 32}
  {
  }

  lemma BlanksJoin(a: string, b: string)
    requires Blank(a) && Blank(b)
    ensures Blank(a + b)
  {
    assert forall c | c in a + b :: c in a || c in b;
  }

  // The shapes a line can have.

  datatype Shape =
    | BlankLine
    | Comment
    | NoSeparator
    | Assignment(key: string, value: string)

  /** `line` is white space, or a text of this shape between white space. */
  ghost predicate HasShape(line: string, shape: Shape) {
    match shape
    case BlankLine => Blank(line)
    case Comment => exists b, text :: Blank(b) && line == b + ['#'] + text
    case NoSeparator =>
      exists b, text, e ::
        Blank(b) && Blank(e) && Tight(text) && text != [] && text[0] != '#' && '=' !in text && line == b + text + e
    case Assignment(key, value) =>
      exists b0, b1, b2, b3 ::
        && Blank(b0) && Blank(b1) && Blank(b2) && Blank(b3)
        && IsKey(key) && Tight(value) && line == b0 + key + b1 + ['='] + b2 + value + b3
  }

  predicate IsKey(key: string) {
    Tight(key) && '=' !in key && (key != [] ==> key[0] != '#')
  }

  /** White space and comments contribute nothing. */
  lemma BlankLinesAreIgnored(line: string, rest: seq<string>, n: nat, config: Config)
    requires Blank(line)
    ensures LoadLines([line] + rest, n, config) == LoadLines(rest, n + 1, config)
  {
    TrimmedIsUnique(line, [], []);
    assert line + [] + [] == line;
    LoadOneLine(line, rest, n, config);
  }

  /** A text that starts with a character that is not white space still does after trimming. */
  lemma TrimmedStarts(b: string, c: char, text: string)
    requires Blank(b) && !IsSpace(c)
    ensures Trimmed(b + [c] + text) != [] && Trimmed(b + [c] + text)[0] == c
  {
    var s := [c] + text;
    assert b + [c] + text == b + s;
    StripLeftOf(b, s);
    var right := StripRightSplits(s);
    assert StripRight(s) == [] ==> s == right && c in right;
    assert StripRight(s) != [] ==> StripRight(s)[0] == s[0];
  }

  lemma CommentsAreIgnored(b: string, text: string, rest: seq<string>, n: nat, config: Config)
    requires Blank(b)
    ensures LoadLines([b + ['#'] + text] + rest, n, config) == LoadLines(rest, n + 1, config)
  {
    TrimmedStarts(b, '#', text);
    LoadOneLine(b + ['#'] + text, rest, n, config);
  }

  /** Any other line without '=' is malformed, and nothing after it is looked at. */
  lemma LinesNeedASeparator(b: string, text: string, e: string, rest: seq<string>, n: nat, config: Config)
    requires Blank(b) && Blank(e) && Tight(text) && text != [] && text[0] != '#' && '=' !in text
    ensures LoadLines([b + text + e] + rest, n, config) == Err(BadLine(Malformed, n + 1))
  {
    TrimmedIsUnique(b, text, e);
    LoadOneLine(b + text + e, rest, n, config);
  }

  // Brackets in a concatenation, apart from everything else.

  lemma GroupLast(x: string, m: string, p: string, q: string, r: string)
    ensures x + m + p + q + r == x + m + (p + q + r)
  {
  }

  lemma GroupMiddle(l: string, f: string, m: string, b: string, r: string)
    ensures (l + f) + m + (b + r) == l + (f + m + b) + r
  {
  }

  lemma GroupFirst(b: string, x: string, y: string, z: string)
    ensures b + (x + y + z) == (b + x) + y + z
    ensures (x + y + z) + b == x + y + (z + b)
  {
  }

  /** The part of an assignment before the '=', without the white space in front. */
  lemma FrontSplits(b0: string, key: string, b1: string) returns (left: string, front: string)
    requires Blank(b0) && Blank(b1) && IsKey(key)
    ensures b0 + key + b1 == left + front && Blank(left)
    ensures '=' !in front && (front != [] ==> !IsSpace(front[0]) && front[0] != '#')
    ensures Trimmed(front) == key
  {
    if key == [] {
      BlanksJoin(b0, b1);
      TrimmedTight([]);
      left, front := b0 + b1, [];
    } else {
      TrimmedIsUnique([], key, b1);
      assert [] + key + b1 == key + b1;
      left, front := b0, key + b1;
    }
  }

  /** The part after the '=', without the white space at the end. */
  lemma BackSplits(b2: string, value: string, b3: string) returns (back: string, right: string)
    requires Blank(b2) && Blank(b3) && Tight(value)
    ensures b2 + value + b3 == back + right && Blank(right)
    ensures back != [] ==> !IsSpace(back[|back| - 1])
    ensures Trimmed(back) == value
  {
    if value == [] {
      BlanksJoin(b2, b3);
      TrimmedTight([]);
      back, right := [], b2 + b3;
    } else {
      TrimmedIsUnique(b2, value, []);
      assert b2 + value + [] == b2 + value;
      back, right := b2 + value, b3;
    }
  }

  /** Where the first '=' of an assignment splits its text. */
  lemma AssignmentSplits(b0: string, key: string, b1: string, b2: string, value: string, b3: string)
      returns (before: string, after: string)
    requires Blank(b0) && Blank(b1) && Blank(b2) && Blank(b3) && IsKey(key) && Tight(value)
    ensures Trimmed(b0 + key + b1 + ['='] + b2 + value + b3) == before + ['='] + after
    ensures '=' !in before && (before + ['='] + after)[0] != '#'
    ensures Trimmed(before) == key && Trimmed(after) == value
  {
    hide Trimmed, Blank, IsKey;
    var left, right;
    left, before := FrontSplits(b0, key, b1);
    after, right := BackSplits(b2, value, b3);
    GroupLast(b0 + key + b1, ['='], b2, value, b3);
    GroupMiddle(left, before, ['='], after, right);
    var t := before + ['='] + after;
    assert t[0] == if before == [] then '=' else before[0];
    assert t[|t| - 1] == if after == [] then '=' else after[|after| - 1];
    TrimmedIsUnique(left, t, right);
  }

  /** An assignment needs a key and a value; the first '=' separates them and white space around either is dropped. */
  lemma AssignmentsAssign(b0: string, key: string, b1: string, b2: string, value: string, b3: string,
                          rest: seq<string>, n: nat, config: Config)
    requires Blank(b0) && Blank(b1) && Blank(b2) && Blank(b3) && IsKey(key) && Tight(value)
    ensures var line := b0 + key + b1 + ['='] + b2 + value + b3;
            LoadLines([line] + rest, n, config) ==
            if key == [] then Err(BadLine(EmptyKey, n + 1))
            else if value == [] then Err(BadLine(EmptyValue, n + 1))
            else LoadLines(rest, n + 1, config[key := ValueOf(value)])
  {
    hide Trimmed, Blank, IsKey, LoadLines, ValueOf, ParsedValue, Find;
    var line := b0 + key + b1 + ['='] + b2 + value + b3;
    var before, after := AssignmentSplits(b0, key, b1, b2, value, b3);
    var t := Trimmed(line);
    FindOf(before, '=', after);
    assert t[|before|] == '=' && t[..|before|] == before && t[|before| + 1..] == after;
    TrimmedTight(value);
    ValueOfIsParsed([], value, []);
    assert [] + value + [] == value;
    LoadOneLine(line, rest, n, config);
  }

  // Values.

  function Pow10(n: nat): nat {
    if n == 0 then 1 else 10 * Pow10(n - 1)
  }

  /** Every digit times the power of ten of its place. */
  function PlaceValue(s: string): int
    requires AllDigits(s)
  {
    if s == [] then 0
    else
      assert forall c | c in s[1..] :: c in s;
      (s[0] as int - '0' as int) * Pow10(|s| - 1) + PlaceValue(s[1..])
  }

  lemma {:induction false} PlaceValueOfLast(s: string)
    requires s != [] && AllDigits(s)
    ensures AllDigits(s[..|s| - 1]) && PlaceValue(s) == 10 * PlaceValue(s[..|s| - 1]) + DigitValue(s[|s| - 1])
  {
    assert forall c | c in s[..|s| - 1] :: c in s;
    assert forall c | c in s[1..] :: c in s;
    if |s| > 1 {
      var rest, front := s[1..], s[..|s| - 1];
      PlaceValueOfLast(rest);
      assert rest[..|rest| - 1] == front[1..];
      TenTimes(s[0] as int - '0' as int, Pow10(|front| - 1));
      assert Pow10(|rest|) == 10 * Pow10(|front| - 1);
      assert PlaceValue(front) == (s[0] as int - '0' as int) * Pow10(|front| - 1) + PlaceValue(front[1..]);
    } else {
      assert s[1..] == [] && s[..0] == [];
    }
  }

  lemma TenTimes(a: int, b: int)
    ensures a * (10 * b) == 10 * (a * b)
  {
  }

  lemma {:induction false} DecimalIsPlaceValue(s: string)
    requires AllDigits(s)
    ensures Decimal(s) == PlaceValue(s)
  {
    if s != [] {
      PlaceValueOfLast(s);
      DecimalIsPlaceValue(s[..|s| - 1]);
    }
  }

  /** The number a text of decimal digits with an optional sign denotes. */
  function SignedValue(s: string): int
    requires IsInteger(s)
  {
    if s[0] == '-' then -PlaceValue(s[1..]) else if s[0] == '+' then PlaceValue(s[1..]) else PlaceValue(s)
  }

  /** The value of a text without outer white space. */
  function ValueOf(v: string): ConfigValue {
    if v == "true" then BooleanValue(true)
    else if v == "false" then BooleanValue(false)
    else if IsInteger(v) && -9223372036854775808 <= SignedValue(v) <= 9223372036854775807 then
      IntegerValue(SignedValue(v))
    else StringValue(v)
  }

  lemma IntegersAreSigned(v: string)
    requires IsInteger(v)
    ensures IntegerOf(v) == SignedValue(v)
  {
    DecimalIsPlaceValue(Unsigned(v));
  }

  /** A value is what its trimmed text denotes; white space alone is no value. */
  lemma ValueOfIsParsed(b: string, v: string, e: string)
    requires Blank(b) && Blank(e) && Tight(v)
    ensures ParsedValue(b + v + e) == if v == [] then None else Some(ValueOf(v))
  {
    TrimmedIsUnique(b, v, e);
    if IsInteger(v) {
      IntegersAreSigned(v);
    }
  }

  /** A text is an integer exactly when it is digits, at least one, after at most one sign. */
  lemma IntegersAreDigitsAfterASign(v: string)
    ensures IsInteger(v) <==>
              exists sign, digits :: sign in ["", "+", "-"] && digits != [] && v == sign + digits &&
                forall c | c in digits :: '0' <= c <= '9'
  {
    if IsInteger(v) {
      var sign, digits := v[..|v| - |Unsigned(v)|], Unsigned(v);
      assert sign == [] || sign == [v[0]];
      assert sign in ["", "+", "-"] && v == sign + digits && forall c | c in digits :: '0' <= c <= '9';
    }
    if sign, digits :| sign in ["", "+", "-"] && digits != [] && v == sign + digits &&
                       forall c | c in digits :: '0' <= c <= '9' {
      assert digits[0] in digits;
      assert Unsigned(v) == digits;
    }
  }

  // No line is left out.

  lemma EveryLineHasAShape(line: string) returns (shape: Shape)
    ensures HasShape(line, shape)
  {
    hide Trimmed, Blank, Tight, Find;
    var b, e := TrimmedSplits(line);
    var t := Trimmed(line);
    if t == [] {
      BlanksJoin(b, e);
      assert line == b + e;
      shape := BlankLine;
    } else if t[0] == '#' {
      shape := Comment;
      assert line == b + ['#'] + (t[1..] + e);
    } else if '=' !in t {
      shape := NoSeparator;
    } else {
      shape := AssignmentHasShape(b, t, e);
    }
  }

  lemma AssignmentShape(b0: string, key: string, b1: string, b2: string, value: string, b3: string)
    requires Blank(b0) && Blank(b1) && Blank(b2) && Blank(b3) && IsKey(key) && Tight(value)
    ensures HasShape(b0 + key + b1 + ['='] + b2 + value + b3, Assignment(key, value))
  {
  }

  lemma AssignmentHasShape(b: string, t: string, e: string) returns (shape: Shape)
    requires Blank(b) && Blank(e) && Tight(t) && t != [] && t[0] != '#' && '=' in t
    ensures HasShape(b + t + e, shape)
  {
    hide HasShape, Trimmed, Blank, Find;
    var i := Find(t, '=');
    FindHits(t, '=');
    var before, after := t[..i], t[i + 1..];
    var k0, k1 := TrimmedSplits(before);
    var v0, v1 := TrimmedSplits(after);
    KeyStartsTheLine(t, i);
    PartOfTrimmed(before);
    BlanksJoin(b, k0);
    BlanksJoin(v1, e);
    assert t == before + ['='] + after;
    var key, value := Trimmed(before), Trimmed(after);
    AssignmentShape(b + k0, key, k1, v0, value, v1 + e);
    GroupFirst(b, k0, key, k1);
    GroupFirst(e, v0, value, v1);
    GroupMiddle(b, before, ['='], after, e);
    GroupLast(b + k0 + key + k1, ['='], v0, value, v1 + e);
    shape := Assignment(key, value);
  }

  // Line ends.

  /** A last line need not end with '\n'. */
  lemma LastLineCounts(line: string)
    requires line != [] && '\n' !in line
    ensures Lines(line) == [line]
  {
    assert Find(line, '\n') < |line| ==> line[Find(line, '\n')] in line;
  }

  /** The text with every '\n' written as "\r\n". */
  function CrLf(text: string): string {
    if text == [] then []
    else if text[0] == '\n' then ['\r', '\n'] + CrLf(text[1..])
    else [text[0]] + CrLf(text[1..])
  }

  lemma {:induction false} CrLfOfLine(line: string, rest: string)
    requires '\n' !in line
    ensures CrLf(line + rest) == line + CrLf(rest)
  {
    if line == [] {
      assert line + rest == rest;
    } else {
      assert line[0] in line && forall c | c in line[1..] :: c in line;
      assert (line + rest)[1..] == line[1..] + rest;
      CrLfOfLine(line[1..], rest);
    }
  }

  lemma CarriageReturnIsBlank(line: string)
    ensures LineMeaning(line + ['\r']) == LineMeaning(line)
  {
    var b, e := TrimmedSplits(line);
    BlanksJoin(e, ['\r']);
    TrimmedIsUnique(b, Trimmed(line), e + ['\r']);
    assert line + ['\r'] == b + Trimmed(line) + (e + ['\r']);
  }

  lemma CrLfOfFirstLine(line: string, rest: string)
    requires '\n' !in line
    ensures CrLf(line + ['\n'] + rest) == (line + ['\r']) + ['\n'] + CrLf(rest)
  {
    assert line + ['\n'] + rest == line + (['\n'] + rest) && (['\n'] + rest)[1..] == rest;
    CrLfOfLine(line, ['\n'] + rest);
  }

  lemma {:induction false} CrLfLinesLoadTheSame(text: string, n: nat, config: Config)
    ensures LoadLines(Lines(CrLf(text)), n, config) == LoadLines(Lines(text), n, config)
    decreases |text|
  {
    hide LineMeaning, LoadLines, Find, CrLf, Lines;
    var i := Find(text, '\n');
    var line := text[..i];
    if i == |text| {
      CrLfOfLine(line, []);
      CrLfOfNothing();
      assert line + [] == line == text;
    } else {
      var rest := text[i + 1..];
      assert text == line + ['\n'] + rest;
      CrLfOfFirstLine(line, rest);
      LinesOf(line, rest);
      LinesOf(line + ['\r'], CrLf(rest));
      CarriageReturnIsBlank(line);
      LoadOneLine(line, Lines(rest), n, config);
      LoadOneLine(line + ['\r'], Lines(CrLf(rest)), n, config);
      match LineMeaning(line) {
        case Ignored => CrLfLinesLoadTheSame(rest, n + 1, config);
        case Bad(_) =>
        case Entry(key, value) => CrLfLinesLoadTheSame(rest, n + 1, config[key := value]);
      }
    }
  }

  lemma CrLfOfNothing()
    ensures CrLf([]) == []
  {
  }

  /** A file with "\r\n" line ends loads like the one with "\n". */
  lemma CrLfLoadsTheSame(text: string)
    ensures LoadText(CrLf(text)) == LoadText(text)
  {
    CrLfLinesLoadTheSame(text, 0, map[]);
  }
}
