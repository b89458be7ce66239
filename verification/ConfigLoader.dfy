/**
 ConfigLoader::load on the text of a file: the loop over lines, what it means for the
 resulting map, and that printing a loaded configuration and loading it again changes nothing.
 */
module ConfigLoader {
  import opened Common
  import opened ConfigText

  datatype ConfigValue = StringValue(text: string) | IntegerValue(number: int) | BooleanValue(truth: bool)

  type Config = map<string, ConfigValue>

  datatype LineError = Malformed | EmptyKey | EmptyValue

  datatype LoadError = CannotOpen | BadLine(error: LineError, lineNumber: nat)

  /** The type a value gets; None is the exception for an empty value. */
  function ParsedValue(text: string): Option<ConfigValue> {
    var value := Trimmed(text);
    if value == [] then None
    else if value == "true" then Some(BooleanValue(true))
    else if value == "false" then Some(BooleanValue(false))
    else if IsInteger(value) && INT64_MIN <= IntegerOf(value) <= INT64_MAX then Some(IntegerValue(IntegerOf(value)))
    else Some(StringValue(value))
  }

  /** parseValue: an exception of stoll, or a rest it did not take, makes the value a string. */
  method ParseValue(text: string) returns (r: Option<ConfigValue>)
    ensures r == ParsedValue(text)
  {
    var value := Trim(text);
    var _, _ := TrimmedSplits(text);
    if value == [] {
      return None;
    }
    if value == "true" {
      return Some(BooleanValue(true));
    }
    if value == "false" {
      return Some(BooleanValue(false));
    }
    StollTakesAll(value);
    var converted := Stoll(value);
    if converted.Ok? {
      var (integerValue, position) := converted.value;
      if position == |value| {
        return Some(IntegerValue(integerValue));
      }
    }
    r := Some(StringValue(value));
  }

  datatype Meaning = Ignored | Entry(key: string, value: ConfigValue) | Bad(error: LineError)

  /** What one line contributes. */
  function LineMeaning(line: string): Meaning {
    var t := Trimmed(line);
    if t == [] || t[0] == '#' then Ignored
    else if '=' !in t then Bad(Malformed)
    else
      var i := Find(t, '=');
      FindHits(t, '=');
      var key, value := Trimmed(t[..i]), Trimmed(t[i + 1..]);
      if key == [] then Bad(EmptyKey)
      else if ParsedValue(value).None? then Bad(EmptyValue)
      else Entry(key, ParsedValue(value).value)
  }

  lemma FindHits(s: string, c: char)
    requires c in s
    ensures Find(s, c) < |s|
  {
    assert s[..|s|] == s;
  }

  predicate IsBad(line: string) {
    LineMeaning(line).Bad?
  }

  /** The configuration after a line that is not bad. */
  function AfterLine(config: Config, line: string): Config {
    match LineMeaning(line)
    case Entry(key, value) => config[key := value]
    case _ => config
  }

  /** The loader's result from a number of lines already read and the entries they left. */
  function LoadLines(lines: seq<string>, lineNumber: nat, config: Config): Result<Config, LoadError> {
    if lines == [] then Ok(config)
    else if IsBad(lines[0]) then Err(BadLine(LineMeaning(lines[0]).error, lineNumber + 1))
    else LoadLines(lines[1..], lineNumber + 1, AfterLine(config, lines[0]))
  }

  function LoadText(text: string): Result<Config, LoadError> {
    LoadLines(Lines(text), 0, map[])
  }

  /** The body of the loop for one line. */
  method ReadLine(line: string) returns (m: Meaning)
    ensures m == LineMeaning(line)
  {
    var trimmedLine := Trim(line);
    if trimmedLine == [] {
      return Ignored;
    }
    if trimmedLine[0] == '#' {
      return Ignored;
    }
    var separator := Find(trimmedLine, '=');
    if separator == |trimmedLine| {
      assert trimmedLine[..separator] == trimmedLine;
      return Bad(Malformed);
    }
    assert trimmedLine[separator] in trimmedLine;
    var key := Trim(trimmedLine[..separator]);
    var value := Trim(trimmedLine[separator + 1..]);
    if key == [] {
      return Bad(EmptyKey);
    }
    var _, _ := TrimmedSplits(trimmedLine[separator + 1..]);
    TrimmedTight(value);
    if value == [] {
      return Bad(EmptyValue);
    }
    var parsed := ParseValue(value);
    m := Entry(key, parsed.value);
  }

  /** std::getline on a stream that is not at its end. */
  method GetLine(text: string) returns (line: string, rest: string)
    requires text != []
    ensures |rest| < |text| && Lines(text) == [line] + Lines(rest)
  {
    hide Find;
    var i := Find(text, '\n');
    line := text[..i];
    if i == |text| {
      assert line == text;
      rest := [];
      assert Lines(rest) == [];
    } else {
      rest := text[i + 1..];
    }
  }

  lemma LoadOneLine(line: string, rest: seq<string>, lineNumber: nat, config: Config)
    ensures LoadLines([line] + rest, lineNumber, config) ==
            match LineMeaning(line)
            case Ignored => LoadLines(rest, lineNumber + 1, config)
            case Bad(error) => Err(BadLine(error, lineNumber + 1))
            case Entry(key, value) => LoadLines(rest, lineNumber + 1, config[key := value])
  {
    assert ([line] + rest)[1..] == rest;
  }

  /** ConfigLoader::load; None is a file that cannot be opened. */
  method Load(file: Option<string>) returns (r: Result<Config, LoadError>)
    ensures r == if file.None? then Err(CannotOpen) else LoadText(file.value)
  {
    if file.None? {
      return Err(CannotOpen);
    }
    var config: Config := map[];
    var lineNumber := 0;
    var rest := file.value;
    while rest != []
      invariant LoadText(file.value) == LoadLines(Lines(rest), lineNumber, config)
      decreases |rest|
    {
      var line;
      line, rest := GetLine(rest);
      LoadOneLine(line, Lines(rest), lineNumber, config);
      lineNumber := lineNumber + 1;
      var m := ReadLine(line);
      match m {
        case Ignored =>
        case Bad(error) => return Err(BadLine(error, lineNumber));
        case Entry(key, value) => config := config[key := value];
      }
    }
    r := Ok(config);
  }

  // What the loop computes, said without the loop.

  predicate AssignsKey(line: string, key: string) {
    LineMeaning(line).Entry? && LineMeaning(line).key == key
  }

  predicate Assigns(lines: seq<string>, key: string) {
    exists l | l in lines :: AssignsKey(l, key)
  }

  /** Line `i` is the last of the lines that assigns `key`. */
  predicate LastAssignment(lines: seq<string>, i: nat, key: string) {
    i < |lines| && AssignsKey(lines[i], key) && !Assigns(lines[i + 1..], key)
  }

  /** Line `i` is the first that is neither ignored nor an entry. */
  predicate FirstBad(lines: seq<string>, i: nat) {
    i < |lines| && IsBad(lines[i]) && forall l | l in lines[..i] :: !IsBad(l)
  }

  lemma {:induction false} FirstBadDecides(lines: seq<string>, lineNumber: nat, config: Config, i: nat)
    requires FirstBad(lines, i)
    ensures LoadLines(lines, lineNumber, config) == Err(BadLine(LineMeaning(lines[i]).error, lineNumber + i + 1))
  {
    hide LineMeaning;
    if i > 0 {
      var rest := lines[1..];
      assert lines[0] in lines[..i];
      assert forall l | l in rest[..i - 1] :: l in lines[..i];
      FirstBadDecides(rest, lineNumber + 1, AfterLine(config, lines[0]), i - 1);
    }
  }

  lemma {:induction false} NoBadLineLoads(lines: seq<string>, lineNumber: nat, config: Config)
    requires forall l | l in lines :: !IsBad(l)
    ensures LoadLines(lines, lineNumber, config).Ok?
  {
    if lines != [] {
      assert lines[0] in lines && forall l | l in lines[1..] :: l in lines;
      NoBadLineLoads(lines[1..], lineNumber + 1, AfterLine(config, lines[0]));
    }
  }

  lemma {:induction false} SomeFirstBad(lines: seq<string>) returns (i: nat)
    requires exists l | l in lines :: IsBad(l)
    ensures FirstBad(lines, i)
  {
    if IsBad(lines[0]) {
      i := 0;
    } else {
      assert forall l | l in lines :: l == lines[0] || l in lines[1..];
      i := SomeFirstBad(lines[1..]);
      i := i + 1;
      assert lines[..i] == [lines[0]] + lines[1..][..i - 1];
    }
  }

  lemma AssignsSplits(lines: seq<string>, key: string)
    requires lines != []
    ensures Assigns(lines, key) <==> AssignsKey(lines[0], key) || Assigns(lines[1..], key)
  {
    assert forall l :: l in lines <==> l == lines[0] || l in lines[1..];
  }

  /** A key is in the result when it was there before or some line assigns it; unassigned ones keep their value. */
  lemma {:induction false} KeysAfterLoading(lines: seq<string>, lineNumber: nat, config: Config, key: string)
    requires LoadLines(lines, lineNumber, config).Ok?
    ensures var m := LoadLines(lines, lineNumber, config).value;
            && (key in m <==> key in config || Assigns(lines, key))
            && (!Assigns(lines, key) && key in config ==> m[key] == config[key])
  {
    if lines != [] {
      KeysAfterLoading(lines[1..], lineNumber + 1, AfterLine(config, lines[0]), key);
      AssignsSplits(lines, key);
    }
  }

  /** The last assignment to a key wins. */
  lemma {:induction false} LastAssignmentWins(lines: seq<string>, lineNumber: nat, config: Config, key: string, i: nat)
    requires LoadLines(lines, lineNumber, config).Ok? && LastAssignment(lines, i, key)
    ensures var m := LoadLines(lines, lineNumber, config).value;
            key in m && m[key] == LineMeaning(lines[i]).value
  {
    var rest, next := lines[1..], AfterLine(config, lines[0]);
    if i == 0 {
      KeysAfterLoading(rest, lineNumber + 1, next, key);
    } else {
      assert rest[i - 1 + 1..] == lines[i + 1..];
      LastAssignmentWins(rest, lineNumber + 1, next, key, i - 1);
    }
  }

  /** Loading succeeds exactly when no line is bad; the first bad line alone decides the error. */
  lemma LoadFailsOnFirstBadLine(text: string)
    ensures LoadText(text).Ok? <==> forall l | l in Lines(text) :: !IsBad(l)
    ensures forall i: nat | FirstBad(Lines(text), i) ::
              LoadText(text) == Err(BadLine(LineMeaning(Lines(text)[i]).error, i + 1))
  {
    hide Lines, LineMeaning, LoadLines;
    var lines := Lines(text);
    forall i: nat | FirstBad(lines, i)
      ensures LoadText(text) == Err(BadLine(LineMeaning(lines[i]).error, i + 1))
    {
      FirstBadDecides(lines, 0, map[], i);
    }
    if exists l | l in lines :: IsBad(l) {
      var i := SomeFirstBad(lines);
      assert FirstBad(lines, i) && lines[i] in lines;
    } else {
      NoBadLineLoads(lines, 0, map[]);
    }
  }

  /** The map has exactly the keys some line assigns, each with the value of the last line that assigns it. */
  lemma LoadedMapIsLastAssignments(text: string)
    requires LoadText(text).Ok?
    ensures forall key :: key in LoadText(text).value <==> Assigns(Lines(text), key)
    ensures forall key, i: nat | LastAssignment(Lines(text), i, key) ::
              key in LoadText(text).value && LoadText(text).value[key] == LineMeaning(Lines(text)[i]).value
  {
    forall key
      ensures key in LoadText(text).value <==> Assigns(Lines(text), key)
    {
      KeysAfterLoading(Lines(text), 0, map[], key);
    }
    forall key, i: nat | LastAssignment(Lines(text), i, key)
      ensures key in LoadText(text).value && LoadText(text).value[key] == LineMeaning(Lines(text)[i]).value
    {
      LastAssignmentWins(Lines(text), 0, map[], key, i);
    }
  }
}
