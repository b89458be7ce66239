/**
 Printing a loaded configuration, one `key=value` line per entry in any order, and loading
 the print gives the same configuration. The printer is a specification: the source has none.
 */
module ConfigRoundTrip {
  import opened Common
  import opened ConfigText
  import opened ConfigLoader

  function Show(value: ConfigValue): string {
    match value
    case StringValue(text) => text
    case IntegerValue(number) => ShowInt(number)
    case BooleanValue(truth) => if truth then "true" else "false"
  }

  function ShowEntry(key: string, value: ConfigValue): string {
    key + ['='] + Show(value)
  }

  function Print(config: Config, order: seq<string>): string
    requires forall key | key in order :: key in config
  {
    if order == [] then []
    else ShowEntry(order[0], config[order[0]]) + ['\n'] + Print(config, order[1..])
  }

  /** What the loader guarantees of keys and values. */
  predicate GoodKey(key: string) {
    key != [] && Tight(key) && '=' !in key && '\n' !in key && key[0] != '#'
  }

  predicate GoodValue(value: ConfigValue) {
    match value
    case StringValue(text) => text != [] && Tight(text) && '\n' !in text && ParsedValue(text) == Some(value)
    case IntegerValue(number) => INT64_MIN <= number <= INT64_MAX
    case BooleanValue(_) => true
  }

  predicate GoodConfig(config: Config) {
    forall key | key in config :: GoodKey(key) && GoodValue(config[key])
  }

  lemma PartOfTrimmed(s: string)
    ensures forall c | c in Trimmed(s) :: c in s
    ensures Tight(Trimmed(s))
  {
    var left, right := TrimmedSplits(s);
  }

  lemma EntriesAreGood(line: string)
    requires '\n' !in line && LineMeaning(line).Entry?
    ensures GoodKey(LineMeaning(line).key) && GoodValue(LineMeaning(line).value)
  {
    var t := Trimmed(line);
    var i := Find(t, '=');
    FindHits(t, '=');
    PartOfTrimmed(line);
    var before, after := t[..i], t[i + 1..];
    PartOfTrimmed(before);
    PartOfTrimmed(after);
    var left, right := TrimmedSplits(before);
    KeyStartsTheLine(t, i);
    ParsedValuesAreGood(Trimmed(after));
  }

  lemma BlankStart(blank: string, more: string)
    requires Blank(blank)
    ensures blank != [] ==> IsSpace((blank + more)[0])
  {
    assert blank != [] ==> blank[0] in blank;
  }

  /** The key starts where the line's text starts, so it does not start with '#'. */
  lemma KeyStartsTheLine(t: string, i: nat)
    requires Tight(t) && i < |t|
    ensures Trimmed(t[..i]) != [] ==> Trimmed(t[..i])[0] == t[0]
  {
    var left, right := TrimmedSplits(t[..i]);
    BlankStart(left, Trimmed(t[..i]) + right);
  }

  lemma ParsedValuesAreGood(text: string)
    requires '\n' !in text && ParsedValue(text).Some?
    ensures GoodValue(ParsedValue(text).value)
  {
    PartOfTrimmed(text);
    TrimmedTight(Trimmed(text));
  }

  lemma {:induction false} LoadedConfigsAreGood(lines: seq<string>, lineNumber: nat, config: Config)
    requires forall l | l in lines :: '\n' !in l
    requires GoodConfig(config) && LoadLines(lines, lineNumber, config).Ok?
    ensures GoodConfig(LoadLines(lines, lineNumber, config).value)
  {
    if lines != [] {
      assert lines[0] in lines && forall l | l in lines[1..] :: l in lines;
      if LineMeaning(lines[0]).Entry? {
        EntriesAreGood(lines[0]);
      }
      LoadedConfigsAreGood(lines[1..], lineNumber + 1, AfterLine(config, lines[0]));
    }
  }

  /** A printed value is tight, non-empty, fits on a line and is read back as itself. */
  lemma ShownValueReads(value: ConfigValue)
    requires GoodValue(value)
    ensures var s := Show(value);
            s != [] && Tight(s) && '\n' !in s && ParsedValue(s) == Some(value)
  {
    match value
    case StringValue(text) =>
    case BooleanValue(truth) => TrimmedTight(Show(value));
    case IntegerValue(number) =>
      ShowIntReads(number);
      TrimmedTight(ShowInt(number));
  }

  lemma ShownEntryReads(key: string, value: ConfigValue)
    requires GoodKey(key) && GoodValue(value)
    ensures '\n' !in ShowEntry(key, value)
    ensures LineMeaning(ShowEntry(key, value)) == Entry(key, value)
  {
    var line, s := ShowEntry(key, value), Show(value);
    ShownValueReads(value);
    assert line[0] == key[0] && line[|line| - 1] == s[|s| - 1];
    TrimmedTight(line);
    FindOf(key, '=', s);
    assert line[|key|] == '=' && line[..|key|] == key && line[|key| + 1..] == s;
    TrimmedTight(key);
    TrimmedTight(s);
  }

  /** The entries of a configuration for the keys in a list. */
  function Entries(config: Config, order: seq<string>): Config
    requires forall key | key in order :: key in config
  {
    map key | key in order :: config[key]
  }

  lemma EntriesOneMore(config: Config, order: seq<string>, before: Config)
    requires order != [] && forall key | key in order :: key in config
    ensures before[order[0] := config[order[0]]] + Entries(config, order[1..]) == before + Entries(config, order)
  {
    assert forall key :: key in order <==> key == order[0] || key in order[1..];
  }

  lemma {:induction false} PrintReads(config: Config, order: seq<string>, lineNumber: nat, before: Config)
    requires GoodConfig(config) && forall key | key in order :: key in config
    ensures LoadLines(Lines(Print(config, order)), lineNumber, before) == Ok(before + Entries(config, order))
  {
    if order == [] {
      assert before + Entries(config, order) == before;
    } else {
      var line, rest := ShowEntry(order[0], config[order[0]]), Print(config, order[1..]);
      ShownEntryReads(order[0], config[order[0]]);
      LinesOf(line, rest);
      LoadOneLine(line, Lines(rest), lineNumber, before);
      PrintReads(config, order[1..], lineNumber + 1, before[order[0] := config[order[0]]]);
      EntriesOneMore(config, order, before);
    }
  }

  /** Whatever text loads, printing its entries in any order and loading again gives the same map. */
  lemma ConfigSurvivesPrinting(text: string, order: seq<string>)
    requires LoadText(text).Ok?
    requires forall key :: key in order <==> key in LoadText(text).value
    ensures LoadText(Print(LoadText(text).value, order)) == LoadText(text)
  {
    var config := LoadText(text).value;
    LinesHaveNoNewline(text);
    LoadedConfigsAreGood(Lines(text), 0, map[]);
    PrintReads(config, order, 0, map[]);
    assert map[] + Entries(config, order) == config;
  }
}
