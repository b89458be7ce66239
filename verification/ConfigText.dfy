/**
 Text handling of PacketForge_V1/src/config/config_loader.cpp and of the library calls it
 makes: isspace in the "C" locale (section 7.4.1.10 of ISO C11), std::getline,
 std::string::find, and std::stoll, which is strtoll with base 10 (section 7.22.1.4).
 */
module ConfigText {
  import opened Common

  predicate IsSpace(c: char) {
    c == ' ' || '\t' <= c <= '\r'
  }

  predicate Blank(s: string) {
    forall c | c in s :: IsSpace(c)
  }

  /** No white space at either end. */
  predicate Tight(s: string) {
    s != [] ==> !IsSpace(s[0]) && !IsSpace(s[|s| - 1])
  }

  function StripLeft(s: string): string {
    if s != [] && IsSpace(s[0]) then StripLeft(s[1..]) else s
  }

  function StripRight(s: string): string {
    if s != [] && IsSpace(s[|s| - 1]) then StripRight(s[..|s| - 1]) else s
  }

  function Trimmed(s: string): string {
    StripRight(StripLeft(s))
  }

  lemma {:induction false} StripLeftSplits(s: string) returns (blank: string)
    ensures Blank(blank) && s == blank + StripLeft(s)
    ensures StripLeft(s) != [] ==> !IsSpace(StripLeft(s)[0])
  {
    blank := [];
    if s != [] && IsSpace(s[0]) {
      var more := StripLeftSplits(s[1..]);
      blank := [s[0]] + more;
      assert s == [s[0]] + s[1..];
    }
  }

  lemma {:induction false} StripRightSplits(s: string) returns (blank: string)
    ensures Blank(blank) && s == StripRight(s) + blank
    ensures StripRight(s) != [] ==> !IsSpace(StripRight(s)[|StripRight(s)| - 1])
  {
    blank := [];
    if s != [] && IsSpace(s[|s| - 1]) {
      var more := StripRightSplits(s[..|s| - 1]);
      blank := more + [s[|s| - 1]];
      assert s == s[..|s| - 1] + [s[|s| - 1]];
    }
  }

  /** Trimming takes blanks off both ends and leaves none there. */
  lemma TrimmedSplits(s: string) returns (left: string, right: string)
    ensures Blank(left) && Blank(right) && s == left + Trimmed(s) + right && Tight(Trimmed(s))
  {
    left := StripLeftSplits(s);
    right := StripRightSplits(StripLeft(s));
    assert Trimmed(s) != [] ==> Trimmed(s)[0] == StripLeft(s)[0];
  }

  lemma {:induction false} StripLeftOf(left: string, s: string)
    requires Blank(left) && (s != [] ==> !IsSpace(s[0]))
    ensures StripLeft(left + s) == s
  {
    if left == [] {
      assert left + s == s;
    } else {
      assert left[0] in left;
      assert (left + s)[1..] == left[1..] + s;
      assert forall c | c in left[1..] :: c in left;
      StripLeftOf(left[1..], s);
    }
  }

  lemma {:induction false} StripRightOf(s: string, right: string)
    requires Blank(right) && (s != [] ==> !IsSpace(s[|s| - 1]))
    ensures StripRight(s + right) == s
  {
    if right == [] {
      assert s + right == s;
    } else {
      var n := |right| - 1;
      assert right[n] in right;
      assert (s + right)[..|s| + n] == s + right[..n];
      assert forall c | c in right[..n] :: c in right;
      StripRightOf(s, right[..n]);
    }
  }

  /** It is the only way to do so: any tight text between blanks is the trimmed text. */
  lemma TrimmedIsUnique(left: string, s: string, right: string)
    requires Blank(left) && Blank(right) && Tight(s)
    ensures Trimmed(left + s + right) == s
  {
    if s == [] {
      assert left + s + right == (left + right) + [];
      assert forall c | c in left + right :: c in left || c in right;
      StripLeftOf(left + right, []);
    } else {
      assert left + s + right == left + (s + right);
      StripLeftOf(left, s + right);
      StripRightOf(s, right);
    }
  }

  lemma TrimmedTight(s: string)
    requires Tight(s)
    ensures Trimmed(s) == s
  {
    TrimmedIsUnique([], s, []);
    assert [] + s + [] == s;
  }

  /** trim. */
  method Trim(value: string) returns (r: string)
    ensures r == Trimmed(value)
  {
    var begin := 0;
    while begin < |value| && IsSpace(value[begin])
      invariant 0 <= begin <= |value|
      invariant Blank(value[..begin])
    {
      begin := begin + 1;
    }
    var end := |value|;
    while end > begin && IsSpace(value[end - 1])
      invariant begin <= end <= |value|
      invariant Blank(value[end..])
    {
      end := end - 1;
      assert value[end..] == [value[end]] + value[end + 1..];
    }
    r := value[begin..end];
    TrimmedIsUnique(value[..begin], r, value[end..]);
    assert value == value[..begin] + r + value[end..];
  }

  /** Position of the first `c`, or the length when there is none. */
  function Find(s: string, c: char): (i: nat)
    ensures i <= |s| && c !in s[..i] && (i < |s| ==> s[i] == c)
  {
    if s == [] || s[0] == c then 0
    else
      assert s[..1 + Find(s[1..], c)] == [s[0]] + s[1..][..Find(s[1..], c)];
      1 + Find(s[1..], c)
  }

  lemma {:induction false} FindOf(before: string, c: char, after: string)
    requires c !in before
    ensures Find(before + [c] + after, c) == |before|
  {
    if before != [] {
      assert (before + [c] + after)[1..] == before[1..] + [c] + after;
      FindOf(before[1..], c, after);
    }
  }

  /** What successive calls of std::getline deliver: a last line without '\n' counts, an empty rest does not. */
  function Lines(text: string): (lines: seq<string>)
    decreases |text|
  {
    if text == [] then []
    else
      var i := Find(text, '\n');
      if i == |text| then [text] else [text[..i]] + Lines(text[i + 1..])
  }

  lemma {:induction false} LinesHaveNoNewline(text: string)
    ensures forall l | l in Lines(text) :: '\n' !in l
    decreases |text|
  {
    if text != [] {
      var i := Find(text, '\n');
      if i == |text| {
        assert text[..i] == text;
      } else {
        LinesHaveNoNewline(text[i + 1..]);
      }
    }
  }

  lemma LinesOf(line: string, rest: string)
    requires '\n' !in line
    ensures Lines(line + ['\n'] + rest) == [line] + Lines(rest)
  {
    var text := line + ['\n'] + rest;
    FindOf(line, '\n', rest);
    assert text[..|line|] == line && text[|line| + 1..] == rest;
  }

  // Decimal integers.

  const INT64_MIN: int := -0x8000_0000_0000_0000
  const INT64_MAX: int := 0x7FFF_FFFF_FFFF_FFFF

  predicate IsDigit(c: char) {
    '0' <= c <= '9'
  }

  function DigitValue(c: char): nat
    requires IsDigit(c)
  {
    c as int - '0' as int
  }

  predicate AllDigits(s: string) {
    forall c | c in s :: IsDigit(c)
  }

  function Decimal(s: string): nat
    requires AllDigits(s)
  {
    if s == [] then 0
    else
      assert forall c | c in s[..|s| - 1] :: c in s;
      10 * Decimal(s[..|s| - 1]) + DigitValue(s[|s| - 1])
  }

  function DigitRun(s: string): (n: nat)
    ensures n <= |s| && AllDigits(s[..n]) && (n < |s| ==> !IsDigit(s[n]))
  {
    if s == [] || !IsDigit(s[0]) then 0
    else
      assert s[..1 + DigitRun(s[1..])] == [s[0]] + s[1..][..DigitRun(s[1..])];
      1 + DigitRun(s[1..])
  }

  predicate IsSign(c: char) {
    c == '+' || c == '-'
  }

  datatype StollError = NoConversion | OutOfRange

  /** std::stoll: the number and how many characters it took. */
  function Stoll(s: string): Result<(int, nat), StollError> {
    var i := |s| - |StripLeft(s)|;
    StripLeftIsSuffix(s);
    var signed := i < |s| && IsSign(s[i]);
    var j := if signed then i + 1 else i;
    var n := DigitRun(s[j..]);
    if n == 0 then Err(NoConversion)
    else
      var magnitude: int := Decimal(s[j..][..n]);
      var value := if signed && s[i] == '-' then -magnitude else magnitude;
      if INT64_MIN <= value <= INT64_MAX then Ok((value, j + n)) else Err(OutOfRange)
  }

  lemma {:induction false} StripLeftIsSuffix(s: string)
    ensures |StripLeft(s)| <= |s|
  {
    if s != [] && IsSpace(s[0]) {
      StripLeftIsSuffix(s[1..]);
    }
  }

  /** A text without its optional sign. */
  function Unsigned(s: string): string {
    if s != [] && IsSign(s[0]) then s[1..] else s
  }

  /** An optional sign and at least one digit, nothing else. */
  predicate IsInteger(s: string) {
    Unsigned(s) != [] && AllDigits(Unsigned(s))
  }

  function IntegerOf(s: string): int
    requires IsInteger(s)
  {
    if s[0] == '-' then 0 - Decimal(Unsigned(s)) else Decimal(Unsigned(s))
  }

  /** On text without leading blanks, stoll takes everything exactly for a signed decimal in the 64-bit range. */
  lemma StollTakesAll(s: string)
    requires s != [] && !IsSpace(s[0])
    ensures (Stoll(s).Ok? && Stoll(s).value.1 == |s|) <==> (IsInteger(s) && INT64_MIN <= IntegerOf(s) <= INT64_MAX)
    ensures Stoll(s).Ok? && Stoll(s).value.1 == |s| ==> Stoll(s).value.0 == IntegerOf(s)
  {
    var j := if IsSign(s[0]) then 1 else 0;
    assert s[j..] == Unsigned(s);
    var u := Unsigned(s);
    var n := DigitRun(u);
    assert n < |u| ==> u[n] in u;
    assert n == |u| ==> u[..n] == u;
    assert AllDigits(u) <==> n == |u|;
  }

  function ShowDigit(d: nat): (c: char)
    requires d < 10
    ensures IsDigit(c) && DigitValue(c) == d
  {
    (d + '0' as int) as char
  }

  /** The shortest decimal text of a number. */
  function ShowNat(n: nat): (s: string)
    ensures s != [] && AllDigits(s) && Decimal(s) == n
  {
    if n < 10 then
      assert [ShowDigit(n)][..0] == [];
      [ShowDigit(n)]
    else
      var front, last := ShowNat(n / 10), [ShowDigit(n % 10)];
      assert (front + last)[..|front + last| - 1] == front;
      front + last
  }

  function ShowInt(n: int): (s: string)
  {
    if n < 0 then ['-'] + ShowNat(-n) else ShowNat(n)
  }

  /** Reading a printed integer gives it back. */
  lemma ShowIntReads(n: int)
    ensures IsInteger(ShowInt(n)) && IntegerOf(ShowInt(n)) == n
    ensures Tight(ShowInt(n)) && '\n' !in ShowInt(n) && '=' !in ShowInt(n)
  {
    var s := ShowInt(n);
    if n < 0 {
      assert s[1..] == ShowNat(-n);
      assert s[|s| - 1] in ShowNat(-n);
    } else {
      assert s[0] in s && s[|s| - 1] in s;
      assert IsDigit(s[0]);
    }
  }
}
