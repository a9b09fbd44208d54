/**
 * The implementation section's logic: the list of completed step indices that the
 * step buttons toggle, the headline's total duration summed from the steps'
 * `"<minutes> min"` strings with JavaScript's `parseInt`, and the colour-class lookup
 * that falls back to blue.
 */
module ImplementationSection {
  import opened Wrappers

  // ---------------------------------------------------------------------------
  // Completed steps
  // ---------------------------------------------------------------------------

  /** `list.filter(i => i !== x)`: every element other than `x`, in order. */
  function Without(list: seq<int>, x: int): (r: seq<int>)
    ensures x !in r
    ensures forall y :: y != x ==> (y in r <==> y in list)
    ensures |r| <= |list|
  {
    if list == [] then []
    else if list[0] == x then Without(list[1..], x)
    else [list[0]] + Without(list[1..], x)
  }

  /** `toggleStepCompletion`: remove the index if it is listed, otherwise append it. */
  function Toggle(completed: seq<int>, stepIndex: int): seq<int>
  {
    if stepIndex in completed then Without(completed, stepIndex)
    else completed + [stepIndex]
  }

  /** No index is listed twice. */
  predicate Distinct(list: seq<int>)
  {
    forall i, j :: 0 <= i < j < |list| ==> list[i] != list[j]
  }

  /** Toggling flips the membership of the toggled index and of no other. */
  lemma ToggleFlipsMembership(completed: seq<int>, stepIndex: int)
    ensures stepIndex in Toggle(completed, stepIndex) <==> stepIndex !in completed
    ensures forall y :: y != stepIndex ==> (y in Toggle(completed, stepIndex) <==> y in completed)
  {
  }

  /** An index that is not listed is appended at the end, after everything already there. */
  lemma ToggleAbsentAppends(completed: seq<int>, stepIndex: int)
    requires stepIndex !in completed
    ensures |Toggle(completed, stepIndex)| == |completed| + 1
    ensures Toggle(completed, stepIndex)[..|completed|] == completed
    ensures Toggle(completed, stepIndex)[|completed|] == stepIndex
  {
  }

  /** An index that is listed is removed with every duplicate of it; nothing else is removed. */
  lemma {:induction false} WithoutRemovesAll(list: seq<int>, x: int)
    ensures multiset(Without(list, x)) == multiset(list)[x := 0]
  {
    if list != [] {
      WithoutRemovesAll(list[1..], x);
      assert list == [list[0]] + list[1..];
    }
  }

  lemma ToggleRemovesAll(completed: seq<int>, stepIndex: int)
    requires stepIndex in completed
    ensures multiset(Toggle(completed, stepIndex)) == multiset(completed)[stepIndex := 0]
  {
    WithoutRemovesAll(completed, stepIndex);
  }

  /** Removing an index that is not listed changes nothing. */
  lemma {:induction false} WithoutAbsent(list: seq<int>, x: int)
    requires x !in list
    ensures Without(list, x) == list
  {
    if list != [] {
      WithoutAbsent(list[1..], x);
    }
  }

  lemma {:induction false} WithoutAppend(list: seq<int>, y: int, x: int)
    ensures Without(list + [y], x) == Without(list, x) + (if y == x then [] else [y])
  {
    if list != [] {
      WithoutAppend(list[1..], y, x);
      assert (list + [y])[1..] == list[1..] + [y];
    }
  }

  lemma {:induction false} WithoutIdempotent(list: seq<int>, x: int)
    ensures Without(Without(list, x), x) == Without(list, x)
  {
    WithoutAbsent(Without(list, x), x);
  }

  /**
   * A toggle leaves the other indices exactly as they were, order included: with the
   * toggled index taken out, the list before and after are the same.
   */
  lemma ToggleKeepsOthers(completed: seq<int>, stepIndex: int)
    ensures Without(Toggle(completed, stepIndex), stepIndex) == Without(completed, stepIndex)
  {
    if stepIndex in completed {
      WithoutIdempotent(completed, stepIndex);
    } else {
      WithoutAppend(completed, stepIndex, stepIndex);
    }
  }

  lemma {:induction false} WithoutKeepsDistinct(list: seq<int>, x: int)
    requires Distinct(list)
    ensures Distinct(Without(list, x))
  {
    if list != [] {
      assert Distinct(list[1..]) by {
        forall i, j | 0 <= i < j < |list[1..]| ensures list[1..][i] != list[1..][j] {
          assert list[1..][i] == list[i + 1] && list[1..][j] == list[j + 1];
        }
      }
      WithoutKeepsDistinct(list[1..], x);
      if list[0] != x {
        var rest := Without(list[1..], x);
        assert list[0] !in list[1..];
        assert list[0] !in rest;
        forall i, j | 0 <= i < j < |[list[0]] + rest| ensures ([list[0]] + rest)[i] != ([list[0]] + rest)[j] {
          if i == 0 {
            assert ([list[0]] + rest)[j] == rest[j - 1];
          } else {
            assert ([list[0]] + rest)[i] == rest[i - 1] && ([list[0]] + rest)[j] == rest[j - 1];
          }
        }
      }
    }
  }

  /** A list without duplicates stays without duplicates under any toggle. */
  lemma ToggleKeepsDistinct(completed: seq<int>, stepIndex: int)
    requires Distinct(completed)
    ensures Distinct(Toggle(completed, stepIndex))
  {
    if stepIndex in completed {
      WithoutKeepsDistinct(completed, stepIndex);
    }
  }

  /** Toggling an index that is not listed twice gives back the original list. */
  lemma ToggleTwiceRestores(completed: seq<int>, stepIndex: int)
    requires stepIndex !in completed
    ensures Toggle(Toggle(completed, stepIndex), stepIndex) == completed
  {
    WithoutAppend(completed, stepIndex, stepIndex);
    WithoutAbsent(completed, stepIndex);
  }

  // ---------------------------------------------------------------------------
  // Total duration
  // ---------------------------------------------------------------------------

  /** `s.split(' ')[0]`: everything before the first space, or all of `s`. */
  function FirstToken(s: string): string
  {
    if s == [] || s[0] == ' ' then ""
    else [s[0]] + FirstToken(s[1..])
  }

  /** The first token is the longest prefix without a space: a space or the end of `s` follows it. */
  lemma {:induction false} FirstTokenIsPrefix(s: string)
    ensures ' ' !in FirstToken(s)
    ensures |FirstToken(s)| <= |s| && FirstToken(s) == s[..|FirstToken(s)|]
    ensures |FirstToken(s)| < |s| ==> s[|FirstToken(s)|] == ' '
  {
    if s != [] && s[0] != ' ' {
      FirstTokenIsPrefix(s[1..]);
    }
  }

  /** The white space `parseInt` skips before the number (the ASCII ones, no-break space and the byte order mark). */
  predicate IsSpace(c: char)
  {
    c == ' ' || c == '\t' || c == '\n' || c == '\r'
    || c as int == 0x0B || c as int == 0x0C || c as int == 0xA0 || c as int == 0xFEFF
  }

  function TrimStart(s: string): string
  {
    if s != [] && IsSpace(s[0]) then TrimStart(s[1..]) else s
  }

  /** Trimming drops a prefix of `s` and leaves text that does not start with white space. */
  lemma {:induction false} TrimStartIsSuffix(s: string)
    ensures |TrimStart(s)| <= |s| && TrimStart(s) == s[|s| - |TrimStart(s)|..]
    ensures TrimStart(s) == [] || !IsSpace(TrimStart(s)[0])
  {
    if s != [] && IsSpace(s[0]) {
      TrimStartIsSuffix(s[1..]);
    }
  }

  /** The value of `c` as a digit in base `radix` (10 or 16), if it is one. */
  function DigitValue(c: char, radix: nat): (v: Option<nat>)
    ensures v.Some? ==> v.value < radix
  {
    var d :=
      if '0' <= c <= '9' then Some((c as int - '0' as int) as nat)
      else if 'a' <= c <= 'z' then Some((c as int - 'a' as int + 10) as nat)
      else if 'A' <= c <= 'Z' then Some((c as int - 'A' as int + 10) as nat)
      else None;
    if d.Some? && d.value < radix then d else None
  }

  predicate AllDigits(s: string, radix: nat)
  {
    forall i :: 0 <= i < |s| ==> DigitValue(s[i], radix).Some?
  }

  /** How many characters at the front of `s` are digits in base `radix`. */
  function DigitRun(s: string, radix: nat): nat
  {
    if s == [] || DigitValue(s[0], radix).None? then 0
    else 1 + DigitRun(s[1..], radix)
  }

  /** The run is made of digits and stops at the first character that is not one. */
  lemma {:induction false} DigitRunIsRun(s: string, radix: nat)
    ensures DigitRun(s, radix) <= |s| && AllDigits(s[..DigitRun(s, radix)], radix)
    ensures DigitRun(s, radix) < |s| ==> DigitValue(s[DigitRun(s, radix)], radix).None?
  {
    if s != [] && DigitValue(s[0], radix).Some? {
      DigitRunIsRun(s[1..], radix);
      var n := DigitRun(s, radix);
      assert s[..n] == [s[0]] + s[1..][..n - 1];
    }
  }

  /** The number a string of digits denotes, most significant digit first. */
  function DigitsValue(s: string, radix: nat): nat
    requires AllDigits(s, radix)
  {
    if s == [] then 0
    else DigitsValue(s[..|s| - 1], radix) * radix + DigitValue(s[|s| - 1], radix).value
  }

  /**
   * `parseInt(s)` with no radix: skip leading white space, take an optional sign, then
   * read the digits that follow. `None` stands for `NaN`.
   */
  function ParseInt(s: string): Option<int>
  {
    var t := TrimStart(s);
    if |t| > 0 && t[0] == '-' then Negate(ParseMagnitude(t[1..]))
    else if |t| > 0 && t[0] == '+' then ParseMagnitude(t[1..])
    else ParseMagnitude(t)
  }

  function Negate(v: Option<int>): Option<int>
  {
    if v.Some? then Some(-v.value) else None
  }

  /** Base 16 after a `0x` or `0X` prefix, base 10 otherwise. */
  function ParseMagnitude(u: string): Option<int>
  {
    if |u| >= 2 && u[0] == '0' && (u[1] == 'x' || u[1] == 'X') then ParseDigits(u[2..], 16)
    else ParseDigits(u, 10)
  }

  /** The digits at the front of `body`; `NaN` when there are none. */
  function ParseDigits(body: string, radix: nat): Option<int>
  {
    var n := DigitRun(body, radix);
    DigitRunIsRun(body, radix);
    if n == 0 then None else Some(DigitsValue(body[..n], radix))
  }

  /** The decimal digit that denotes `d`. */
  function DigitChar(d: nat): (c: char)
    requires d < 10
    ensures '0' <= c <= '9' && DigitValue(c, 10) == Some(d)
  {
    ('0' as int + d) as char
  }

  /** A decimal digit is one of `0` to `9`; in particular it is neither white space nor a sign. */
  lemma DecimalDigit(c: char)
    requires DigitValue(c, 10).Some?
    ensures '0' <= c <= '9' && !IsSpace(c) && c != '-' && c != '+'
  {
  }

  /** The decimal numeral of `n`, without leading zeros. */
  function DecimalString(n: nat): (s: string)
    ensures |s| > 0 && AllDigits(s, 10)
    ensures n > 0 ==> s[0] != '0'
    decreases n
  {
    var last := [DigitChar(n % 10)];
    if n < 10 then last
    else
      var s := DecimalString(n / 10) + last;
      assert AllDigits(s, 10) by {
        forall i | 0 <= i < |s| ensures DigitValue(s[i], 10).Some? {
          if i < |s| - 1 { assert s[i] == DecimalString(n / 10)[i]; }
        }
      }
      s
  }

  /** Reading a decimal numeral back gives the number it was written from. */
  lemma {:induction false} DecimalStringValue(n: nat)
    ensures DigitsValue(DecimalString(n), 10) == n
    decreases n
  {
    var s := DecimalString(n);
    if n >= 10 {
      DecimalStringValue(n / 10);
      assert s[..|s| - 1] == DecimalString(n / 10);
    }
  }

  lemma {:induction false} DigitRunAppend(s: string, rest: string)
    requires AllDigits(s, 10)
    requires rest == [] || DigitValue(rest[0], 10).None?
    ensures DigitRun(s + rest, 10) == |s|
    decreases |s|
  {
    if s != [] {
      assert (s + rest)[1..] == s[1..] + rest;
      DigitRunAppend(s[1..], rest);
    } else {
      assert s + rest == rest;
    }
  }

  /**
   * `parseInt` reads back a number written in decimal and followed by anything that
   * is neither a digit nor an `x` (an `x` after a lone `0` would turn the numeral
   * into a hexadecimal prefix).
   */
  lemma ParseIntDecimal(n: nat, rest: string)
    requires rest == [] || (DigitValue(rest[0], 10).None? && rest[0] != 'x' && rest[0] != 'X')
    ensures ParseInt(DecimalString(n) + rest) == Some(n)
  {
    var d := DecimalString(n);
    var s := d + rest;
    assert s[0] == d[0];
    if |s| >= 2 && s[0] == '0' {
      if n > 0 {
        assert false;
      }
      assert s[1] == rest[0];
    }
    ParseIntUnsigned(s);
    ParseDigitsPrefix(d, rest);
    DecimalStringValue(n);
  }

  /** Text that starts with a decimal digit and no `0x` prefix is read in base 10. */
  lemma ParseIntUnsigned(s: string)
    requires |s| > 0 && DigitValue(s[0], 10).Some?
    requires !(|s| >= 2 && s[0] == '0' && (s[1] == 'x' || s[1] == 'X'))
    ensures ParseInt(s) == ParseDigits(s, 10)
  {
    DecimalDigit(s[0]);
    assert TrimStart(s) == s;
  }

  /** The digits are read up to the first character that is not one. */
  lemma ParseDigitsPrefix(d: string, rest: string)
    requires |d| > 0 && AllDigits(d, 10)
    requires rest == [] || DigitValue(rest[0], 10).None?
    ensures ParseDigits(d + rest, 10) == Some(DigitsValue(d, 10))
  {
    DigitRunAppend(d, rest);
    assert (d + rest)[..|d|] == d;
  }

  /** `parseInt(duration.split(' ')[0])`: the minutes of one step, `None` for `NaN`. */
  function Minutes(duration: string): Option<int>
  {
    ParseInt(FirstToken(duration))
  }

  /** A duration written `"<n> min"` is worth `n` minutes. */
  lemma MinutesOfDuration(n: nat)
    ensures Minutes(DecimalString(n) + " min") == Some(n)
  {
    var d := DecimalString(n);
    FirstTokenOfWord(d, " min");
    ParseIntDecimal(n, "");
    assert d + "" == d;
  }

  lemma {:induction false} FirstTokenOfWord(word: string, rest: string)
    requires AllDigits(word, 10)
    requires rest == [] || rest[0] == ' '
    ensures FirstToken(word + rest) == word
    decreases |word|
  {
    if word != [] {
      assert (word + rest)[1..] == word[1..] + rest;
      assert word[0] != ' ' by { assert DigitValue(word[0], 10).Some?; }
      FirstTokenOfWord(word[1..], rest);
      assert word == [word[0]] + word[1..];
    } else {
      assert word + rest == rest;
    }
  }

  /** `NaN` absorbs: once any step's minutes are `NaN`, so is the total. */
  function AddMinutes(total: Option<int>, minutes: Option<int>): Option<int>
  {
    if total.Some? && minutes.Some? then Some(total.value + minutes.value) else None
  }

  /** `steps.reduce((total, step) => total + minutes(step), 0)`, folding from the left. */
  function TotalDuration(durations: seq<string>): Option<int>
  {
    if durations == [] then Some(0)
    else AddMinutes(TotalDuration(durations[..|durations| - 1]), Minutes(durations[|durations| - 1]))
  }

  /** One duration that does not start with a number makes the whole total `NaN`. */
  lemma {:induction false} TotalDurationNaN(durations: seq<string>, k: nat)
    requires k < |durations| && Minutes(durations[k]).None?
    ensures TotalDuration(durations).None?
    decreases |durations|
  {
    var init := durations[..|durations| - 1];
    if k < |durations| - 1 {
      assert init[k] == durations[k];
      TotalDurationNaN(init, k);
    }
  }

  /** The five steps' durations, in the order the section lists them. */
  const StepDurations: seq<string> := ["2 min", "5 min", "3 min", "3 min", "2 min"]

  /** A one-digit duration `"<c> min"` is worth the digit's value in minutes. */
  lemma MinutesOfDigit(c: char)
    requires '0' <= c <= '9'
    ensures Minutes([c] + " min") == Some(c as int - '0' as int)
  {
    var n := c as int - '0' as int;
    assert DecimalString(n) == [c];
    MinutesOfDuration(n);
  }

  /** A duration written as one decimal digit followed by `" min"`, as every step's is. */
  predicate OneDigitDuration(d: string)
  {
    |d| == 5 && '0' <= d[0] <= '9' && d[1] == ' ' && d[2] == 'm' && d[3] == 'i' && d[4] == 'n'
  }

  /** The minutes a one-digit duration names: its leading digit's value. */
  function LeadingDigit(d: string): int
  {
    if |d| > 0 then d[0] as int - '0' as int else 0
  }

  /** The sum of the leading digits of all durations. */
  function DigitSum(durations: seq<string>): int
  {
    if durations == [] then 0
    else DigitSum(durations[..|durations| - 1]) + LeadingDigit(durations[|durations| - 1])
  }

  lemma MinutesOfOneDigit(d: string)
    requires OneDigitDuration(d)
    ensures Minutes(d) == Some(LeadingDigit(d))
  {
    assert d == [d[0]] + " min";
    MinutesOfDigit(d[0]);
  }

  /** Steps whose durations are all `"<digit> min"` total the sum of those digits, never `NaN`. */
  lemma {:induction false} TotalDurationOfOneDigitSteps(durations: seq<string>)
    requires forall i :: 0 <= i < |durations| ==> OneDigitDuration(durations[i])
    ensures TotalDuration(durations) == Some(DigitSum(durations))
    decreases |durations|
  {
    if durations != [] {
      var init := durations[..|durations| - 1];
      assert forall i :: 0 <= i < |init| ==> init[i] == durations[i];
      TotalDurationOfOneDigitSteps(init);
      var last := durations[|durations| - 1];
      MinutesOfOneDigit(last);
      assert TotalDuration(durations) == AddMinutes(TotalDuration(init), Minutes(last));
      assert DigitSum(durations) == DigitSum(init) + LeadingDigit(last);
    }
  }

  /** The headline reads "Start in 15 Minutes". */
  lemma TotalDurationOfSteps()
    ensures TotalDuration(StepDurations) == Some(15)
  {
    assert OneDigitDuration(StepDurations[0]) && OneDigitDuration(StepDurations[1]);
    assert OneDigitDuration(StepDurations[2]) && OneDigitDuration(StepDurations[3]);
    assert OneDigitDuration(StepDurations[4]);
    TotalDurationOfOneDigitSteps(StepDurations);
    var s := StepDurations;
    assert s[..1][..0] == [] && DigitSum(s[..1]) == 2;
    assert s[..2][..1] == s[..1] && DigitSum(s[..2]) == 7;
    assert s[..3][..2] == s[..2] && DigitSum(s[..3]) == 10;
    assert s[..4][..3] == s[..3] && DigitSum(s[..4]) == 13;
    assert s[..4] == s[..5][..4] && s[..5] == s;
  }

  // ---------------------------------------------------------------------------
  // Colour classes
  // ---------------------------------------------------------------------------

  datatype Variant = Bg | Text | Border

  /** The colours the table knows. */
  const KnownColors: set<string> := {"blue", "green", "orange", "purple"}

  /** One row of the colour table. */
  datatype ColorSet = ColorSet(bg: string, text: string, border: string)

  /** The table's row for `color`, if it has one. */
  function ColorRow(color: string): Option<ColorSet>
  {
    if color == "blue" then Some(ColorSet("bg-blue-600", "text-blue-600", "border-blue-500"))
    else if color == "green" then Some(ColorSet("bg-green-600", "text-green-600", "border-green-500"))
    else if color == "orange" then Some(ColorSet("bg-orange-600", "text-orange-600", "border-orange-500"))
    else if color == "purple" then Some(ColorSet("bg-purple-600", "text-purple-600", "border-purple-500"))
    else None
  }

  function Select(row: ColorSet, variant: Variant): string
  {
    match variant
    case Bg => row.bg
    case Text => row.text
    case Border => row.border
  }

  /** `colors[color]?.[variant] || colors.blue[variant]`: a missing row or an empty class falls back to blue. */
  function ColorClasses(color: string, variant: Variant): string
  {
    var row := ColorRow(color);
    if row.Some? && Select(row.value, variant) != "" then Select(row.value, variant)
    else Select(ColorRow("blue").value, variant)
  }

  /** The class pattern every entry of the table follows: `<kind>-<colour>-<shade>`. */
  function ClassName(color: string, variant: Variant): string
  {
    match variant
    case Bg => "bg-" + color + "-600"
    case Text => "text-" + color + "-600"
    case Border => "border-" + color + "-500"
  }

  /** A known colour gets its own classes; any other string gets blue's. */
  lemma ColorClassesLookup(color: string, variant: Variant)
    ensures color in KnownColors ==> ColorClasses(color, variant) == ClassName(color, variant)
    ensures color !in KnownColors ==> ColorClasses(color, variant) == ClassName("blue", variant)
  {
    if color in KnownColors {
      RowFollowsPattern(color, variant);
    } else {
      assert ColorRow(color).None?;
      RowFollowsPattern("blue", variant);
    }
  }

  /** Every row of the table names its colour in each of its three classes. */
  lemma RowFollowsPattern(color: string, variant: Variant)
    requires color in KnownColors
    ensures ColorRow(color).Some? && Select(ColorRow(color).value, variant) == ClassName(color, variant)
    ensures Select(ColorRow(color).value, variant) != ""
  {
    match variant
    case Bg => BgPattern(color);
    case Text => TextPattern(color);
    case Border => BorderPattern(color);
  }

  lemma BgPattern(color: string)
    requires color in KnownColors
    ensures ColorRow(color).Some? && ColorRow(color).value.bg == ClassName(color, Bg)
  {
    assert "bg-" + "blue" + "-600" == "bg-blue-600";
    assert "bg-" + "green" + "-600" == "bg-green-600";
    assert "bg-" + "orange" + "-600" == "bg-orange-600";
    assert "bg-" + "purple" + "-600" == "bg-purple-600";
  }

  lemma TextPattern(color: string)
    requires color in KnownColors
    ensures ColorRow(color).Some? && ColorRow(color).value.text == ClassName(color, Text)
  {
    assert "text-" + "blue" + "-600" == "text-blue-600";
    assert "text-" + "green" + "-600" == "text-green-600";
    assert "text-" + "orange" + "-600" == "text-orange-600";
    assert "text-" + "purple" + "-600" == "text-purple-600";
  }

  lemma BorderPattern(color: string)
    requires color in KnownColors
    ensures ColorRow(color).Some? && ColorRow(color).value.border == ClassName(color, Border)
  {
    assert "border-" + "blue" + "-500" == "border-blue-500";
    assert "border-" + "green" + "-500" == "border-green-500";
    assert "border-" + "orange" + "-500" == "border-orange-500";
    assert "border-" + "purple" + "-500" == "border-purple-500";
  }
}
