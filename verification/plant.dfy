/**
 * The plant entity of the crop calendar: the best-effort integer parse of a
 * raw catalog cell, the immutable plant record with its five optional growth
 * stages, the total growth time, the "N/A" placeholder of the summary, and
 * the mapping of a keyed catalog row to the constructor's arguments.
 */
module Plants {
  import opened Wrappers

  /** A raw value as it reaches the plant code: text, an integer, or Python's None. */
  datatype Raw = Str(s: string) | Int(n: int) | NoneVal

  // ---------------------------------------------------------------------------
  // Decimal text, as Python's int() reads it and str() writes it

  /**
   * The characters int() skips around ASCII text: space, tab, line feed,
   * vertical tab, form feed and carriage return. The separators '\x1c' to
   * '\x1f', which str.strip() would remove, are not among them.
   */
  predicate IsSpace(c: char) {
    ('\t' <= c <= '\r') || c == ' '
  }

  predicate AllSpace(s: string) {
    forall i :: 0 <= i < |s| ==> IsSpace(s[i])
  }

  predicate IsDigit(c: char) {
    '0' <= c <= '9'
  }

  predicate AllDigits(s: string) {
    forall i :: 0 <= i < |s| ==> IsDigit(s[i])
  }

  predicate IsSign(c: char) {
    c == '+' || c == '-'
  }

  /** The value of a string of decimal digits, most significant digit first. */
  function DigitsValue(d: string): nat
    requires AllDigits(d)
  {
    if d == [] then 0 else 10 * DigitsValue(d[..|d| - 1]) + (d[|d| - 1] as int - '0' as int)
  }

  /** `s` without its leading whitespace. */
  function TrimStart(s: string): string {
    if s != [] && IsSpace(s[0]) then TrimStart(s[1..]) else s
  }

  /** `s` without its trailing whitespace. */
  function TrimEnd(s: string): string {
    if s != [] && IsSpace(s[|s| - 1]) then TrimEnd(s[..|s| - 1]) else s
  }

  function Strip(s: string): string {
    TrimEnd(TrimStart(s))
  }

  /**
   * Python's int() applied to text: after stripping whitespace, an optional
   * sign followed by at least one decimal digit. Anything else is the
   * ValueError that parse_int turns into None.
   */
  function ParseText(s: string): Option<int> {
    ParseCore(Strip(s))
  }

  /** int() on text with no surrounding whitespace: an optional sign, then at least one digit. */
  function ParseCore(t: string): Option<int> {
    if t == [] then None
    else if IsSign(t[0]) then
      if |t| > 1 && AllDigits(t[1..]) then
        Some(if t[0] == '-' then -(DigitsValue(t[1..]) as int) else DigitsValue(t[1..]))
      else None
    else if AllDigits(t) then Some(DigitsValue(t))
    else None
  }

  function DigitChar(k: nat): (c: char)
    requires k < 10
    ensures IsDigit(c) && c as int - '0' as int == k
  {
    ('0' as int + k) as char
  }

  /** Python's str() of a non-negative integer. */
  function ShowNat(n: nat): (s: string)
    ensures s != [] && AllDigits(s)
  {
    if n < 10 then [DigitChar(n)] else ShowNat(n / 10) + [DigitChar(n % 10)]
  }

  /** Python's str() of an integer. */
  function ShowInt(n: int): (s: string)
    ensures n >= 0 ==> s != [] && AllDigits(s)
    ensures n < 0 ==> |s| > 1 && s[0] == '-' && AllDigits(s[1..])
  {
    if n < 0 then "-" + ShowNat(-n) else ShowNat(n)
  }

  // ---------------------------------------------------------------------------
  // Plant.parse_int

  /**
   * Plant.parse_int: int(value), or None when int() raises ValueError or
   * TypeError. It never fails, and it does not reject negative values.
   */
  function ParseInt(value: Raw): (r: Option<int>)
    ensures value.Int? ==> r == Some(value.n)
    ensures value.NoneVal? ==> r == None
  {
    match value
    case Int(n) => Some(n)
    case NoneVal => None
    case Str(s) => ParseText(s)
  }

  /** The whitespace TrimStart removes: `s` is that whitespace followed by TrimStart(s). */
  lemma {:induction false} LeadingSpaces(s: string) returns (a: string)
    ensures AllSpace(a) && s == a + TrimStart(s)
  {
    if s != [] && IsSpace(s[0]) {
      var rest := LeadingSpaces(s[1..]);
      a := [s[0]] + rest;
      calc {
        a + TrimStart(s);
        [s[0]] + (rest + TrimStart(s[1..]));
        [s[0]] + s[1..];
        s;
      }
    } else {
      a := [];
    }
  }

  /** The whitespace TrimEnd removes: `s` is TrimEnd(s) followed by that whitespace. */
  lemma {:induction false} TrailingSpaces(s: string) returns (b: string)
    ensures AllSpace(b) && s == TrimEnd(s) + b
  {
    if s != [] && IsSpace(s[|s| - 1]) {
      var rest := TrailingSpaces(s[..|s| - 1]);
      b := rest + [s[|s| - 1]];
      calc {
        TrimEnd(s) + b;
        (TrimEnd(s[..|s| - 1]) + rest) + [s[|s| - 1]];
        s[..|s| - 1] + [s[|s| - 1]];
        s;
      }
    } else {
      b := [];
    }
  }

  lemma {:induction false} TrimStartSpaces(a: string, rest: string)
    requires AllSpace(a)
    requires rest == [] || !IsSpace(rest[0])
    ensures TrimStart(a + rest) == rest
  {
    if a != [] {
      assert (a + rest)[1..] == a[1..] + rest;
      TrimStartSpaces(a[1..], rest);
    }
  }

  lemma {:induction false} TrimEndSpaces(rest: string, b: string)
    requires AllSpace(b)
    requires rest == [] || !IsSpace(rest[|rest| - 1])
    ensures TrimEnd(rest + b) == rest
  {
    if b != [] {
      assert (rest + b)[..|rest + b| - 1] == rest + b[..|b| - 1];
      TrimEndSpaces(rest, b[..|b| - 1]);
    }
  }

  /** Whitespace around a text that neither starts nor ends with whitespace is all that Strip removes. */
  lemma StripPadded(a: string, core: string, b: string)
    requires AllSpace(a) && AllSpace(b)
    requires core != [] && !IsSpace(core[0]) && !IsSpace(core[|core| - 1])
    ensures Strip(a + core + b) == core
  {
    assert a + core + b == a + (core + b);
    TrimStartSpaces(a, core + b);
    TrimEndSpaces(core, b);
  }

  lemma ParseCoreSignedDigits(sign: string, d: string)
    requires sign == "" || sign == "+" || sign == "-"
    requires d != [] && AllDigits(d)
    ensures ParseCore(sign + d) == Some(if sign == "-" then -(DigitsValue(d) as int) else DigitsValue(d))
  {
    var t := sign + d;
    if sign == "" {
      assert t == d;
      assert !IsSign(t[0]);
    } else {
      assert t[0] == sign[0];
      assert t[1..] == d;
    }
  }

  /** Text that ParseCore accepts is an optional sign followed by digits. */
  lemma ParsedCoreShape(t: string) returns (sign: string, d: string)
    requires ParseCore(t).Some?
    ensures sign == "" || sign == "+" || sign == "-"
    ensures d != [] && AllDigits(d) && t == sign + d
  {
    if IsSign(t[0]) {
      sign, d := t[..1], t[1..];
      assert sign == [t[0]];
    } else {
      sign, d := "", t;
    }
  }

  /** The shape of a text that int() accepts: whitespace, an optional sign, digits, whitespace. */
  predicate SignedDigitsText(s: string, a: string, sign: string, d: string, b: string) {
    && AllSpace(a) && AllSpace(b)
    && (sign == "" || sign == "+" || sign == "-")
    && d != [] && AllDigits(d)
    && s == a + sign + d + b
  }

  /**
   * Every text of the form whitespace, optional sign, decimal digits,
   * whitespace parses to the value it denotes; a minus sign negates it.
   */
  lemma ParseSignedDigits(a: string, sign: string, d: string, b: string)
    requires SignedDigitsText(a + sign + d + b, a, sign, d, b)
    ensures ParseInt(Str(a + sign + d + b)) == Some(if sign == "-" then -(DigitsValue(d) as int) else DigitsValue(d))
  {
    var core := sign + d;
    assert a + sign + d + b == a + core + b;
    assert core[0] == if sign == "" then d[0] else sign[0];
    assert core[|core| - 1] == d[|d| - 1];
    StripPadded(a, core, b);
    ParseCoreSignedDigits(sign, d);
  }

  /** The pieces of a text that parses: the whitespace Strip removes and the sign and digits it keeps. */
  lemma SplitParsedText(s: string) returns (a: string, sign: string, d: string, b: string)
    requires ParseText(s).Some?
    ensures SignedDigitsText(s, a, sign, d, b)
  {
    var t := TrimStart(s);
    a := LeadingSpaces(s);
    b := TrailingSpaces(t);
    sign, d := ParsedCoreShape(TrimEnd(t));
    Regroup(s, a, t, b, sign, d);
  }

  lemma Regroup(s: string, a: string, t: string, b: string, sign: string, d: string)
    requires s == a + t && t == sign + d + b
    ensures s == a + sign + d + b
  {
  }

  /**
   * The converse of ParseSignedDigits: text that parses at all has the
   * shape whitespace, optional sign, digits, whitespace, and its value is
   * the signed value of those digits. Every other text, such as "+", "1 2"
   * or "--1", parses to None.
   */
  lemma ParsedTextIsSignedDigits(s: string)
    requires ParseInt(Str(s)).Some?
    ensures exists a, sign, d, b ::
      && SignedDigitsText(s, a, sign, d, b)
      && ParseInt(Str(s)) == Some(if sign == "-" then -(DigitsValue(d) as int) else DigitsValue(d))
  {
    var a, sign, d, b := SplitParsedText(s);
    ParseSignedDigits(a, sign, d, b);
  }

  /** An optional sign followed by decimal digits, with no whitespace around them. */
  lemma ParseBareSignedDigits(sign: string, d: string)
    requires sign == "" || sign == "+" || sign == "-"
    requires d != [] && AllDigits(d)
    ensures ParseInt(Str(sign + d)) == Some(if sign == "-" then -(DigitsValue(d) as int) else DigitsValue(d))
  {
    assert "" + sign + d + "" == sign + d;
    ParseSignedDigits("", sign, d, "");
  }

  lemma {:induction false} DigitsValueOfShowNat(n: nat)
    ensures DigitsValue(ShowNat(n)) == n
  {
    if n >= 10 {
      var s := ShowNat(n);
      assert s[..|s| - 1] == ShowNat(n / 10);
      DigitsValueOfShowNat(n / 10);
    }
  }

  /** parse_int reads back every integer that str() writes. */
  lemma ParseShowRoundTrip(n: int)
    ensures ParseInt(Str(ShowInt(n))) == Some(n)
  {
    var m: nat := if n < 0 then -n else n;
    var d := ShowNat(m);
    var sign := if n < 0 then "-" else "";
    assert ShowInt(n) == sign + d;
    DigitsValueOfShowNat(m);
    ParseBareSignedDigits(sign, d);
  }

  /** Every character of a text that parses is whitespace, a sign or a digit. */
  lemma ParsedTextCharacters(s: string, i: int)
    requires ParseInt(Str(s)).Some? && 0 <= i < |s|
    ensures IsSpace(s[i]) || IsSign(s[i]) || IsDigit(s[i])
  {
    var a, sign, d, b := SplitParsedText(s);
    if i < |a| {
      assert s[i] == a[i];
    } else if i < |a| + |sign| {
      assert s[i] == sign[i - |a|];
    } else if i < |a| + |sign| + |d| {
      assert s[i] == d[i - |a| - |sign|];
    } else {
      assert s[i] == b[i - |a| - |sign| - |d|];
    }
  }

  /** A text that parses holds at least one digit. */
  lemma ParsedTextDigit(s: string) returns (i: int)
    requires ParseInt(Str(s)).Some?
    ensures 0 <= i < |s| && IsDigit(s[i])
  {
    var a, sign, d, b := SplitParsedText(s);
    i := |a| + |sign|;
    assert s[i] == d[0];
  }

  /** Text holding a character that is neither whitespace, a sign nor a digit parses to None. */
  lemma NonNumericIsAbsent(s: string, i: int)
    requires 0 <= i < |s|
    requires !IsSpace(s[i]) && !IsDigit(s[i]) && !IsSign(s[i])
    ensures ParseInt(Str(s)) == None
  {
    if ParseInt(Str(s)).Some? {
      ParsedTextCharacters(s, i);
      assert false;
    }
  }

  /**
   * A file, group, record or unit separator ('\x1c' to '\x1f') anywhere in
   * the text makes int() raise ValueError, so parse_int gives None.
   */
  lemma SeparatorIsAbsent(s: string, i: int)
    requires 0 <= i < |s| && '\U{1C}' <= s[i] <= '\U{1F}'
    ensures ParseInt(Str(s)) == None
  {
    NonNumericIsAbsent(s, i);
  }

  /** Empty or all-whitespace text parses to None. */
  lemma BlankIsAbsent(s: string)
    requires AllSpace(s)
    ensures ParseInt(Str(s)) == None
  {
    if ParseInt(Str(s)).Some? {
      var i := ParsedTextDigit(s);
      assert false;
    }
  }

  // ---------------------------------------------------------------------------
  // The plant record

  /**
   * A plant: three text fields kept as given, five growth stages in days
   * (None when the stage does not apply or its cell was not an integer),
   * and a description.
   */
  datatype Plant = Plant(
    id: Raw,
    name: Raw,
    category: Raw,
    germination: Option<int>,
    seedlingStage: Option<int>,
    vegetativeGrowth: Option<int>,
    floweringRootDevelopment: Option<int>,
    fruitDevelopment: Option<int>,
    description: Raw)
  {
    /** The five stages in the order total_growth_time lists them. */
    function Stages(): (st: seq<Option<int>>)
      ensures |st| == 5
    {
      [germination, seedlingStage, vegetativeGrowth, floweringRootDevelopment, fruitDevelopment]
    }

    /** Plant.total_growth_time: the sum of the stages that are not None. */
    function TotalGrowthTime(): (total: int)
      ensures total == SumOrZero(Stages())
    {
      PresentSumIsSumOrZero(Stages());
      Sum(PresentValues(Stages()))
    }
  }

  /** Plant.__init__: the text fields are stored as given, each stage through parse_int. */
  function NewPlant(id: Raw, name: Raw, category: Raw, germination: Raw, seedlingStage: Raw,
                    vegetativeGrowth: Raw, floweringRootDevelopment: Raw, fruitDevelopment: Raw,
                    description: Raw): (p: Plant)
    ensures p.id == id && p.name == name && p.category == category && p.description == description
    ensures p.Stages() == [ParseInt(germination), ParseInt(seedlingStage), ParseInt(vegetativeGrowth),
                           ParseInt(floweringRootDevelopment), ParseInt(fruitDevelopment)]
  {
    Plant(id, name, category, ParseInt(germination), ParseInt(seedlingStage), ParseInt(vegetativeGrowth),
          ParseInt(floweringRootDevelopment), ParseInt(fruitDevelopment), description)
  }

  /** The values of the present stages, in order (the generator's filter). */
  function PresentValues(stages: seq<Option<int>>): seq<int> {
    if stages == [] then []
    else (if stages[0].Some? then [stages[0].value] else []) + PresentValues(stages[1..])
  }

  function Sum(xs: seq<int>): int {
    if xs == [] then 0 else xs[0] + Sum(xs[1..])
  }

  function ValueOrZero(stage: Option<int>): int {
    if stage.Some? then stage.value else 0
  }

  /** Reference definition: every stage contributes its value, an absent one 0. */
  function SumOrZero(stages: seq<Option<int>>): int {
    if stages == [] then 0 else ValueOrZero(stages[0]) + SumOrZero(stages[1..])
  }

  /** Summing only the present stages is summing all of them with absent ones as 0. */
  lemma {:induction false} PresentSumIsSumOrZero(stages: seq<Option<int>>)
    ensures Sum(PresentValues(stages)) == SumOrZero(stages)
  {
    if stages != [] {
      var head := if stages[0].Some? then [stages[0].value] else [];
      var tail := PresentValues(stages[1..]);
      assert PresentValues(stages) == head + tail;
      if stages[0].Some? {
        assert (head + tail)[1..] == tail;
      } else {
        assert head + tail == tail;
      }
      PresentSumIsSumOrZero(stages[1..]);
    }
  }

  /** total_growth_time is the sum of the five stages, an absent stage counting as 0. */
  lemma TotalGrowthTimeIsStageSum(p: Plant)
    ensures p.TotalGrowthTime() ==
      ValueOrZero(p.germination) + ValueOrZero(p.seedlingStage) + ValueOrZero(p.vegetativeGrowth) +
      ValueOrZero(p.floweringRootDevelopment) + ValueOrZero(p.fruitDevelopment)
  {
    var st := p.Stages();
    PresentSumIsSumOrZero(st);
    var s4 := [p.fruitDevelopment];
    assert s4[1..] == [];
    assert SumOrZero(s4) == ValueOrZero(p.fruitDevelopment);
    var s3 := [p.floweringRootDevelopment] + s4;
    assert s3[1..] == s4;
    assert SumOrZero(s3) == ValueOrZero(p.floweringRootDevelopment) + SumOrZero(s4);
    var s2 := [p.vegetativeGrowth] + s3;
    assert s2[1..] == s3;
    assert SumOrZero(s2) == ValueOrZero(p.vegetativeGrowth) + SumOrZero(s3);
    var s1 := [p.seedlingStage] + s2;
    assert s1[1..] == s2;
    assert SumOrZero(s1) == ValueOrZero(p.seedlingStage) + SumOrZero(s2);
    assert st == [p.germination] + s1 && st[1..] == s1;
    assert SumOrZero(st) == ValueOrZero(p.germination) + SumOrZero(s1);
  }

  /** A plant none of whose stages applies has total growth time 0. */
  lemma AllAbsentTotalIsZero(p: Plant)
    requires p.germination.None? && p.seedlingStage.None? && p.vegetativeGrowth.None?
    requires p.floweringRootDevelopment.None? && p.fruitDevelopment.None?
    ensures p.TotalGrowthTime() == 0
  {
    TotalGrowthTimeIsStageSum(p);
  }

  /** With no negative stage, the sum is non-negative and at least each present stage. */
  lemma {:induction false} StageAtMostSum(stages: seq<Option<int>>, i: int)
    requires forall k :: 0 <= k < |stages| && stages[k].Some? ==> stages[k].value >= 0
    requires 0 <= i < |stages| && stages[i].Some?
    ensures 0 <= stages[i].value <= SumOrZero(stages)
  {
    SumOrZeroNonNegative(stages[1..]);
    if i > 0 {
      StageAtMostSum(stages[1..], i - 1);
    }
  }

  lemma {:induction false} SumOrZeroNonNegative(stages: seq<Option<int>>)
    requires forall k :: 0 <= k < |stages| && stages[k].Some? ==> stages[k].value >= 0
    ensures SumOrZero(stages) >= 0
  {
    if stages != [] {
      SumOrZeroNonNegative(stages[1..]);
    }
  }

  /** If no present stage is negative, the total is at least every present stage. */
  lemma PresentStageAtMostTotal(p: Plant, i: int)
    requires forall k :: 0 <= k < 5 && p.Stages()[k].Some? ==> p.Stages()[k].value >= 0
    requires 0 <= i < 5 && p.Stages()[i].Some?
    ensures 0 <= p.Stages()[i].value <= p.TotalGrowthTime()
  {
    PresentSumIsSumOrZero(p.Stages());
    StageAtMostSum(p.Stages(), i);
  }

  // ---------------------------------------------------------------------------
  // The "N/A" placeholder of Plant.summary

  /**
   * How summary() shows one stage, `stage or 'N/A'`: Python treats 0 as
   * false, so a zero-day stage shows the placeholder just like an absent one.
   */
  function StageText(stage: Option<int>): (text: string)
    ensures text == "N/A" <==> stage.None? || stage == Some(0)
  {
    if stage.None? || stage.value == 0 then "N/A"
    else
      var text := ShowInt(stage.value);
      assert text[0] == '-' || IsDigit(text[0]);
      assert text[0] != "N/A"[0];
      text
  }

  /**
   * The placeholder appears exactly for an absent or zero stage; any other
   * stage is shown as text that parse_int reads back to the same value.
   */
  lemma StageTextPlaceholder(stage: Option<int>)
    ensures StageText(stage) != "N/A" ==> ParseInt(Str(StageText(stage))) == stage
  {
    if stage.Some? && stage.value != 0 {
      var t := ShowInt(stage.value);
      assert t[0] == '-' || IsDigit(t[0]);
      assert "N/A"[0] == 'N';
      ParseShowRoundTrip(stage.value);
    }
  }

  // ---------------------------------------------------------------------------
  // create_plant_instance

  /** The keys create_plant_instance reads with plant_data[...], in the order it reads them. */
  const RequiredKeys: seq<string> := [
    "id", "Name", "Category", "Germination", "Seedling Stage", "Vegetative Growth",
    "Flowering/Root Development", "Fruit Development"]

  /** The exception a dict raises for a missing key. */
  datatype KeyError = KeyError(key: string)

  /** The nine constructor arguments, in Plant.__init__'s parameter order. */
  type PlantArgs = (Raw, Raw, Raw, Raw, Raw, Raw, Raw, Raw, Raw)

  /** The eight keys create_plant_instance requires are all present. */
  predicate HasRequiredKeys(plantData: map<string, Raw>) {
    && "id" in plantData && "Name" in plantData && "Category" in plantData && "Germination" in plantData
    && "Seedling Stage" in plantData && "Vegetative Growth" in plantData
    && "Flowering/Root Development" in plantData && "Fruit Development" in plantData
  }

  /** The position of the first key of `keys` that `row` lacks, if any. */
  function FirstMissing(row: map<string, Raw>, keys: seq<string>): (r: Option<nat>)
    ensures r.None? <==> forall j :: 0 <= j < |keys| ==> keys[j] in row
    ensures r.Some? ==> r.value < |keys| && keys[r.value] !in row
    ensures r.Some? ==> forall j :: 0 <= j < r.value ==> keys[j] in row
  {
    if keys == [] then None
    else if keys[0] !in row then Some(0)
    else match FirstMissing(row, keys[1..])
      case None => None
      case Some(j) => Some(j + 1)
  }

  lemma RequiredKeysPresent(plantData: map<string, Raw>)
    ensures HasRequiredKeys(plantData) <==> forall j :: 0 <= j < |RequiredKeys| ==> RequiredKeys[j] in plantData
  {
    assert RequiredKeys[1] == "Name" && RequiredKeys[2] == "Category" && RequiredKeys[3] == "Germination";
    assert RequiredKeys[4] == "Seedling Stage" && RequiredKeys[5] == "Vegetative Growth";
    if HasRequiredKeys(plantData) {
      forall j | 0 <= j < |RequiredKeys| ensures RequiredKeys[j] in plantData {
        if j == 0 {} else if j == 1 {} else if j == 2 {} else if j == 3 {}
        else if j == 4 {} else if j == 5 {} else if j == 6 {} else {}
      }
    }
    if forall j :: 0 <= j < |RequiredKeys| ==> RequiredKeys[j] in plantData {
      assert RequiredKeys[0] in plantData && RequiredKeys[1] in plantData && RequiredKeys[2] in plantData;
      assert RequiredKeys[3] in plantData && RequiredKeys[4] in plantData && RequiredKeys[5] in plantData;
      assert RequiredKeys[6] in plantData && RequiredKeys[7] in plantData;
    }
  }

  /**
   * create_plant_instance: reads the eight required keys in order, so the
   * first one missing raises KeyError, reads the description with "" as its
   * default, and returns the constructor's argument tuple.
   */
  function CreatePlantInstance(plantData: map<string, Raw>): (r: Result<PlantArgs, KeyError>)
    ensures r.Success? <==> HasRequiredKeys(plantData)
    ensures r.Failure? ==>
      exists j :: (0 <= j < |RequiredKeys| && r.error == KeyError(RequiredKeys[j]) &&
                   RequiredKeys[j] !in plantData && forall i :: 0 <= i < j ==> RequiredKeys[i] in plantData)
    ensures r.Success? ==>
      r.value == (plantData["id"], plantData["Name"], plantData["Category"], plantData["Germination"],
                  plantData["Seedling Stage"], plantData["Vegetative Growth"],
                  plantData["Flowering/Root Development"], plantData["Fruit Development"],
                  if "Description" in plantData then plantData["Description"] else Str(""))
  {
    if HasRequiredKeys(plantData) then
      Success((plantData["id"], plantData["Name"], plantData["Category"], plantData["Germination"],
               plantData["Seedling Stage"], plantData["Vegetative Growth"],
               plantData["Flowering/Root Development"], plantData["Fruit Development"],
               if "Description" in plantData then plantData["Description"] else Str("")))
    else
      RequiredKeysPresent(plantData);
      var j := FirstMissing(plantData, RequiredKeys).value;
      Failure(KeyError(RequiredKeys[j]))
  }

  /**
   * The tuple lines up with Plant.__init__: building a plant from it stores
   * each column in the field of the same name.
   */
  lemma CreateThenConstruct(plantData: map<string, Raw>)
    requires HasRequiredKeys(plantData)
    ensures CreatePlantInstance(plantData).Success?
    ensures var a := CreatePlantInstance(plantData).value;
      var p := NewPlant(a.0, a.1, a.2, a.3, a.4, a.5, a.6, a.7, a.8);
      && p.id == plantData["id"] && p.name == plantData["Name"] && p.category == plantData["Category"]
      && p.germination == ParseInt(plantData["Germination"])
      && p.seedlingStage == ParseInt(plantData["Seedling Stage"])
      && p.vegetativeGrowth == ParseInt(plantData["Vegetative Growth"])
      && p.floweringRootDevelopment == ParseInt(plantData["Flowering/Root Development"])
      && p.fruitDevelopment == ParseInt(plantData["Fruit Development"])
      && p.description == if "Description" in plantData then plantData["Description"] else Str("")
  {
  }
}
