/**
 * `parse_sensor_block`: a block of text lines from the serial line becomes a
 * partial map from sensor column to number. Each line `<key>: <number> <unit>`
 * is split on its first `:`, the number is the first space-separated token of
 * the stripped remainder, and the key picks the column by substring match
 * against five tags tried in a fixed order. Later lines overwrite earlier ones.
 */
module Parser {
  import opened Wrappers
  import opened Text
  import opened Numbers

  /** The sensor columns of the `lecturas` table, in table order (every column but `Tiempo`). */
  const SensorColumns: seq<string> := ["TMP117_Temp", "BME680_Temp", "Humedad", "Presion", "Gas_Resistencia"]

  /** A key pattern and the column a line whose key contains it is stored under. */
  datatype Rule = Rule(pattern: string, column: string)

  /** The key tests of the parser, in the order it tries them. */
  const Rules: seq<Rule> := [
    Rule("TMP117 Temp", "TMP117_Temp"),
    Rule("BME680 Temp", "BME680_Temp"),
    Rule("Humedad", "Humedad"),
    Rule("Presion", "Presion"),
    Rule("Presi\U{F3}n", "Presion"),
    Rule("Gas Resistencia", "Gas_Resistencia")
  ]

  /** One recognised line: the column it fills and the number it carries. */
  datatype Field = Field(column: string, value: real)

  /** The `if`/`elif` chain over the key. */
  function ColumnFor(key: string): Option<string> {
    if Contains(key, "TMP117 Temp") then Some("TMP117_Temp")
    else if Contains(key, "BME680 Temp") then Some("BME680_Temp")
    else if Contains(key, "Humedad") then Some("Humedad")
    else if Contains(key, "Presion") || Contains(key, "Presi\U{F3}n") then Some("Presion")
    else if Contains(key, "Gas Resistencia") then Some("Gas_Resistencia")
    else None
  }

  /** Reference definition: the column of the first rule whose pattern occurs in the key. */
  function FirstRule(key: string, rules: seq<Rule>): (r: Option<string>)
    ensures r.None? <==> forall i :: 0 <= i < |rules| ==> !Contains(key, rules[i].pattern)
    ensures r.Some? ==>
      exists i :: 0 <= i < |rules| && Contains(key, rules[i].pattern) && r.value == rules[i].column &&
                  forall j :: 0 <= j < i ==> !Contains(key, rules[j].pattern)
  {
    if rules == [] then None
    else if Contains(key, rules[0].pattern) then Some(rules[0].column)
    else
      var r := FirstRule(key, rules[1..]);
      assert forall i :: 1 <= i < |rules| ==> rules[i] == rules[1..][i - 1];
      r
  }

  /** A line's contribution: `None` when it is skipped. */
  function ParseLine(line: string): Option<Field> {
    match SplitFirst(line, ':')
    case None => None
    case Some((key, rest)) =>
      match ParseDecimal(FirstToken(Strip(rest)))
      case None => None
      case Some(num) =>
        match ColumnFor(key)
        case None => None
        case Some(column) => Some(Field(column, num))
  }

  /** What each line contributes, in order. */
  function Contributions(lines: seq<string>): (r: seq<Option<Field>>)
    ensures |r| == |lines|
    ensures forall i :: 0 <= i < |lines| ==> r[i] == ParseLine(lines[i])
  {
    seq(|lines|, i requires 0 <= i < |lines| => ParseLine(lines[i]))
  }

  /** The left fold of the contributions into the dictionary: each one sets its column. */
  function Collect(fields: seq<Option<Field>>): map<string, real> {
    if fields == [] then map[]
    else
      var datos := Collect(fields[..|fields| - 1]);
      match fields[|fields| - 1]
      case None => datos
      case Some(f) => datos[f.column := f.value]
  }

  /** The parse of a block. */
  function ParseBlock(lines: seq<string>): map<string, real> {
    Collect(Contributions(lines))
  }

  /** `parse_sensor_block`: the loop over the lines, updating the dictionary `datos`. */
  method ParseSensorBlock(lines: seq<string>) returns (datos: map<string, real>)
    ensures datos == ParseBlock(lines)
  {
    ghost var fields := Contributions(lines);
    datos := map[];
    for i := 0 to |lines|
      invariant datos == Collect(fields[..i])
    {
      assert fields[..i + 1][..i] == fields[..i];
      var field := ParseLine(lines[i]);
      if field.Some? {
        datos := datos[field.value.column := field.value.value];
      }
    }
    assert fields[..|lines|] == fields;
  }

  // ----- properties of one line -----

  /** The `if`/`elif` chain is the first-match search over `Rules`. */
  lemma ColumnForIsFirstRule(key: string)
    ensures ColumnFor(key) == FirstRule(key, Rules)
  {
    SixRules(key, Rules);
  }

  /** Trying six rules in order is a chain of six tests. */
  lemma SixRules(key: string, rules: seq<Rule>)
    requires |rules| == 6
    ensures FirstRule(key, rules) ==
      if Contains(key, rules[0].pattern) then Some(rules[0].column)
      else if Contains(key, rules[1].pattern) then Some(rules[1].column)
      else if Contains(key, rules[2].pattern) then Some(rules[2].column)
      else if Contains(key, rules[3].pattern) then Some(rules[3].column)
      else if Contains(key, rules[4].pattern) then Some(rules[4].column)
      else if Contains(key, rules[5].pattern) then Some(rules[5].column)
      else None
  {
    assert rules[1..][0] == rules[1] && rules[1..][1..] == rules[2..];
    assert rules[2..][0] == rules[2] && rules[2..][1..] == rules[3..];
    assert rules[3..][0] == rules[3] && rules[3..][1..] == rules[4..];
    assert rules[4..][0] == rules[4] && rules[4..][1..] == rules[5..];
    assert rules[5..][0] == rules[5] && rules[5..][1..] == [];
  }

  /** Only the five sensor columns are ever filled, never `Tiempo`. */
  lemma ColumnForIsSensorColumn(key: string)
    ensures ColumnFor(key).Some? ==> ColumnFor(key).value in SensorColumns
  {
  }

  /**
   * A line is skipped when it has no `:` or when its token is not a number;
   * otherwise its column is the key's column and its value the token's number.
   */
  lemma ParseLineSkips(line: string)
    ensures ':' !in line ==> ParseLine(line) == None
    ensures ':' in line ==>
      var (key, rest) := SplitFirst(line, ':').value;
      (ParseDecimal(FirstToken(Strip(rest))).None? ==> ParseLine(line) == None) &&
      (ParseLine(line).Some? <==> ParseDecimal(FirstToken(Strip(rest))).Some? && ColumnFor(key).Some?) &&
      (ParseLine(line).Some? ==>
        ParseLine(line).value == Field(ColumnFor(key).value, ParseDecimal(FirstToken(Strip(rest))).value))
  {
    SplitFirstRoundTrip(line, ':');
  }

  /** Splitting `key + ":" + rest` on its first `:` gives back `key` and `rest` whenever `key` holds no `:`. */
  lemma SplitAtLabel(key: string, rest: string)
    requires ':' !in key
    ensures SplitFirst(key + ":" + rest, ':') == Some((key, rest))
  {
    SplitAt(key, rest, ':');
  }

  // ----- properties of the fold -----

  /** The contribution sets column `c`. */
  predicate Sets(f: Option<Field>, c: string) {
    f.Some? && f.value.column == c
  }

  /** Folding two runs of contributions one after the other: the later run overwrites the earlier one. */
  lemma {:induction false} CollectConcat(a: seq<Option<Field>>, b: seq<Option<Field>>)
    ensures Collect(a + b) == Collect(a) + Collect(b)
  {
    if b == [] {
      assert a + b == a;
    } else {
      var b' := b[..|b| - 1];
      assert (a + b)[..|a + b| - 1] == a + b';
      CollectConcat(a, b');
    }
  }

  /** A column is set exactly when some contribution sets it, and then by the LAST one that does. */
  lemma {:induction false} CollectLastWins(fields: seq<Option<Field>>, c: string)
    ensures c in Collect(fields) <==> exists i :: 0 <= i < |fields| && Sets(fields[i], c)
    ensures c in Collect(fields) ==>
      exists i :: 0 <= i < |fields| && fields[i] == Some(Field(c, Collect(fields)[c])) &&
                  forall j :: i < j < |fields| ==> !Sets(fields[j], c)
  {
    if fields != [] {
      var init := fields[..|fields| - 1];
      var n := |fields| - 1;
      var last := fields[n];
      CollectLastWins(init, c);
      assert forall i :: 0 <= i < n ==> fields[i] == init[i];
      if Sets(last, c) {
        assert Collect(fields) == Collect(init)[c := last.value.value];
        assert fields[n] == Some(Field(c, Collect(fields)[c]));
      } else {
        assert c in Collect(fields) <==> c in Collect(init);
        if c in Collect(init) {
          assert Collect(fields)[c] == Collect(init)[c];
          var i :| 0 <= i < |init| && init[i] == Some(Field(c, Collect(init)[c])) &&
                   forall j :: i < j < |init| ==> !Sets(init[j], c);
          assert fields[i] == Some(Field(c, Collect(fields)[c]));
          assert forall j :: i < j < |fields| ==> !Sets(fields[j], c);
        }
      }
    }
  }

  /** The fold is empty exactly when every contribution is `None`. */
  lemma {:induction false} CollectEmpty(fields: seq<Option<Field>>)
    ensures Collect(fields) == map[] <==> forall i :: 0 <= i < |fields| ==> fields[i].None?
  {
    if fields != [] {
      var init := fields[..|fields| - 1];
      CollectEmpty(init);
      assert forall i :: 0 <= i < |init| ==> fields[i] == init[i];
      var last := fields[|fields| - 1];
      if last.Some? {
        assert last.value.column in Collect(fields);
      }
    }
  }

  // ----- properties of a block -----

  /** A recognised line fills a sensor column. */
  lemma ParseLineColumn(line: string)
    ensures ParseLine(line).Some? ==> ParseLine(line).value.column in SensorColumns
  {
    SplitFirstRoundTrip(line, ':');
    if ParseLine(line).Some? {
      ColumnForIsSensorColumn(SplitFirst(line, ':').value.0);
    }
  }

  /** A parsed block only ever has sensor columns as keys: never `Tiempo`, never anything else. */
  lemma ParseBlockKeys(lines: seq<string>)
    ensures forall c :: c in ParseBlock(lines) ==> c in SensorColumns
  {
    var fields := Contributions(lines);
    forall c | c in ParseBlock(lines) ensures c in SensorColumns {
      CollectLastWins(fields, c);
      var i :| 0 <= i < |fields| && Sets(fields[i], c);
      ParseLineColumn(lines[i]);
    }
  }

  /** Parsing two runs of lines one after the other: the later run overwrites the earlier one. */
  lemma ParseBlockConcat(a: seq<string>, b: seq<string>)
    ensures ParseBlock(a + b) == ParseBlock(a) + ParseBlock(b)
  {
    assert Contributions(a + b) == Contributions(a) + Contributions(b);
    CollectConcat(Contributions(a), Contributions(b));
  }

  /**
   * A column is filled exactly when some line fills it, and then with the value
   * of the LAST line that fills it.
   */
  lemma ParseBlockLastWins(lines: seq<string>, c: string)
    ensures c in ParseBlock(lines) <==> exists i :: 0 <= i < |lines| && Sets(ParseLine(lines[i]), c)
    ensures c in ParseBlock(lines) ==>
      exists i :: 0 <= i < |lines| && ParseLine(lines[i]) == Some(Field(c, ParseBlock(lines)[c])) &&
                  forall j :: i < j < |lines| ==> !Sets(ParseLine(lines[j]), c)
  {
    var fields := Contributions(lines);
    CollectLastWins(fields, c);
  }

  /** The parse is empty exactly when every line is skipped. */
  lemma ParseBlockEmpty(lines: seq<string>)
    ensures ParseBlock(lines) == map[] <==> forall i :: 0 <= i < |lines| ==> ParseLine(lines[i]).None?
  {
    CollectEmpty(Contributions(lines));
  }

  /**
   * A sensor line `<key>: <token> <unit>` whose key holds no `:` and matches a
   * tag, and whose token is a number, fills the tag's column with that number.
   */
  lemma TaggedLine(key: string, token: string, unit: string)
    requires ':' !in key && ColumnFor(key).Some?
    requires token != [] && forall k :: 0 <= k < |token| ==> !IsSpace(token[k])
    requires ParseDecimal(token).Some?
    ensures ParseLine(SensorLine(key, token, unit)) == Some(Field(ColumnFor(key).value, ParseDecimal(token).value))
  {
    var rest := " " + token + " " + unit;
    assert key + ": " + token + " " + unit == key + ":" + rest;
    SplitAtLabel(key, rest);
    ValueToken(token, unit);
  }

  /**
   * A well-formed sensor line `<key>: <digits> <unit>`, whose key matches a tag,
   * fills the tag's column with the number the digits spell.
   */
  lemma WellFormedLine(key: string, n: nat, unit: string)
    requires ':' !in key && ColumnFor(key).Some?
    ensures ParseLine(SensorLine(key, NatToDigits(n), unit)) == Some(Field(ColumnFor(key).value, n as real))
  {
    var digits := NatToDigits(n);
    assert forall k :: 0 <= k < |digits| ==> !IsSpace(digits[k]) by {
      forall k | 0 <= k < |digits| ensures !IsSpace(digits[k]) { assert IsDigit(digits[k]); }
    }
    ParseDecimalRoundTrip(n);
    TaggedLine(key, digits, unit);
  }

  /** The token read from ` <token> <unit>` is the token, when it holds no whitespace. */
  lemma ValueToken(token: string, unit: string)
    requires token != [] && forall k :: 0 <= k < |token| ==> !IsSpace(token[k])
    ensures FirstToken(Strip(" " + token + " " + unit)) == token
  {
    var rest := " " + token + " " + unit;
    assert !IsSpace(token[0]);
    assert StripStart(rest) == token + " " + unit by { assert rest[1..] == token + " " + unit; }
    StripEndKeepsPrefix(token, " " + unit);
    StripEndSpec(token + " " + unit);
    assert token + " " + unit == token + (" " + unit);
    assert ' ' !in token by {
      forall k | 0 <= k < |token| ensures token[k] != ' ' { assert !IsSpace(token[k]); }
    }
    FirstTokenOf(token, Strip(rest));
  }

  /** Stripping the end of `d + tail` keeps `d` whole when `d` ends in a non-space. */
  lemma StripEndKeepsPrefix(d: string, tail: string)
    requires d != [] && !IsSpace(d[|d| - 1])
    ensures |StripEnd(d + tail)| >= |d| && StripEnd(d + tail)[..|d|] == d
  {
    var s := d + tail;
    StripEndSpec(s);
    assert s[|d| - 1] == d[|d| - 1];
    assert StripEnd(s)[..|d|] == s[..|d|];
  }

  /** The first token of `d` followed by nothing or by a space is `d`, when `d` has no space. */
  lemma FirstTokenOf(d: string, s: string)
    requires ' ' !in d && |s| >= |d| && s[..|d|] == d
    requires |s| == |d| || s[|d|] == ' '
    ensures FirstToken(s) == d
  {
    var r := FirstToken(s);
    assert forall k :: 0 <= k < |d| ==> s[k] == d[k];
  }

  // ----- the recorded examples -----

  /** Two lines without a `:` give the empty map, and so does no line at all. */
  lemma ParseNoise()
    ensures ParseBlock(["foo", "bar"]) == map[]
    ensures ParseBlock([]) == map[]
  {
    assert ':' !in "foo" && ':' !in "bar";
    ParseLineSkips("foo");
    ParseLineSkips("bar");
    ParseBlockEmpty(["foo", "bar"]);
    ParseBlockEmpty([]);
  }

  lemma TagTmp117()
    ensures ColumnFor("TMP117 Temp") == Some("TMP117_Temp")
  {
    ContainsSelf("TMP117 Temp");
  }

  lemma TagBme680()
    ensures ColumnFor("BME680 Temp") == Some("BME680_Temp")
  {
    ContainsSelf("BME680 Temp");
    Absent("BME680 Temp", "TMP117 Temp", '1');
  }

  lemma TagHumedad()
    ensures ColumnFor("Humedad") == Some("Humedad")
  {
    ContainsSelf("Humedad");
    Absent("Humedad", "TMP117 Temp", 'T');
    Absent("Humedad", "BME680 Temp", 'B');
  }

  lemma TagPresion()
    ensures ColumnFor("Presion") == Some("Presion")
  {
    ContainsSelf("Presion");
    Absent("Presion", "TMP117 Temp", 'T');
    Absent("Presion", "BME680 Temp", 'B');
    Absent("Presion", "Humedad", 'H');
  }

  lemma TagGas()
    ensures ColumnFor("Gas Resistencia") == Some("Gas_Resistencia")
  {
    ContainsSelf("Gas Resistencia");
    GasNoEarlierTag();
  }

  lemma GasNoEarlierTag()
    ensures !Contains("Gas Resistencia", "TMP117 Temp") && !Contains("Gas Resistencia", "BME680 Temp")
    ensures !Contains("Gas Resistencia", "Humedad") && !Contains("Gas Resistencia", "Presion")
    ensures !Contains("Gas Resistencia", "Presi\U{F3}n")
  {
    Absent("Gas Resistencia", "TMP117 Temp", 'T');
    Absent("Gas Resistencia", "BME680 Temp", 'B');
    Absent("Gas Resistencia", "Humedad", 'H');
    Absent("Gas Resistencia", "Presion", 'P');
    Absent("Gas Resistencia", "Presi\U{F3}n", 'P');
  }

  /** `p` does not occur in `s` when one of its characters does not. */
  lemma Absent(s: string, p: string, x: char)
    requires x in p && x !in s
    ensures !Contains(s, p)
  {
    if Contains(s, p) {
      ContainsChars(s, p, x);
    }
  }

  /** A token `float()` accepts is non-empty and holds no whitespace. */
  lemma NumeralToken(token: string)
    requires ParseDecimal(token).Some?
    ensures token != [] && forall k :: 0 <= k < |token| ==> !IsSpace(token[k])
  {
    forall k | 0 <= k < |token| ensures !IsSpace(token[k]) {
      assert IsNumeral(token[k]);
    }
  }

  /** The text of a sensor line as the device sends it: `<key>: <token> <unit>`. */
  function SensorLine(key: string, token: string, unit: string): string {
    key + ": " + token + " " + unit
  }

  /** A sensor line whose key starts and whose unit ends with a visible character is its own `strip()`. */
  lemma SensorLineStripped(key: string, token: string, unit: string)
    requires key != [] && unit != [] && !IsSpace(key[0]) && !IsSpace(unit[|unit| - 1])
    ensures Strip(SensorLine(key, token, unit)) == SensorLine(key, token, unit)
  {
    var l := SensorLine(key, token, unit);
    assert l[0] == key[0];
    assert l[|l| - 1] == unit[|unit| - 1];
    StripPlain(l);
  }

  /**
   * A block as the board prints it: the five sensor lines carrying `tokens`, in
   * column order, with their units, and a closing empty line.
   */
  function BoardBlock(tokens: seq<string>): seq<string>
    requires |tokens| == 5
  {
    [SensorLine("TMP117 Temp", tokens[0], "C"), SensorLine("BME680 Temp", tokens[1], "C"),
     SensorLine("Humedad", tokens[2], "%"), SensorLine("Presion", tokens[3], "hPa"),
     SensorLine("Gas Resistencia", tokens[4], "kOhm"), ""]
  }

  /** The five columns filled with `values`, in column order. */
  function FiveColumns(values: seq<real>): map<string, real>
    requires |values| == 5
  {
    map["TMP117_Temp" := values[0], "BME680_Temp" := values[1], "Humedad" := values[2],
        "Presion" := values[3], "Gas_Resistencia" := values[4]]
  }

  /** A board block whose tokens are numbers parses to those numbers, one per column. */
  lemma BoardBlockParses(tokens: seq<string>, values: seq<real>)
    requires |tokens| == 5 && |values| == 5
    requires forall i :: 0 <= i < 5 ==> ParseDecimal(tokens[i]) == Some(values[i])
    ensures ParseBlock(BoardBlock(tokens)) == FiveColumns(values)
  {
    LineTmp117(tokens[0], values[0]);
    LineBme680(tokens[1], values[1]);
    LineHumedad(tokens[2], values[2]);
    LinePresion(tokens[3], values[3]);
    LineGas(tokens[4], values[4]);
    ParseLineSkips("");
    SixLines(SensorLine("TMP117 Temp", tokens[0], "C"), SensorLine("BME680 Temp", tokens[1], "C"),
             SensorLine("Humedad", tokens[2], "%"), SensorLine("Presion", tokens[3], "hPa"),
             SensorLine("Gas Resistencia", tokens[4], "kOhm"), "");
    FiveFields(values);
  }

  lemma LineTmp117(token: string, v: real)
    requires ParseDecimal(token) == Some(v)
    ensures ParseLine(SensorLine("TMP117 Temp", token, "C")) == Some(Field("TMP117_Temp", v))
  {
    TagTmp117();
    BoardLine("TMP117 Temp", token, "C", "TMP117_Temp", v);
  }

  lemma LineBme680(token: string, v: real)
    requires ParseDecimal(token) == Some(v)
    ensures ParseLine(SensorLine("BME680 Temp", token, "C")) == Some(Field("BME680_Temp", v))
  {
    TagBme680();
    BoardLine("BME680 Temp", token, "C", "BME680_Temp", v);
  }

  lemma LineHumedad(token: string, v: real)
    requires ParseDecimal(token) == Some(v)
    ensures ParseLine(SensorLine("Humedad", token, "%")) == Some(Field("Humedad", v))
  {
    TagHumedad();
    BoardLine("Humedad", token, "%", "Humedad", v);
  }

  lemma LinePresion(token: string, v: real)
    requires ParseDecimal(token) == Some(v)
    ensures ParseLine(SensorLine("Presion", token, "hPa")) == Some(Field("Presion", v))
  {
    TagPresion();
    BoardLine("Presion", token, "hPa", "Presion", v);
  }

  lemma LineGas(token: string, v: real)
    requires ParseDecimal(token) == Some(v)
    ensures ParseLine(SensorLine("Gas Resistencia", token, "kOhm")) == Some(Field("Gas_Resistencia", v))
  {
    TagGas();
    BoardLine("Gas Resistencia", token, "kOhm", "Gas_Resistencia", v);
  }

  /** One sensor line whose key selects `column` and whose token is the number `v`. */
  lemma BoardLine(key: string, token: string, unit: string, column: string, v: real)
    requires ':' !in key && ColumnFor(key) == Some(column) && ParseDecimal(token) == Some(v)
    ensures ParseLine(SensorLine(key, token, unit)) == Some(Field(column, v))
  {
    NumeralToken(token);
    TaggedLine(key, token, unit);
  }

  /** The contributions of six lines are those of each line. */
  lemma SixLines(l0: string, l1: string, l2: string, l3: string, l4: string, l5: string)
    ensures ParseBlock([l0, l1, l2, l3, l4, l5])
         == Collect([ParseLine(l0), ParseLine(l1), ParseLine(l2), ParseLine(l3), ParseLine(l4), ParseLine(l5)])
  {
    var c := Contributions([l0, l1, l2, l3, l4, l5]);
    assert c == [ParseLine(l0), ParseLine(l1), ParseLine(l2), ParseLine(l3), ParseLine(l4), ParseLine(l5)];
  }

  /** Folding the five column fields and a skipped line. */
  lemma FiveFields(v: seq<real>)
    requires |v| == 5
    ensures Collect([Some(Field("TMP117_Temp", v[0])), Some(Field("BME680_Temp", v[1])),
                     Some(Field("Humedad", v[2])), Some(Field("Presion", v[3])),
                     Some(Field("Gas_Resistencia", v[4])), None]) == FiveColumns(v)
  {
    var fields := [Some(Field("TMP117_Temp", v[0])), Some(Field("BME680_Temp", v[1])),
                   Some(Field("Humedad", v[2])), Some(Field("Presion", v[3])),
                   Some(Field("Gas_Resistencia", v[4])), None];
    assert fields[..0] == [];
    assert Collect(fields[..1]) == map["TMP117_Temp" := v[0]] by { assert fields[..1][..0] == []; }
    assert Collect(fields[..2]) == map["TMP117_Temp" := v[0], "BME680_Temp" := v[1]] by {
      assert fields[..2][..1] == fields[..1];
    }
    assert Collect(fields[..3]) == map["TMP117_Temp" := v[0], "BME680_Temp" := v[1], "Humedad" := v[2]] by {
      assert fields[..3][..2] == fields[..2];
    }
    assert Collect(fields[..4]) == map["TMP117_Temp" := v[0], "BME680_Temp" := v[1], "Humedad" := v[2],
                                       "Presion" := v[3]] by {
      assert fields[..4][..3] == fields[..3];
    }
    assert Collect(fields[..5]) == FiveColumns(v) by {
      assert fields[..5][..4] == fields[..4];
    }
    assert fields[..6][..5] == fields[..5];
  }

  /** `<a><b>.<d>` for single digits `a`, `b` and `d`. */
  lemma TwoDigitsPoint(a: nat, b: nat, d: nat)
    requires a < 10 && b < 10 && d < 10
    ensures ParseDecimal([DigitChar(a), DigitChar(b), '.', DigitChar(d)]) == Some((10 * a + b) as real + d as real / 10.0)
  {
    var whole, frac := [DigitChar(a), DigitChar(b)], [DigitChar(d)];
    assert DigitsValue(whole) == 10 * a + b by {
      assert whole[..1] == [DigitChar(a)] && [DigitChar(a)][..0] == [];
      assert DigitsValue([DigitChar(a)]) == a;
      assert whole[1] == DigitChar(b);
    }
    assert DigitsValue(frac) == d by { assert frac[..0] == []; }
    assert Pow10(|frac|) == 10;
    DecimalToken(whole, frac, (10 * a + b) as real + d as real / 10.0);
    assert whole + "." + frac == [DigitChar(a), DigitChar(b), '.', DigitChar(d)];
  }

  /** The block of the recorded parser example parses to its five values. */
  lemma RecordedBlock(tokens: seq<string>, values: seq<real>)
    requires tokens == ["25.2", "25.6", "40", "1015", "900"]
    requires values == [25.2, 25.6, 40.0, 1015.0, 900.0]
    ensures ParseBlock(BoardBlock(tokens))
         == map["TMP117_Temp" := 25.2, "BME680_Temp" := 25.6, "Humedad" := 40.0,
                "Presion" := 1015.0, "Gas_Resistencia" := 900.0]
  {
    RecordedNumbers(tokens, values);
    BoardBlockParses(tokens, values);
  }

  /** The tokens of the same example, one number each. */
  lemma RecordedNumbers(tokens: seq<string>, values: seq<real>)
    requires tokens == ["25.2", "25.6", "40", "1015", "900"]
    requires values == [25.2, 25.6, 40.0, 1015.0, 900.0]
    ensures forall i :: 0 <= i < 5 ==> ParseDecimal(tokens[i]) == Some(values[i])
  {
    forall i | 0 <= i < 5 ensures ParseDecimal(tokens[i]) == Some(values[i]) {
      if i == 0 { Number25Point2(); }
      else if i == 1 { Number25Point6(); }
      else if i == 2 { Number40(); }
      else if i == 3 { Number1015(); }
      else { Number900(); }
    }
  }

  /** The block of the recorded full-flow example parses to its five values. */
  lemma FullFlowBlock(tokens: seq<string>, values: seq<real>)
    requires tokens == ["20.0", "21.0", "50", "1000", "200"]
    requires values == [20.0, 21.0, 50.0, 1000.0, 200.0]
    ensures ParseBlock(BoardBlock(tokens))
         == map["TMP117_Temp" := 20.0, "BME680_Temp" := 21.0, "Humedad" := 50.0,
                "Presion" := 1000.0, "Gas_Resistencia" := 200.0]
  {
    FullFlowNumbers(tokens, values);
    BoardBlockParses(tokens, values);
  }

  /** The tokens of the same example, one number each. */
  lemma FullFlowNumbers(tokens: seq<string>, values: seq<real>)
    requires tokens == ["20.0", "21.0", "50", "1000", "200"]
    requires values == [20.0, 21.0, 50.0, 1000.0, 200.0]
    ensures forall i :: 0 <= i < 5 ==> ParseDecimal(tokens[i]) == Some(values[i])
  {
    forall i | 0 <= i < 5 ensures ParseDecimal(tokens[i]) == Some(values[i]) {
      if i == 0 { Number20Point0(); }
      else if i == 1 { Number21Point0(); }
      else if i == 2 { Number50(); }
      else if i == 3 { Number1000(); }
      else { Number200(); }
    }
  }

  lemma Number25Point2() ensures ParseDecimal("25.2") == Some(25.2) {
    TwoDigitsPoint(2, 5, 2);
    assert [DigitChar(2), DigitChar(5), '.', DigitChar(2)] == "25.2";
  }

  lemma Number25Point6() ensures ParseDecimal("25.6") == Some(25.6) {
    TwoDigitsPoint(2, 5, 6);
    assert [DigitChar(2), DigitChar(5), '.', DigitChar(6)] == "25.6";
  }

  lemma Number20Point0() ensures ParseDecimal("20.0") == Some(20.0) {
    TwoDigitsPoint(2, 0, 0);
    assert [DigitChar(2), DigitChar(0), '.', DigitChar(0)] == "20.0";
  }

  lemma Number21Point0() ensures ParseDecimal("21.0") == Some(21.0) {
    TwoDigitsPoint(2, 1, 0);
    assert [DigitChar(2), DigitChar(1), '.', DigitChar(0)] == "21.0";
  }

  lemma Number40() ensures ParseDecimal("40") == Some(40.0) {
    NumberDigits("40", 40);
  }

  lemma Number1015() ensures ParseDecimal("1015") == Some(1015.0) {
    NumberDigits("1015", 1015);
  }

  lemma Number900() ensures ParseDecimal("900") == Some(900.0) {
    NumberDigits("900", 900);
  }

  lemma Number50() ensures ParseDecimal("50") == Some(50.0) {
    NumberDigits("50", 50);
  }

  lemma Number1000() ensures ParseDecimal("1000") == Some(1000.0) {
    NumberDigits("1000", 1000);
  }

  lemma Number200() ensures ParseDecimal("200") == Some(200.0) {
    NumberDigits("200", 200);
  }

  /** A digit string reads as the number it spells. */
  lemma NumberDigits(s: string, n: nat)
    requires s == NatToDigits(n)
    ensures ParseDecimal(s) == Some(n as real)
  {
    ParseDecimalRoundTrip(n);
  }
}
