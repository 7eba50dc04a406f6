/**
  Configuration values in a text (cpp-bootstrap/src/setup.cpp): setting replaces the first
  line that assigns a key or appends one; reading takes the first such line; collecting reads
  every line, and the last one wins.
 */
module EnvFile {
  import opened Common
  import opened EnvText
  import EnvLines

  datatype Result<T> = Ok(value: T) | NewlineInValue

  predicate SingleLine(value: string) { '\r' !in value && '\n' !in value }

  function SetValue(content: string, key: string, value: string): Result<string> {
    if !SingleLine(value) then NewlineInValue
    else Ok(Text(EnvLines.Edited(EnvKey, Lines(content), key, key + "=" + value)))
  }

  function GetValue(content: string, key: string): Option<string> {
    EnvLines.Read(EnvKey, LineValue, Lines(content), key)
  }

  method SetEnvValue(content: string, key: string, value: string) returns (r: Result<string>)
    ensures r == SetValue(content, key, value)
  {
    if !SingleLine(value) {
      return NewlineInValue;
    }
    var values := EnvLines.Edit(EnvKey, Lines(content), key, key + "=" + value);
    r := Ok(Text(values));
  }

  method GetEnvValue(content: string, key: string) returns (r: Option<string>)
    ensures r == GetValue(content, key)
  {
    r := EnvLines.ReadFirst(EnvKey, LineValue, Lines(content), key);
  }

  method CollectEnvValues(content: string) returns (r: map<string, string>)
    ensures forall key :: key in r <==> GetValue(content, key).Some?
    ensures EnvLines.NoKeyRepeats(EnvKey, Lines(content)) ==>
              forall key :: key in r ==> GetValue(content, key) == Some(r[key])
  {
    r := EnvLines.Collect(EnvKey, LineValue, Lines(content));
    forall key ensures key in r <==> GetValue(content, key).Some? {
      EnvLines.CollectedAgrees(EnvKey, LineValue, Lines(content), key);
    }
    forall key | EnvLines.NoKeyRepeats(EnvKey, Lines(content)) && key in r
      ensures GetValue(content, key) == Some(r[key])
    {
      EnvLines.CollectedAgrees(EnvKey, LineValue, Lines(content), key);
    }
  }

  // ---------------------------------------------------------------------------------------
  // Set, then get

  lemma KeyNeedsEquals(line: string)
    requires EnvKey(line).Some?
    ensures '=' in line
  {
    var t := Trim(line);
    TrimIsTrimmed(line);
    assert StartsExport(t) ==> forall c :: c in t[7..] ==> c in t;
  }

  /** Removing carriage returns changes nothing that is read. */
  lemma StrippedReads(values: seq<string>, key: string)
    ensures EnvLines.Read(EnvKey, LineValue, StripAll(values), key) == EnvLines.Read(EnvKey, LineValue, values, key)
  {
    forall i | 0 <= i < |values|
      ensures EnvKey(StripReturn(values[i])) == EnvKey(values[i])
      ensures EnvKey(values[i]).Some? ==> LineValue(StripReturn(values[i])) == LineValue(values[i])
    {
      ReturnIsIgnored(values[i]);
      if EnvKey(values[i]).Some? {
        KeyNeedsEquals(values[i]);
      }
    }
    EnvLines.SameReads(EnvKey, LineValue, StripAll(values), values, key);
  }

  lemma EditedAreLines(values: seq<string>, key: string, line: string)
    requires AllOneLine(values) && OneLine(line)
    ensures AllOneLine(EnvLines.Edited(EnvKey, values, key, line))
  {
    var edited := EnvLines.Edited(EnvKey, values, key, line);
    forall i | 0 <= i < |edited| ensures OneLine(edited[i]) {
      assert edited[i] == line || edited[i] == "" || edited[i] in values;
    }
  }

  /** The lines of the text after a set are the pieces of the old lines with one replaced, or with
      the new one (and a separating empty line) appended, each without one carriage return at its
      end.  Unless the key holds a newline the pieces are those lines themselves. */
  lemma LinesAfterSet(content: string, key: string, value: string)
    requires SingleLine(value)
    ensures var edited := EnvLines.Edited(EnvKey, Lines(content), key, key + "=" + value);
            && Lines(SetValue(content, key, value).value) == StripAll(Pieces(edited))
            && (OneLine(key) ==> Pieces(edited) == edited)
  {
    LinesAreLines(content);
    if OneLine(key) {
      EditedAreLines(Lines(content), key, key + "=" + value);
    }
    WrittenLines(EnvLines.Edited(EnvKey, Lines(content), key, key + "=" + value));
  }

  /** After setting a well-formed key, that key reads as the value without its quotes, blanks
      and comment, and every other key reads as before, in every text. */
  lemma SetThenGet(content: string, key: string, value: string, other: string)
    requires WellFormed(key) && SingleLine(value)
    ensures GetValue(SetValue(content, key, value).value, other)
            == if other == key then Some(ValueText(value)) else GetValue(content, other)
  {
    PairKey(key, value);
    PairValue(key, value);
    SetThenGetAny(content, key, value, other);
  }

  /** What any key reads after setting any key in any text.  A key that holds a newline replaces no
      line: its several lines are appended and read for the keys that the text does not assign. */
  lemma SetThenGetAny(content: string, key: string, value: string, other: string)
    requires SingleLine(value)
    ensures var line, values := key + "=" + value, Lines(content);
            var covers := EnvLines.FirstWith(EnvKey, values, key) <= EnvLines.FirstWith(EnvKey, values, other);
            GetValue(SetValue(content, key, value).value, other)
            == if !OneLine(key) then
                 if GetValue(content, other).Some? then GetValue(content, other)
                 else EnvLines.Read(EnvKey, LineValue, Split(line), other)
               else if EnvKey(line) == Some(other) && (other == key || covers) then Some(LineValue(line))
               else if other == key then EnvLines.ReadSecond(EnvKey, LineValue, values, key)
               else GetValue(content, other)
  {
    if OneLine(key) {
      OneLineSetReads(content, key, value, other);
    } else {
      ManyLineSetReads(content, key, value, other);
    }
  }

  lemma OneLineSetReads(content: string, key: string, value: string, other: string)
    requires OneLine(key) && SingleLine(value)
    ensures var line, values := key + "=" + value, Lines(content);
            var covers := EnvLines.FirstWith(EnvKey, values, key) <= EnvLines.FirstWith(EnvKey, values, other);
            GetValue(SetValue(content, key, value).value, other)
            == if EnvKey(line) == Some(other) && (other == key || covers) then Some(LineValue(line))
               else if other == key then EnvLines.ReadSecond(EnvKey, LineValue, values, key)
               else GetValue(content, other)
  {
    var line, values := key + "=" + value, Lines(content);
    LinesAfterSet(content, key, value);
    assert EnvKey("") == None;
    StrippedReads(EnvLines.Edited(EnvKey, values, key, line), other);
    EnvLines.EditedReads(EnvKey, LineValue, values, key, line, other);
  }

  /** A key that holds a newline is assigned by no line, so its lines are appended. */
  lemma ManyLinePieces(values: seq<string>, key: string, line: string)
    requires AllOneLine(values) && !OneLine(key)
    ensures Pieces(EnvLines.Edited(EnvKey, values, key, line)) == values + EnvLines.Gap(values) + Split(line)
  {
    ManyLineKey(values, key);
    EnvLines.FirstWithIs(EnvKey, values, key, |values|);
    assert AllOneLine(values + EnvLines.Gap(values));
    PiecesOfLast(values + EnvLines.Gap(values), line);
  }

  lemma ManyLineSetReads(content: string, key: string, value: string, other: string)
    requires !OneLine(key) && SingleLine(value)
    ensures GetValue(SetValue(content, key, value).value, other)
            == if GetValue(content, other).Some? then GetValue(content, other)
               else EnvLines.Read(EnvKey, LineValue, Split(key + "=" + value), other)
  {
    var line, values := key + "=" + value, Lines(content);
    assert Lines(SetValue(content, key, value).value) == StripAll(values + EnvLines.Gap(values) + Split(line)) by {
      LinesAreLines(content);
      LinesAfterSet(content, key, value);
      ManyLinePieces(values, key, line);
    }
    StrippedReads(values + EnvLines.Gap(values) + Split(line), other);
    EmptyLineHasNoKey();
    EnvLines.AppendedReads(EnvKey, LineValue, values, Split(line), other);
  }

  lemma EmptyLineHasNoKey()
    ensures EnvKey("") == None
  {
  }

  lemma NoneAssigns(values: seq<string>, key: string)
    requires forall i :: 0 <= i < |values| ==> !EnvLines.Assigns(EnvKey, values[i], key)
    ensures EnvLines.Read(EnvKey, LineValue, values, key) == None
    ensures EnvLines.ReadSecond(EnvKey, LineValue, values, key) == None
  {
    EnvLines.FirstWithIs(EnvKey, values, key, |values|);
  }

  /** No line assigns a key that holds a newline. */
  lemma ManyLineKey(values: seq<string>, key: string)
    requires AllOneLine(values) && !OneLine(key)
    ensures forall i :: 0 <= i < |values| ==> !EnvLines.Assigns(EnvKey, values[i], key)
  {
    forall i | 0 <= i < |values| ensures !EnvLines.Assigns(EnvKey, values[i], key) {
      if EnvKey(values[i]).Some? {
        EnvKeyShape(values[i]);
      }
    }
  }

  /** Setting a key that is not well formed writes a line that is not read under it.  In every text it
      then reads as the second line that assigned it before, or not at all: its first line is
      lost. */
  lemma IllFormedIsLost(content: string, key: string, value: string)
    requires !WellFormed(key) && SingleLine(value)
    ensures GetValue(SetValue(content, key, value).value, key)
            == EnvLines.ReadSecond(EnvKey, LineValue, Lines(content), key)
  {
    if OneLine(key) {
      PairKeyOnly(key, value);
      SetThenGetAny(content, key, value, key);
    } else {
      var after := SetValue(content, key, value).value;
      LinesAreLines(content);
      LinesAreLines(after);
      ManyLineKey(Lines(content), key);
      ManyLineKey(Lines(after), key);
      NoneAssigns(Lines(content), key);
      NoneAssigns(Lines(after), key);
    }
  }

  /** In an empty text such a key is not found at all, so it reads back if and only if it is well
      formed. */
  lemma ReadsBackIff(key: string, value: string)
    requires SingleLine(value)
    ensures GetValue(SetValue("", key, value).value, key) == Some(ValueText(value)) <==> WellFormed(key)
  {
    if WellFormed(key) {
      SetThenGet("", key, value, key);
    } else {
      IllFormedIsLost("", key, value);
      NoLines();
    }
  }

  /** Setting "export X" writes a line that is read under X: it changes what X reads, unless an
      earlier line assigns X. */
  lemma ExportSetsTheShortKey(content: string, key: string, value: string)
    requires WellFormed(key) && key != "" && SingleLine(value)
    ensures var values, long := Lines(content), "export " + key;
            GetValue(SetValue(content, long, value).value, key)
            == if EnvLines.FirstWith(EnvKey, values, long) <= EnvLines.FirstWith(EnvKey, values, key)
               then Some(ValueText(value)) else GetValue(content, key)
  {
    var long := "export " + key;
    assert long[..7] == "export " && long[7..] == key;
    assert long[0] == 'e' && long[|long| - 1] == key[|key| - 1];
    assert Trimmed(long) && '=' !in long && OneLine(long);
    ExportKey(long, value);
    TrimmedStays(key);
    PairValue(long, value);
    SetThenGetAny(content, long, value, key);
  }

  /** Setting a key of two lines sets two keys: with "A=1" and "B" joined by a newline, A reads as 1
      and B as the value, unless the text assigns them already. */
  lemma TwoLineKeySetsTwo(content: string, first: string, written: string, second: string, value: string)
    requires WellFormed(first) && WellFormed(second) && first != second
    requires SingleLine(written) && SingleLine(value)
    ensures var after := SetValue(content, first + "=" + written + "\n" + second, value).value;
            && GetValue(after, first)
               == (if GetValue(content, first).Some? then GetValue(content, first) else Some(ValueText(written)))
            && GetValue(after, second)
               == (if GetValue(content, second).Some? then GetValue(content, second) else Some(ValueText(value)))
  {
    var one, two := first + "=" + written, second + "=" + value;
    var key := one + "\n" + second;
    assert key[|one|] == '\n';
    assert Split(key + "=" + value) == [one] + [two] by {
      assert key + "=" + value == one + "\n" + two;
      SplitAfterNewline(one, two);
      SplitOneLine(one);
      SplitOneLine(two);
    }
    TwoPairsRead(first, written, second, value);
    ManyLineSetReads(content, key, value, first);
    ManyLineSetReads(content, key, value, second);
  }

  lemma TwoPairsRead(first: string, written: string, second: string, value: string)
    requires WellFormed(first) && WellFormed(second) && first != second
    ensures var lines := [first + "=" + written] + [second + "=" + value];
            && EnvLines.Read(EnvKey, LineValue, lines, first) == Some(ValueText(written))
            && EnvLines.Read(EnvKey, LineValue, lines, second) == Some(ValueText(value))
  {
    PairKey(first, written);
    PairKey(second, value);
    PairValue(first, written);
    PairValue(second, value);
    EnvLines.ReadsOfTwo(EnvKey, LineValue, first + "=" + written, second + "=" + value, first, second);
  }
}
