/**
  Lines, keys and values of a configuration file (cpp-bootstrap/src/setup.cpp, with `trim`,
  `split` and `join` of cpp-mcp/src/common.cpp).  Text is a sequence of single-byte characters.
 */
module EnvText {
  import opened Common

  // ---------------------------------------------------------------------------------------
  // Trimming

  predicate Blank(c: char) { c == ' ' || c == '\t' || c == '\r' || c == '\n' }

  /** `std::isspace`: also vertical tab and form feed. */
  predicate Space(c: char) { Blank(c) || c as int == 11 || c as int == 12 }

  function TrimLeft(s: string): string { if s != "" && Blank(s[0]) then TrimLeft(s[1..]) else s }

  function TrimRight(s: string): string {
    if s != "" && Blank(s[|s| - 1]) then TrimRight(s[..|s| - 1]) else s
  }

  function Trim(s: string): string { TrimRight(TrimLeft(s)) }

  /** Text with no blank at either end. */
  predicate Trimmed(s: string) { s == "" || (!Blank(s[0]) && !Blank(s[|s| - 1])) }

  lemma {:induction false} TrimLeftStarts(s: string)
    ensures TrimLeft(s) == "" || !Blank(TrimLeft(s)[0])
    ensures forall c :: c in TrimLeft(s) ==> c in s
  {
    if s != "" && Blank(s[0]) {
      TrimLeftStarts(s[1..]);
    }
  }

  lemma {:induction false} TrimRightEnds(s: string)
    ensures TrimRight(s) <= s
    ensures TrimRight(s) == "" || !Blank(TrimRight(s)[|TrimRight(s)| - 1])
  {
    if s != "" && Blank(s[|s| - 1]) {
      TrimRightEnds(s[..|s| - 1]);
    }
  }

  lemma TrimIsTrimmed(s: string)
    ensures Trimmed(Trim(s))
    ensures forall c :: c in Trim(s) ==> c in s
  {
    TrimLeftStarts(s);
    TrimRightEnds(TrimLeft(s));
  }

  lemma TrimmedStays(s: string)
    requires Trimmed(s)
    ensures Trim(s) == s
  {
  }

  /** Trimming on the right stops at a character that is not blank. */
  lemma {:induction false} TrimRightStops(a: string, c: char, b: string)
    requires !Blank(c)
    ensures TrimRight(a + [c] + b) == a + [c] + TrimRight(b)
  {
    var s := a + [c] + b;
    if b != "" && Blank(b[|b| - 1]) {
      assert s[..|s| - 1] == a + [c] + b[..|b| - 1];
      TrimRightStops(a, c, b[..|b| - 1]);
    } else if b == "" {
      assert s[|s| - 1] == c;
    }
  }

  /** A blank at the end makes no difference. */
  lemma {:induction false} TrimIgnoresEnd(s: string, c: char)
    requires Blank(c)
    ensures Trim(s + [c]) == Trim(s)
  {
    if s == "" {
      assert (s + [c])[1..] == "";
    } else if Blank(s[0]) {
      TrimIgnoresEnd(s[1..], c);
      assert (s + [c])[1..] == s[1..] + [c];
    } else {
      assert (s + [c])[..|s|] == s;
    }
  }

  // ---------------------------------------------------------------------------------------
  // Lines

  /** The pieces of a text between newlines. */
  function Split(text: string): (r: seq<string>)
    ensures r != []
  {
    if text == "" then [""]
    else
      var rest := Split(text[1..]);
      if text[0] == '\n' then [""] + rest else [[text[0]] + rest[0]] + rest[1..]
  }

  function StripReturn(line: string): string {
    if line != "" && line[|line| - 1] == '\r' then line[..|line| - 1] else line
  }

  function StripAll(values: seq<string>): (r: seq<string>)
    ensures |r| == |values| && forall i :: 0 <= i < |r| ==> r[i] == StripReturn(values[i])
  {
    seq(|values|, i requires 0 <= i < |values| => StripReturn(values[i]))
  }

  /** The lines of a text: a last empty piece is not a line. */
  function Lines(text: string): seq<string> {
    var pieces := Split(text);
    StripAll(if pieces[|pieces| - 1] == "" then pieces[..|pieces| - 1] else pieces)
  }

  lemma NoLines()
    ensures Lines("") == []
  {
  }

  function Join(values: seq<string>): string {
    if values == [] then "" else if |values| == 1 then values[0] else values[0] + "\n" + Join(values[1..])
  }

  /** The text that is written for some lines. */
  function Text(values: seq<string>): string { Join(values) + "\n" }

  predicate OneLine(s: string) { '\n' !in s }

  ghost predicate AllOneLine(values: seq<string>) { forall i :: 0 <= i < |values| ==> OneLine(values[i]) }

  lemma {:induction false} SplitPiecesAreLines(text: string)
    ensures AllOneLine(Split(text))
  {
    if text != "" {
      SplitPiecesAreLines(text[1..]);
    }
  }

  lemma LinesAreLines(text: string)
    ensures AllOneLine(Lines(text))
  {
    SplitPiecesAreLines(text);
  }

  /** The lines that some texts make when each is written on lines of its own. */
  function Pieces(values: seq<string>): seq<string> {
    if values == [] then [] else Split(values[0]) + Pieces(values[1..])
  }

  lemma {:induction false} SplitOneLine(line: string)
    requires OneLine(line)
    ensures Split(line) == [line]
  {
    if line != "" {
      SplitOneLine(line[1..]);
      assert [line[0]] + line[1..] == line;
    }
  }

  /** Splitting starts again after a newline. */
  lemma {:induction false} SplitAfterNewline(text: string, rest: string)
    ensures Split(text + "\n" + rest) == Split(text) + Split(rest)
  {
    var all := text + "\n" + rest;
    if text == "" {
      assert all[1..] == rest;
    } else {
      SplitAfterNewline(text[1..], rest);
      assert all[1..] == text[1..] + "\n" + rest && all[0] == text[0];
      var front := Split(text[1..]);
      assert (front + Split(rest))[0] == front[0] && (front + Split(rest))[1..] == front[1..] + Split(rest);
      FirstPieceGrows(text[0], front, Split(rest));
    }
  }

  lemma FirstPieceGrows(c: char, front: seq<string>, rest: seq<string>)
    requires front != []
    ensures [[c] + front[0]] + (front[1..] + rest) == [[c] + front[0]] + front[1..] + rest
    ensures [""] + (front + rest) == [""] + front + rest
  {
  }

  lemma {:induction false} SplitText(values: seq<string>)
    requires values != []
    ensures Split(Text(values)) == Pieces(values) + [""]
  {
    if |values| == 1 {
      SplitAfterNewline(values[0], "");
      assert Text(values) == values[0] + "\n" + "";
      assert Pieces(values[1..]) == [];
      assert Split(values[0]) + [] == Split(values[0]);
    } else {
      SplitText(values[1..]);
      SplitAfterNewline(values[0], Text(values[1..]));
      assert Text(values) == values[0] + "\n" + Text(values[1..]);
      assert Split(values[0]) + (Pieces(values[1..]) + [""]) == Split(values[0]) + Pieces(values[1..]) + [""];
    }
  }

  lemma {:induction false} PiecesOfLines(values: seq<string>)
    requires AllOneLine(values)
    ensures Pieces(values) == values
  {
    if values != [] {
      SplitOneLine(values[0]);
      assert AllOneLine(values[1..]);
      PiecesOfLines(values[1..]);
      assert [values[0]] + values[1..] == values;
    }
  }

  lemma {:induction false} PiecesOfLast(values: seq<string>, last: string)
    requires AllOneLine(values)
    ensures Pieces(values + [last]) == values + Split(last)
  {
    var all := values + [last];
    if values == [] {
      assert all == [last] && all[1..] == [];
      assert Split(last) + [] == Split(last);
    } else {
      assert AllOneLine(values[1..]);
      PiecesOfLast(values[1..], last);
      assert all[1..] == values[1..] + [last] && all[0] == values[0];
      SplitOneLine(values[0]);
      assert [values[0]] + (values[1..] + Split(last)) == values + Split(last);
    }
  }

  /** Reading the text written for some lines gives their pieces, each without one carriage return
      at its end; lines that hold no newline are their own pieces. */
  lemma WrittenLines(values: seq<string>)
    requires values != []
    ensures Lines(Text(values)) == StripAll(Pieces(values))
    ensures AllOneLine(values) ==> Pieces(values) == values
  {
    SplitText(values);
    assert (Pieces(values) + [""])[..|Pieces(values)|] == Pieces(values);
    if AllOneLine(values) {
      PiecesOfLines(values);
    }
  }

  // ---------------------------------------------------------------------------------------
  // Keys

  /** The first place of a character, or the length of the text. */
  function Find(s: string, c: char): (r: nat)
    ensures r <= |s| && (r < |s| <==> c in s)
    ensures r < |s| ==> s[r] == c
    ensures c !in s[..r]
  {
    if s == "" then 0 else if s[0] == c then 0 else 1 + Find(s[1..], c)
  }

  predicate StartsExport(s: string) { "export " <= s }

  function EnvKey(line: string): Option<string> {
    var t := Trim(line);
    if t == "" || t[0] == '#' then None
    else
      var u := if StartsExport(t) then t[7..] else t;
      if '=' !in u then None else Some(Trim(u[..Find(u, '=')]))
  }

  /** The keys that a line "key=value" can carry. */
  predicate WellFormed(key: string) {
    && Trimmed(key) && '=' !in key && OneLine(key)
    && !(key != "" && key[0] == '#') && !StartsExport(key)
  }

  /** A key read from a line is trimmed and holds neither "=" nor a newline. */
  lemma EnvKeyShape(line: string)
    requires OneLine(line) && EnvKey(line).Some?
    ensures var k := EnvKey(line).value; Trimmed(k) && '=' !in k && OneLine(k) && '=' in line
  {
    var t := Trim(line);
    TrimIsTrimmed(line);
    var u := if StartsExport(t) then t[7..] else t;
    TrimIsTrimmed(u[..Find(u, '=')]);
    assert forall c :: c in u[..Find(u, '=')] ==> c in u;
    assert forall c :: c in u ==> c in t;
  }

  lemma TrimOfPair(key: string, value: string)
    requires Trimmed(key)
    ensures Trim(key + "=" + value) == key + "=" + TrimRight(value)
  {
    TrimRightStops(key, '=', value);
    assert TrimLeft(key + "=" + value) == key + "=" + value;
  }

  lemma {:induction false} FindPair(key: string, value: string)
    ensures '=' !in key ==> Find(key + "=" + value, '=') == |key|
  {
    if key != "" {
      FindPair(key[1..], value);
      assert (key + "=" + value)[1..] == key[1..] + "=" + value;
    }
  }

  /** A line "key=value" is read under its key when the key is well formed, and not otherwise. */
  lemma PairKey(key: string, value: string)
    requires WellFormed(key)
    ensures EnvKey(key + "=" + value) == Some(key)
  {
    var t := key + "=" + TrimRight(value);
    TrimOfPair(key, value);
    FindPair(key, TrimRight(value));
    TrimmedStays(key);
    assert t[|key|] == '=' && t[..|key|] == key;
    assert !StartsExport(t) by {
      if |key| < 7 {
        assert "export "[|key|] != '=';
      } else {
        assert t[..7] == key[..7];
      }
    }
  }

  lemma CommentKey(key: string, value: string)
    requires Trimmed(key) && key != "" && key[0] == '#'
    ensures EnvKey(key + "=" + value) == None
  {
    TrimOfPair(key, value);
  }

  lemma ExportKey(key: string, value: string)
    requires Trimmed(key) && StartsExport(key) && '=' !in key
    ensures EnvKey(key + "=" + value) == Some(Trim(key[7..]))
  {
    TrimOfPair(key, value);
    var t, u := key + "=" + TrimRight(value), key[7..] + "=" + TrimRight(value);
    assert t[..7] == key[..7] == "export " && t[7..] == u;
    FindPair(key[7..], TrimRight(value));
    assert u[..|key| - 7] == key[7..] && u[|key| - 7] == '=';
  }

  lemma PairKeyOnly(key: string, value: string)
    requires !WellFormed(key) && OneLine(key) && OneLine(value)
    ensures EnvKey(key + "=" + value) != Some(key)
  {
    if Trimmed(key) && '=' !in key {
      if key != "" && key[0] == '#' {
        CommentKey(key, value);
      } else {
        ExportKey(key, value);
        ShorterKey(key);
      }
    } else if EnvKey(key + "=" + value).Some? {
      EnvKeyShape(key + "=" + value);
    }
  }

  lemma ShorterKey(key: string)
    requires StartsExport(key)
    ensures |Trim(key[7..])| < |key|
  {
    TrimShorter(key[7..]);
  }

  lemma {:induction false} TrimShorter(s: string)
    ensures |Trim(s)| <= |s|
  {
    TrimRightEnds(TrimLeft(s));
    if s != "" && Blank(s[0]) {
      TrimShorter(s[1..]);
      TrimRightEnds(TrimLeft(s[1..]));
    }
  }

  // ---------------------------------------------------------------------------------------
  // Values

  predicate Quoted(t: string) {
    |t| >= 2 && ((t[0] == '"' && t[|t| - 1] == '"') || (t[0] == '\'' && t[|t| - 1] == '\''))
  }

  predicate CommentAt(t: string, i: nat) { 0 < i < |t| && t[i] == '#' && Space(t[i - 1]) }

  /** The first comment at or after `i`, or the length of the text. */
  function CommentFrom(t: string, i: nat): (r: nat)
    requires 0 < i
    ensures r < |t| ==> CommentAt(t, r)
    ensures r < |t| || r == |t| || r == i
    decreases |t| - i
  {
    if i >= |t| then |t| else if CommentAt(t, i) then i else CommentFrom(t, i + 1)
  }

  function ValueText(text: string): string {
    var t := Trim(text);
    if Quoted(t) then t[1..|t| - 1]
    else
      var end := CommentFrom(t, 1);
      if end < |t| then Trim(t[..end]) else t
  }

  /** The scan of `value_text`. */
  method ReadValue(text: string) returns (r: string)
    ensures r == ValueText(text)
  {
    var t := Trim(text);
    if |t| >= 2 && ((t[0] == '"' && t[|t| - 1] == '"') || (t[0] == '\'' && t[|t| - 1] == '\'')) {
      return t[1..|t| - 1];
    }
    var i := 1;
    while i < |t|
      invariant 1 <= i && CommentFrom(t, i) == CommentFrom(t, 1)
    {
      if t[i] == '#' && Space(t[i - 1]) {
        return Trim(t[..i]);
      }
      i := i + 1;
    }
    return t;
  }

  lemma {:induction false} CommentFromIsFirst(t: string, i: nat, j: nat)
    requires 0 < i <= j && CommentAt(t, j)
    ensures CommentFrom(t, i) <= j
    decreases j - i
  {
    if i < j && !CommentAt(t, i) {
      CommentFromIsFirst(t, i + 1, j);
    }
  }

  /** The scan finds a comment exactly when there is one. */
  lemma CommentFromIs(t: string)
    ensures CommentFrom(t, 1) < |t| <==> exists i: nat :: CommentAt(t, i)
  {
    if i: nat :| CommentAt(t, i) {
      CommentFromIsFirst(t, 1, i);
    }
  }

  /** A value reads back unchanged exactly when it has no blank at its ends, is not quoted and
      holds no comment. */
  lemma ValueKeptIff(v: string)
    ensures ValueText(v) == v <==> Trimmed(v) && !Quoted(v) && forall i: nat :: !CommentAt(v, i)
  {
    CommentFromIs(v);
    TrimIsTrimmed(v);
    TrimShorter(v);
    if Trimmed(v) {
      TrimmedStays(v);
      var end := CommentFrom(v, 1);
      if end < |v| {
        TrimShorter(v[..end]);
      }
    } else if ValueText(v) == v {
      TrimIsSame(v);
    }
  }

  /** Only trimmed text is as long as what trimming leaves. */
  lemma TrimIsSame(v: string)
    requires ValueText(v) == v
    ensures Trim(v) == v
  {
    var t := Trim(v);
    TrimShorter(v);
    TrimSameLength(v);
    if !Quoted(t) && CommentFrom(t, 1) < |t| {
      TrimShorter(t[..CommentFrom(t, 1)]);
    }
  }

  lemma {:induction false} TrimSameLength(v: string)
    ensures |Trim(v)| == |v| ==> Trim(v) == v
  {
    TrimRightEnds(TrimLeft(v));
    if v != "" && Blank(v[0]) {
      TrimShorter(v[1..]);
    }
  }

  /** What a line assigns: everything after its first "=". */
  function LineValue(line: string): string {
    var e := Find(line, '=');
    ValueText(if e < |line| then line[e + 1..] else line)
  }

  lemma PairValue(key: string, value: string)
    requires '=' !in key
    ensures LineValue(key + "=" + value) == ValueText(value)
  {
    FindPair(key, value);
    assert (key + "=" + value)[|key| + 1..] == value;
  }

  lemma {:induction false} FindInFront(s: string, c: char, d: char)
    requires c != d
    ensures Find(s + [d], c) == if c in s then Find(s, c) else |s| + 1
  {
    if s != "" && s[0] != c {
      FindInFront(s[1..], c, d);
      assert (s + [d])[1..] == s[1..] + [d];
    }
  }

  lemma ValueIgnoresEnd(s: string)
    ensures ValueText(s + ['\r']) == ValueText(s)
  {
    TrimIgnoresEnd(s, '\r');
  }

  lemma ReturnAfterEquals(s: string, e: nat)
    requires e < |s|
    ensures ValueText((s + ['\r'])[e + 1..]) == ValueText(s[e + 1..])
  {
    assert (s + ['\r'])[e + 1..] == s[e + 1..] + ['\r'];
    ValueIgnoresEnd(s[e + 1..]);
  }

  lemma ReturnKeepsValue(s: string)
    requires '=' in s
    ensures LineValue(s + ['\r']) == LineValue(s)
  {
    FindInFront(s, '=', '\r');
    ReturnAfterEquals(s, Find(s, '='));
  }

  /** A carriage return at the end of a line changes neither its key nor its value. */
  lemma ReturnIsIgnored(line: string)
    ensures EnvKey(StripReturn(line)) == EnvKey(line)
    ensures '=' in line ==> LineValue(StripReturn(line)) == LineValue(line)
  {
    var s := StripReturn(line);
    if s != line {
      assert line == s + ['\r'];
      TrimIgnoresEnd(s, '\r');
      if '=' in line {
        ReturnKeepsValue(s);
      }
    }
  }
}
