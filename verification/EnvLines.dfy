/**
  Editing and reading a list of lines, some of which assign a key
  (cpp-bootstrap/src/setup.cpp).  How a line gives a key and a value is a parameter here, so
  that these results do not depend on the syntax of a line.
 */
module EnvLines {
  import opened Common
  import opened EnvText

  type KeyOf = string -> Option<string>
  type ValueOf = string -> string

  predicate Assigns(keyOf: KeyOf, line: string, key: string) { keyOf(line) == Some(key) }

  /** The first line that assigns a key, or the number of lines. */
  function FirstWith(keyOf: KeyOf, values: seq<string>, key: string): (r: nat)
    ensures r <= |values| && (r < |values| ==> Assigns(keyOf, values[r], key))
    ensures forall i :: 0 <= i < r ==> !Assigns(keyOf, values[i], key)
  {
    if values == [] then 0 else if Assigns(keyOf, values[0], key) then 0 else 1 + FirstWith(keyOf, values[1..], key)
  }

  lemma FirstWithIs(keyOf: KeyOf, values: seq<string>, key: string, i: nat)
    requires i <= |values| && (i < |values| ==> Assigns(keyOf, values[i], key))
    requires forall j :: 0 <= j < i ==> !Assigns(keyOf, values[j], key)
    ensures FirstWith(keyOf, values, key) == i
  {
  }

  // ---------------------------------------------------------------------------------------
  // Setting

  /** The first assignment replaced, or a new one appended after a separating empty line. */
  function Edited(keyOf: KeyOf, values: seq<string>, key: string, line: string): (r: seq<string>)
    ensures r != []
  {
    var i := FirstWith(keyOf, values, key);
    if i < |values| then values[i := line]
    else values + Gap(values) + [line]
  }

  method Edit(keyOf: KeyOf, before: seq<string>, key: string, line: string) returns (values: seq<string>)
    ensures values == Edited(keyOf, before, key, line)
  {
    values := before;
    var found := false;
    for i := 0 to |values|
      invariant |values| == |before|
      invariant found ==> FirstWith(keyOf, before, key) < i && values == before[FirstWith(keyOf, before, key) := line]
      invariant !found ==> values == before && forall j :: 0 <= j < i ==> !Assigns(keyOf, before[j], key)
    {
      if !found && keyOf(values[i]) == Some(key) {
        FirstWithIs(keyOf, before, key, i);
        values := values[i := line];
        found := true;
      }
    }
    if !found {
      FirstWithIs(keyOf, before, key, |before|);
      if |values| > 0 && values[|values| - 1] != "" {
        values := values + [""];
      }
      values := values + [line];
    }
  }

  // ---------------------------------------------------------------------------------------
  // Reading

  function Read(keyOf: KeyOf, valueOf: ValueOf, values: seq<string>, key: string): Option<string> {
    var i := FirstWith(keyOf, values, key);
    if i < |values| then Some(valueOf(values[i])) else None
  }

  method ReadFirst(keyOf: KeyOf, valueOf: ValueOf, values: seq<string>, key: string) returns (r: Option<string>)
    ensures r == Read(keyOf, valueOf, values, key)
  {
    for i := 0 to |values|
      invariant forall j :: 0 <= j < i ==> !Assigns(keyOf, values[j], key)
    {
      if keyOf(values[i]) == Some(key) {
        FirstWithIs(keyOf, values, key, i);
        return Some(valueOf(values[i]));
      }
    }
    FirstWithIs(keyOf, values, key, |values|);
    return None;
  }

  /** What is left of a key when its first line no longer assigns it. */
  function ReadSecond(keyOf: KeyOf, valueOf: ValueOf, values: seq<string>, key: string): Option<string> {
    var i := FirstWith(keyOf, values, key);
    if i < |values| then Read(keyOf, valueOf, values[i + 1..], key) else None
  }

  /** What every key reads after an edit, whatever key the new line turns out to assign.  A line
      that assigns the edited key replaces its value and changes no other.  A line that does not
      uncovers the second assignment of the edited key.  A line that assigns another key takes
      that key over unless an earlier line assigns it. */
  lemma EditedReads(keyOf: KeyOf, valueOf: ValueOf, values: seq<string>, key: string, line: string, other: string)
    requires keyOf("") == None
    ensures var edited := Edited(keyOf, values, key, line);
            var covers := FirstWith(keyOf, values, key) <= FirstWith(keyOf, values, other);
            Read(keyOf, valueOf, edited, other)
            == if Assigns(keyOf, line, other) && (other == key || covers) then Some(valueOf(line))
               else if other == key then ReadSecond(keyOf, valueOf, values, key)
               else Read(keyOf, valueOf, values, other)
  {
    if other == key {
      EditedKeyReads(keyOf, valueOf, values, key, line);
    } else {
      OtherKeyReads(keyOf, valueOf, values, key, line, other);
    }
  }

  lemma EditedKeyReads(keyOf: KeyOf, valueOf: ValueOf, values: seq<string>, key: string, line: string)
    requires keyOf("") == None
    ensures Read(keyOf, valueOf, Edited(keyOf, values, key, line), key)
            == if Assigns(keyOf, line, key) then Some(valueOf(line)) else ReadSecond(keyOf, valueOf, values, key)
  {
    var edited, i := Edited(keyOf, values, key, line), FirstWith(keyOf, values, key);
    if Assigns(keyOf, line, key) {
      FirstWithIs(keyOf, edited, key, if i < |values| then i else |edited| - 1);
    } else if i < |values| {
      var rest := values[i + 1..];
      var j := FirstWith(keyOf, rest, key);
      assert edited[i + 1..] == rest;
      assert forall m :: 0 <= m < |rest| ==> edited[i + 1 + m] == rest[m];
      forall m | 0 <= m < i + 1 + j ensures !Assigns(keyOf, edited[m], key) {
        assert m > i ==> edited[m] == rest[m - i - 1];
      }
      FirstWithIs(keyOf, edited, key, i + 1 + j);
    } else {
      FirstWithIs(keyOf, edited, key, |edited|);
    }
  }

  lemma OtherKeyReads(keyOf: KeyOf, valueOf: ValueOf, values: seq<string>, key: string, line: string, other: string)
    requires keyOf("") == None && other != key
    ensures Read(keyOf, valueOf, Edited(keyOf, values, key, line), other)
            == if Assigns(keyOf, line, other) && FirstWith(keyOf, values, key) <= FirstWith(keyOf, values, other)
               then Some(valueOf(line)) else Read(keyOf, valueOf, values, other)
  {
    var edited := Edited(keyOf, values, key, line);
    var i, j := FirstWith(keyOf, values, key), FirstWith(keyOf, values, other);
    if Assigns(keyOf, line, other) && i <= j {
      FirstWithIs(keyOf, edited, other, if i < |values| then i else |edited| - 1);
    } else {
      FirstWithIs(keyOf, edited, other, if j < |values| then j else |edited|);
    }
  }

  /** Lines that give the same keys, and the same values where they give a key, read the same. */
  lemma SameReads(keyOf: KeyOf, valueOf: ValueOf, a: seq<string>, b: seq<string>, key: string)
    requires |a| == |b|
    requires forall i :: 0 <= i < |a| ==>
               keyOf(a[i]) == keyOf(b[i]) && (keyOf(a[i]).Some? ==> valueOf(a[i]) == valueOf(b[i]))
    ensures Read(keyOf, valueOf, a, key) == Read(keyOf, valueOf, b, key)
  {
    FirstWithIs(keyOf, a, key, FirstWith(keyOf, b, key));
  }

  /** Lines after others are read only for the keys that the others do not assign. */
  lemma ReadJoins(keyOf: KeyOf, valueOf: ValueOf, a: seq<string>, b: seq<string>, key: string)
    ensures Read(keyOf, valueOf, a + b, key)
            == if Read(keyOf, valueOf, a, key).Some? then Read(keyOf, valueOf, a, key)
               else Read(keyOf, valueOf, b, key)
  {
    var all, i, j := a + b, FirstWith(keyOf, a, key), FirstWith(keyOf, b, key);
    if i < |a| {
      FirstWithIs(keyOf, all, key, i);
    } else {
      assert forall m :: 0 <= m < |b| ==> all[|a| + m] == b[m];
      forall m | 0 <= m < |a| + j ensures !Assigns(keyOf, all[m], key) {
        assert m >= |a| ==> all[m] == b[m - |a|];
      }
      FirstWithIs(keyOf, all, key, |a| + j);
    }
  }

  /** The empty line that separates appended lines from others. */
  function Gap(values: seq<string>): seq<string> {
    if values != [] && values[|values| - 1] != "" then [""] else []
  }

  /** What is read when lines are appended after a separating empty line. */
  lemma AppendedReads(keyOf: KeyOf, valueOf: ValueOf, values: seq<string>, more: seq<string>, key: string)
    requires keyOf("") == None
    ensures Read(keyOf, valueOf, values + Gap(values) + more, key)
            == if Read(keyOf, valueOf, values, key).Some? then Read(keyOf, valueOf, values, key)
               else Read(keyOf, valueOf, more, key)
  {
    FirstWithIs(keyOf, Gap(values), key, |Gap(values)|);
    ReadJoins(keyOf, valueOf, values, Gap(values), key);
    ReadJoins(keyOf, valueOf, values + Gap(values), more, key);
  }

  lemma ReadsOfTwo(keyOf: KeyOf, valueOf: ValueOf, x: string, y: string, a: string, b: string)
    requires Assigns(keyOf, x, a) && Assigns(keyOf, y, b) && a != b
    ensures Read(keyOf, valueOf, [x] + [y], a) == Some(valueOf(x))
    ensures Read(keyOf, valueOf, [x] + [y], b) == Some(valueOf(y))
  {
    FirstWithIs(keyOf, [x] + [y], a, 0);
    FirstWithIs(keyOf, [x] + [y], b, 1);
  }

  // ---------------------------------------------------------------------------------------
  // Collecting

  function Collected(keyOf: KeyOf, valueOf: ValueOf, values: seq<string>): map<string, string> {
    if values == [] then map[]
    else
      var line, rest := values[|values| - 1], Collected(keyOf, valueOf, values[..|values| - 1]);
      if keyOf(line).Some? then rest[keyOf(line).value := valueOf(line)] else rest
  }

  method Collect(keyOf: KeyOf, valueOf: ValueOf, values: seq<string>) returns (r: map<string, string>)
    ensures r == Collected(keyOf, valueOf, values)
  {
    r := map[];
    for i := 0 to |values|
      invariant r == Collected(keyOf, valueOf, values[..i])
    {
      assert values[..i + 1][..i] == values[..i];
      var key := keyOf(values[i]);
      if key.Some? {
        r := r[key.value := valueOf(values[i])];
      }
    }
    assert values[..|values|] == values;
  }

  ghost predicate LastWith(keyOf: KeyOf, values: seq<string>, key: string, i: int) {
    && 0 <= i < |values| && Assigns(keyOf, values[i], key)
    && forall j :: i < j < |values| ==> !Assigns(keyOf, values[j], key)
  }

  /** Collecting keeps exactly the keys that are assigned, each with its last value. */
  lemma {:induction false} CollectedIsLast(keyOf: KeyOf, valueOf: ValueOf, values: seq<string>, key: string)
    ensures key in Collected(keyOf, valueOf, values) <==> exists i :: LastWith(keyOf, values, key, i)
    ensures forall i :: LastWith(keyOf, values, key, i) ==>
              && key in Collected(keyOf, valueOf, values)
              && Collected(keyOf, valueOf, values)[key] == valueOf(values[i])
  {
    if values != [] {
      var n := |values| - 1;
      var front := values[..n];
      CollectedIsLast(keyOf, valueOf, front, key);
      if Assigns(keyOf, values[n], key) {
        assert LastWith(keyOf, values, key, n);
      } else {
        forall i ensures LastWith(keyOf, values, key, i) <==> LastWith(keyOf, front, key, i) {
          assert forall j :: 0 <= j < n ==> front[j] == values[j];
        }
      }
    }
  }

  ghost predicate NoKeyRepeats(keyOf: KeyOf, values: seq<string>) {
    forall i, j :: 0 <= i < j < |values| && keyOf(values[i]).Some? ==> keyOf(values[i]) != keyOf(values[j])
  }

  lemma {:induction false} SomeLast(keyOf: KeyOf, values: seq<string>, key: string, i: nat)
    requires i < |values| && Assigns(keyOf, values[i], key)
    ensures exists k :: LastWith(keyOf, values, key, k)
    decreases |values| - i
  {
    if !LastWith(keyOf, values, key, i) {
      var j :| i < j < |values| && Assigns(keyOf, values[j], key);
      SomeLast(keyOf, values, key, j);
    }
  }

  /** What is collected has a key exactly when a single read finds it, and when no key repeats
      the two agree on its value. */
  lemma CollectedAgrees(keyOf: KeyOf, valueOf: ValueOf, values: seq<string>, key: string)
    ensures var all := Collected(keyOf, valueOf, values);
            && (key in all <==> Read(keyOf, valueOf, values, key).Some?)
            && (NoKeyRepeats(keyOf, values) && key in all ==> Read(keyOf, valueOf, values, key) == Some(all[key]))
  {
    var first := FirstWith(keyOf, values, key);
    CollectedIsLast(keyOf, valueOf, values, key);
    if first < |values| {
      SomeLast(keyOf, values, key, first);
      if NoKeyRepeats(keyOf, values) {
        assert LastWith(keyOf, values, key, first);
      }
    }
  }

  /** A key that repeats is read first and collected last: the two differ exactly when its first
      and its last assignment do. */
  lemma RepeatedKey(keyOf: KeyOf, valueOf: ValueOf, values: seq<string>, key: string, first: nat, last: nat)
    requires first == FirstWith(keyOf, values, key) && LastWith(keyOf, values, key, last)
    ensures key in Collected(keyOf, valueOf, values) && first <= last
    ensures Read(keyOf, valueOf, values, key) == Some(Collected(keyOf, valueOf, values)[key])
            <==> valueOf(values[first]) == valueOf(values[last])
  {
    CollectedIsLast(keyOf, valueOf, values, key);
  }
}
