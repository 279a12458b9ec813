/**
 * The persisted form of a cluster's active set: ids joined by a comma, as
 * `storeState` builds it in a `StringBuffer`, and read back with Java's
 * `String.split(",")`, which discards trailing empty fields.
 */
module Delimited {

  /** `DELIMITER` of LocalDatabaseCluster. */
  const Delimiter: char := ','

  /** A field survives a join and a split unchanged. */
  predicate IsField(s: string) {
    s != [] && Delimiter !in s
  }

  /** The parts separated by one delimiter each: no leading or trailing delimiter. */
  function Join(parts: seq<string>): string
  {
    if |parts| == 0 then ""
    else if |parts| == 1 then parts[0]
    else parts[0] + [Delimiter] + Join(parts[1..])
  }

  /** Every field between delimiters, empty ones included: `"a,,b,"` gives `["a", "", "b", ""]`. */
  function SplitAll(s: string): (fields: seq<string>)
    ensures |fields| >= 1
    ensures |s| > 0 && s[0] == Delimiter ==> fields[0] == ""
  {
    if |s| == 0 then [""]
    else if s[0] == Delimiter then [""] + SplitAll(s[1..])
    else
      var rest := SplitAll(s[1..]);
      [[s[0]] + rest[0]] + rest[1..]
  }

  /** Removes the empty fields at the end, and only those. */
  function DropTrailingEmpty(fields: seq<string>): (kept: seq<string>)
    ensures kept <= fields
    ensures kept == [] || kept[|kept| - 1] != ""
    ensures forall i | |kept| <= i < |fields| :: fields[i] == ""
  {
    if |fields| == 0 then []
    else if fields[|fields| - 1] == "" then DropTrailingEmpty(fields[..|fields| - 1])
    else fields
  }

  /**
   * `s.split(",")` in Java: a string without a delimiter is returned whole
   * (so `""` gives `[""]`); otherwise the fields, minus the trailing empty ones
   * (so `",,"` gives `[]`).
   */
  function Split(s: string): (fields: seq<string>)
    ensures Delimiter !in s ==> fields == [s]
    ensures Delimiter in s ==> fields == [] || fields[|fields| - 1] != ""
  {
    if Delimiter !in s then [s] else DropTrailingEmpty(SplitAll(s))
  }

  /** Appending one part to a joined list appends a delimiter and the part. */
  lemma {:induction false} JoinSnoc(parts: seq<string>, x: string)
    requires |parts| > 0
    ensures Join(parts + [x]) == Join(parts) + [Delimiter] + x
  {
    if |parts| == 1 {
      assert parts + [x] == [parts[0], x];
    } else {
      assert (parts + [x])[1..] == parts[1..] + [x];
      JoinSnoc(parts[1..], x);
    }
  }

  /** A joined list starts with its first part and ends with its last part. */
  lemma {:induction false} JoinEnds(parts: seq<string>)
    requires |parts| > 0
    ensures parts[0] <= Join(parts)
    ensures |parts[|parts| - 1]| <= |Join(parts)|
    ensures Join(parts)[|Join(parts)| - |parts[|parts| - 1]|..] == parts[|parts| - 1]
  {
    if |parts| > 1 {
      JoinEnds(parts[1..]);
      var tail := Join(parts[1..]);
      var whole := parts[0] + [Delimiter] + tail;
      assert whole[|whole| - |parts[|parts| - 1]|..] == tail[|tail| - |parts[|parts| - 1]|..];
    }
  }

  /** A string without a delimiter is a single field. */
  lemma {:induction false} SplitAllOfField(a: string)
    requires Delimiter !in a
    ensures SplitAll(a) == [a]
  {
    if |a| > 0 {
      SplitAllOfField(a[1..]);
      assert [a[0]] + a[1..] == a;
    }
  }

  /** A delimiter-free prefix followed by a delimiter is split off as the first field. */
  lemma {:induction false} SplitAllCons(a: string, b: string)
    requires Delimiter !in a
    ensures SplitAll(a + [Delimiter] + b) == [a] + SplitAll(b)
  {
    var s := a + [Delimiter] + b;
    if |a| == 0 {
      assert s[1..] == b;
    } else {
      assert s[1..] == a[1..] + [Delimiter] + b;
      SplitAllCons(a[1..], b);
      assert [a[0]] + a[1..] == a;
    }
  }

  /** Splitting at every delimiter undoes a join of delimiter-free parts. */
  lemma {:induction false} SplitAllJoin(parts: seq<string>)
    requires |parts| > 0
    requires forall i | 0 <= i < |parts| :: Delimiter !in parts[i]
    ensures SplitAll(Join(parts)) == parts
  {
    if |parts| == 1 {
      SplitAllOfField(parts[0]);
    } else {
      SplitAllJoin(parts[1..]);
      SplitAllCons(parts[0], Join(parts[1..]));
      assert [parts[0]] + parts[1..] == parts;
    }
  }

  /** Java's split undoes the join when every part is a non-empty, delimiter-free field. */
  lemma {:induction false} SplitJoin(parts: seq<string>)
    requires |parts| > 0
    requires forall i | 0 <= i < |parts| :: IsField(parts[i])
    ensures Split(Join(parts)) == parts
  {
    SplitAllJoin(parts);
  }

  /** An empty last id is lost: the joined form ends with a delimiter that the split discards. */
  lemma {:induction false} TrailingEmptyFieldIsDropped(id: string)
    requires IsField(id)
    ensures Split(Join([id, ""])) == [id]
  {
    assert Join([id, ""]) == id + [Delimiter] + "";
    SplitAllCons(id, "");
    SplitAllOfField(id);
  }

  /** An id containing the delimiter comes back as two ids. */
  lemma {:induction false} FieldWithDelimiterSplits(a: string, b: string)
    requires IsField(a) && IsField(b)
    ensures Split(Join([a + [Delimiter] + b])) == [a, b]
  {
    SplitAllCons(a, b);
    SplitAllOfField(b);
    assert Delimiter in a + [Delimiter] + b by {
      assert (a + [Delimiter] + b)[|a|] == Delimiter;
    }
  }
}
