/**
  The string operations the directory scan relies on, with Python's meaning:
  `sep.join(parts)`, `s.split(sep)` for a one-character separator (every
  occurrence splits, empty fields are kept) and `s.endswith(suffix)`.
*/
module Strings {

  /** `sep.join(parts)`. */
  function Join(parts: seq<string>, sep: string): string
  {
    if |parts| == 0 then ""
    else if |parts| == 1 then parts[0]
    else parts[0] + sep + Join(parts[1..], sep)
  }

  /** Joining a part in front of at least one more part. */
  lemma JoinCons(first: string, parts: seq<string>, sep: string)
    requires |parts| > 0
    ensures Join([first] + parts, sep) == first + sep + Join(parts, sep)
  {
    assert ([first] + parts)[1..] == parts;
  }

  /** Prepending a character to the first part prepends it to the joined string. */
  lemma JoinExtendFirst(ch: char, parts: seq<string>, sep: string)
    requires |parts| > 0
    ensures Join([[ch] + parts[0]] + parts[1..], sep) == [ch] + Join(parts, sep)
  {
    if |parts| > 1 {
      JoinCons([ch] + parts[0], parts[1..], sep);
      JoinCons(parts[0], parts[1..], sep);
      assert parts == [parts[0]] + parts[1..];
    } else {
      assert [[ch] + parts[0]] + parts[1..] == [[ch] + parts[0]];
    }
  }

  /**
    `fields` are the pieces of `s` between occurrences of `sep`: there is at
    least one, none contains the separator, and joined with the separator
    they give `s` back.
  */
  ghost predicate SplitsInto(s: string, sep: char, fields: seq<string>)
  {
    && |fields| > 0
    && (forall k :: 0 <= k < |fields| ==> sep !in fields[k])
    && Join(fields, [sep]) == s
  }

  /** `s.split(sep)`. */
  function Split(s: string, sep: char): (fields: seq<string>)
    ensures |fields| > 0
    ensures forall k :: 0 <= k < |fields| ==> sep !in fields[k]
    ensures Join(fields, [sep]) == s
    decreases |s|
  {
    if |s| == 0 then [""]
    else
      var rest := Split(s[1..], sep);
      SplitStep(s, sep, rest);
      if s[0] == sep then [""] + rest
      else [[s[0]] + rest[0]] + rest[1..]
  }

  /** The fields of `s` from the fields of `s[1..]`. */
  lemma SplitStep(s: string, sep: char, rest: seq<string>)
    requires |s| > 0 && SplitsInto(s[1..], sep, rest)
    ensures |rest| > 0
    ensures SplitsInto(s, sep, if s[0] == sep then [""] + rest else [[s[0]] + rest[0]] + rest[1..])
  {
    if s[0] == sep {
      SplitStepAtSeparator(s, sep, rest);
    } else {
      SplitStepInField(s, sep, rest);
    }
  }

  lemma SplitStepAtSeparator(s: string, sep: char, rest: seq<string>)
    requires |s| > 0 && s[0] == sep && SplitsInto(s[1..], sep, rest)
    ensures Join([""] + rest, [sep]) == s
  {
    JoinCons("", rest, [sep]);
    assert s == [s[0]] + s[1..];
  }

  lemma SplitStepInField(s: string, sep: char, rest: seq<string>)
    requires |s| > 0 && s[0] != sep && SplitsInto(s[1..], sep, rest)
    ensures var fields := [[s[0]] + rest[0]] + rest[1..];
      && |fields| == |rest|
      && (forall k :: 0 <= k < |fields| ==> sep !in fields[k])
      && Join(fields, [sep]) == s
  {
    var fields := [[s[0]] + rest[0]] + rest[1..];
    JoinExtendFirst(s[0], rest, [sep]);
    assert s == [s[0]] + s[1..];
    assert forall k :: 1 <= k < |fields| ==> fields[k] == rest[k];
  }

  predicate EndsWith(s: string, suffix: string)
  {
    |suffix| <= |s| && s[|s| - |suffix|..] == suffix
  }

  /** The first part is a prefix of the joined string. */
  lemma JoinStartsWithFirst(parts: seq<string>, sep: string)
    requires |parts| > 0
    ensures parts[0] <= Join(parts, sep)
  {
  }

  /** Joining one more part appends the separator and that part. */
  lemma {:induction false} JoinAppend(parts: seq<string>, last: string, sep: string)
    requires |parts| > 0
    ensures Join(parts + [last], sep) == Join(parts, sep) + sep + last
    decreases |parts|
  {
    if |parts| > 1 {
      assert (parts + [last])[1..] == parts[1..] + [last];
      JoinAppend(parts[1..], last, sep);
    }
  }

  /** Splitting text that starts with a separator-free field and a separator. */
  lemma {:induction false} SplitAfterField(field: string, sep: char, rest: string)
    requires sep !in field
    ensures Split(field + [sep] + rest, sep) == [field] + Split(rest, sep)
    decreases |field|
  {
    var s := field + [sep] + rest;
    if |field| == 0 {
      assert s[0] == sep && s[1..] == rest;
    } else {
      assert s[0] == field[0] != sep;
      assert s[1..] == field[1..] + [sep] + rest;
      SplitAfterField(field[1..], sep, rest);
      var r := Split(s[1..], sep);
      assert r == [field[1..]] + Split(rest, sep);
      assert Split(s, sep) == [[s[0]] + r[0]] + r[1..];
      assert r[0] == field[1..] && r[1..] == Split(rest, sep);
      assert field == [field[0]] + field[1..];
    }
  }

  /** There is one more field than there are separators. */
  lemma {:induction false} SplitCount(s: string, sep: char)
    ensures |Split(s, sep)| == multiset(s)[sep] + 1
    decreases |s|
  {
    if |s| > 0 {
      SplitCount(s[1..], sep);
      SplitLengthStep(s, sep);
      OccurrencesStep(s, sep);
    }
  }

  lemma SplitLengthStep(s: string, sep: char)
    requires |s| > 0
    ensures |Split(s, sep)| == |Split(s[1..], sep)| + (if s[0] == sep then 1 else 0)
  {
  }

  lemma OccurrencesStep(s: string, x: char)
    requires |s| > 0
    ensures multiset(s)[x] == multiset(s[1..])[x] + (if s[0] == x then 1 else 0)
  {
    assert s == [s[0]] + s[1..];
  }

  /** A string without the separator is one field. */
  lemma SplitWithoutSeparator(s: string, sep: char)
    requires sep !in s
    ensures Split(s, sep) == [s]
  {
    SplitCount(s, sep);
    assert sep !in multiset(s);
  }

  /** Splitting undoes joining when no part contains the separator. */
  lemma {:induction false} SplitJoin(parts: seq<string>, sep: char)
    requires |parts| > 0
    requires forall k :: 0 <= k < |parts| ==> sep !in parts[k]
    ensures Split(Join(parts, [sep]), sep) == parts
    decreases |parts|
  {
    if |parts| == 1 {
      SplitWithoutSeparator(parts[0], sep);
    } else {
      SplitJoin(parts[1..], sep);
      SplitAfterField(parts[0], sep, Join(parts[1..], [sep]));
      assert parts == [parts[0]] + parts[1..];
    }
  }
}
