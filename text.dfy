/*
 * Option type and the string helpers the plugin manager relies on: the
 * case-insensitive comparison it uses for names and the "All" token, the
 * comma-separated allow list (String.Split), the comma-joined reports built
 * with AppendPrePad, and the HasChars / Mid extension methods.
 */

module Wrappers {

  /** Some value, or None where the source has a null reference. */
  datatype Option<+T> = None | Some(value: T)
}

module Text {
  import opened Wrappers

  /** ASCII lower-casing of one character; stands in for invariant-culture case folding. */
  function LowerChar(c: char): char
  {
    if 'A' <= c <= 'Z' then (c as int - 'A' as int + 'a' as int) as char else c
  }

  function Lower(s: string): string
  {
    seq(|s|, i requires 0 <= i < |s| => LowerChar(s[i]))
  }

  /** String.Equals(a, b, StringComparison.InvariantCultureIgnoreCase). */
  predicate EqualsIgnoreCase(a: string, b: string)
  {
    Lower(a) == Lower(b)
  }

  /** HasChars: not null and not empty (None stands for null). */
  predicate HasChars(s: Option<string>)
  {
    s.Some? && |s.value| > 0
  }

  /** Mid(start): the suffix from index start, or "" when the string is not longer than that. */
  function Mid(s: string, start: nat): (r: string)
    ensures start < |s| ==> s == s[..start] + r
    ensures start >= |s| ==> r == ""
  {
    if start < |s| then s[start..] else ""
  }

  /** AppendPrePad: append item, putting the separator in front of it only when acc is not empty. */
  function AppendPrePad(acc: string, item: string, sep: string): (r: string)
    ensures acc == "" ==> r == item
    ensures acc != "" ==> r == acc + sep + item
  {
    if |acc| > 0 then acc + sep + item else item
  }

  /** The string obtained by folding AppendPrePad over items, starting from "". */
  function Joined(items: seq<string>, sep: string): string
    decreases |items|
  {
    if items == [] then "" else AppendPrePad(Joined(items[..|items| - 1], sep), items[|items| - 1], sep)
  }

  lemma JoinedSnoc(items: seq<string>, x: string, sep: string)
    ensures Joined(items + [x], sep) == AppendPrePad(Joined(items, sep), x, sep)
  {
    assert (items + [x])[..|items|] == items;
  }

  /** The number of times c occurs in s. */
  function Occurrences(s: string, c: char): nat
  {
    if s == [] then 0 else (if s[0] == c then 1 else 0) + Occurrences(s[1..], c)
  }

  /** String.Split(sep): every field between separators, empty fields included; never an empty list. */
  function Split(s: string, sep: char): (r: seq<string>)
    ensures |r| == Occurrences(s, sep) + 1
    ensures forall k :: 0 <= k < |r| ==> sep !in r[k]
  {
    if s == [] then [""]
    else if s[0] == sep then [""] + Split(s[1..], sep)
    else
      var rest := Split(s[1..], sep);
      [[s[0]] + rest[0]] + rest[1..]
  }

  /** String.Join(sep, fields): the inverse of Split. */
  function Join(fields: seq<string>, sep: char): string
  {
    if fields == [] then ""
    else if |fields| == 1 then fields[0]
    else fields[0] + [sep] + Join(fields[1..], sep)
  }

  predicate NoSeparator(fields: seq<string>, sep: char)
  {
    forall k :: 0 <= k < |fields| ==> sep !in fields[k]
  }

  predicate NoneEmpty(fields: seq<string>)
  {
    forall k :: 0 <= k < |fields| ==> fields[k] != ""
  }

  lemma {:induction false} JoinPrependFirst(c: char, fields: seq<string>, sep: char)
    requires |fields| >= 1
    ensures Join([[c] + fields[0]] + fields[1..], sep) == [c] + Join(fields, sep)
  {
    var g := [[c] + fields[0]] + fields[1..];
    assert g[1..] == fields[1..];
  }

  /** Joining the fields of a split with the same separator gives back the original string. */
  lemma {:induction false} JoinSplit(s: string, sep: char)
    ensures Join(Split(s, sep), sep) == s
  {
    if s == [] {
    } else if s[0] == sep {
      var rest := Split(s[1..], sep);
      JoinSplit(s[1..], sep);
      assert ([""] + rest)[1..] == rest;
      assert s == [sep] + s[1..];
    } else {
      var rest := Split(s[1..], sep);
      JoinSplit(s[1..], sep);
      JoinPrependFirst(s[0], rest, sep);
      assert s == [s[0]] + s[1..];
    }
  }

  lemma {:induction false} SplitNoSeparator(s: string, sep: char)
    requires sep !in s
    ensures Split(s, sep) == [s]
  {
    if s != [] {
      SplitNoSeparator(s[1..], sep);
      assert s == [s[0]] + s[1..];
    }
  }

  lemma SplitCons(c: char, t: string, sep: char)
    ensures c == sep ==> Split([c] + t, sep) == [""] + Split(t, sep)
    ensures c != sep ==> Split([c] + t, sep) == [[c] + Split(t, sep)[0]] + Split(t, sep)[1..]
  {
    assert ([c] + t)[1..] == t;
  }

  lemma {:induction false} SplitAppend(a: string, b: string, sep: char)
    ensures Split(a + [sep] + b, sep) == Split(a, sep) + Split(b, sep)
  {
    if a == [] {
      SplitCons(sep, b, sep);
      assert a + [sep] + b == [sep] + b;
    } else {
      var t := a[1..] + [sep] + b;
      assert a + [sep] + b == [a[0]] + t;
      assert a == [a[0]] + a[1..];
      SplitAppend(a[1..], b, sep);
      SplitCons(a[0], t, sep);
      SplitCons(a[0], a[1..], sep);
      if a[0] != sep {
        ConsFirst(a[0], Split(a[1..], sep), Split(b, sep));
      }
    }
  }

  /** Extending the first field of a list of fields commutes with appending more fields. */
  lemma ConsFirst(c: char, ra: seq<string>, rb: seq<string>)
    requires |ra| >= 1
    ensures [[c] + (ra + rb)[0]] + (ra + rb)[1..] == ([[c] + ra[0]] + ra[1..]) + rb
  {
    assert (ra + rb)[0] == ra[0];
    assert (ra + rb)[1..] == ra[1..] + rb;
  }

  /** Splitting a join of separator-free fields gives back the fields. */
  lemma {:induction false} SplitJoin(fields: seq<string>, sep: char)
    requires |fields| >= 1
    requires NoSeparator(fields, sep)
    ensures Split(Join(fields, sep), sep) == fields
  {
    if |fields| == 1 {
      SplitNoSeparator(fields[0], sep);
    } else {
      SplitJoin(fields[1..], sep);
      SplitNoSeparator(fields[0], sep);
      SplitAppend(fields[0], Join(fields[1..], sep), sep);
      assert fields == [fields[0]] + fields[1..];
    }
  }

  lemma {:induction false} JoinSnoc(fields: seq<string>, x: string, sep: char)
    requires |fields| >= 1
    ensures Join(fields + [x], sep) == Join(fields, sep) + [sep] + x
  {
    var g := fields + [x];
    if |fields| == 1 {
      assert g[1..] == [x];
    } else {
      assert g[1..] == fields[1..] + [x];
      JoinSnoc(fields[1..], x, sep);
    }
  }

  /** With no empty item, the AppendPrePad fold is exactly a join with that separator. */
  lemma {:induction false} JoinedIsJoin(items: seq<string>, sep: char)
    requires NoneEmpty(items)
    ensures Joined(items, [sep]) == Join(items, sep)
  {
    if |items| > 1 {
      var init := items[..|items| - 1];
      JoinedIsJoin(init, sep);
      JoinSnoc(init, items[|items| - 1], sep);
      assert init + [items[|items| - 1]] == items;
      assert Join(init, sep) != "" by {
        assert init == [init[0]] + init[1..];
        assert init[0] != "";
      }
    } else if |items| == 1 {
      assert items[..0] == [];
    }
  }

  /**
   * A comma-joined report of names that are neither empty nor contain a comma
   * reads back, by splitting at the commas, as exactly the list of names; the
   * report is empty exactly when there are no names.
   */
  lemma ReportReadsBack(items: seq<string>)
    requires NoneEmpty(items) && NoSeparator(items, ',')
    ensures items == [] <==> Joined(items, ",") == ""
    ensures items != [] ==> Split(Joined(items, ","), ',') == items
  {
    JoinedIsJoin(items, ',');
    if items != [] {
      SplitJoin(items, ',');
    }
  }
}
