/**
 * The purchase-date rewrite of the calculator: the value of the date input,
 * `YYYY-MM-DD`, is split on '-' and rebuilt as `MM/01/YYYY`, the form in which
 * the historical series are dated. The day field is dropped, so every day of a
 * month looks up the same (first-of-month) observation.
 */
module DateKey {

  /** Joins non-empty `parts` with `sep` between consecutive parts. */
  function Join(parts: seq<string>, sep: char): string
    requires |parts| >= 1
  {
    if |parts| == 1 then parts[0] else parts[0] + [sep] + Join(parts[1..], sep)
  }

  /**
   * JavaScript's `s.split(sep)` for a one-character separator: the maximal
   * pieces between occurrences of `sep`, empty pieces included, so that the
   * empty string splits into one empty piece.
   */
  function Split(s: string, sep: char): (parts: seq<string>)
    ensures |parts| >= 1
    ensures |parts| == Occurrences(s, sep) + 1
    ensures forall k :: 0 <= k < |parts| ==> sep !in parts[k]
    ensures Join(parts, sep) == s
  {
    if s == [] then [""]
    else
      var rest := Split(s[1..], sep);
      if s[0] == sep then
        [""] + rest
      else
        assert ([[s[0]] + rest[0]] + rest[1..])[1..] == rest[1..];
        [[s[0]] + rest[0]] + rest[1..]
  }

  /** Number of occurrences of `c` in `s`. */
  function Occurrences(s: string, c: char): nat
  {
    if s == [] then 0 else (if s[0] == c then 1 else 0) + Occurrences(s[1..], c)
  }

  /** Destructuring `[a, b, c] = parts`: a position past the end reads `undefined`,
      which a template literal renders as the text "undefined". */
  function Field(parts: seq<string>, k: nat): string
  {
    if k < |parts| then parts[k] else "undefined"
  }

  /** The lookup key built from the date input's value (app/page.tsx:80-81). */
  function LookupKey(purchaseDate: string): string
  {
    var parts := Split(purchaseDate, '-');
    Field(parts, 1) + "/01/" + Field(parts, 0)
  }

  /** Splitting a piece with no separator in it leaves it whole. */
  lemma {:induction false} SplitPlain(p: string, sep: char)
    requires sep !in p
    ensures Split(p, sep) == [p]
  {
    if p != [] {
      SplitPlain(p[1..], sep);
    }
  }

  /** Splitting stops at the first separator. */
  lemma {:induction false} SplitAtFirst(p: string, sep: char, t: string)
    requires sep !in p
    ensures Split(p + [sep] + t, sep) == [p] + Split(t, sep)
  {
    if p == [] {
      assert p + [sep] + t == [sep] + t;
      assert ([sep] + t)[1..] == t;
    } else {
      SplitAtFirst(p[1..], sep, t);
      assert (p + [sep] + t)[1..] == p[1..] + [sep] + t;
      assert [p[0]] + p[1..] == p;
    }
  }

  /** Split undoes Join when no part contains the separator. */
  lemma {:induction false} SplitJoin(parts: seq<string>, sep: char)
    requires |parts| >= 1
    requires forall k :: 0 <= k < |parts| ==> sep !in parts[k]
    ensures Split(Join(parts, sep), sep) == parts
  {
    if |parts| == 1 {
      SplitPlain(parts[0], sep);
    } else {
      SplitJoin(parts[1..], sep);
      SplitAtFirst(parts[0], sep, Join(parts[1..], sep));
      assert [parts[0]] + parts[1..] == parts;
    }
  }

  /** A well-formed `Y-M-D` value is keyed as exactly `M/01/Y`. */
  lemma IsoDateKey(year: string, month: string, day: string)
    requires '-' !in year && '-' !in month && '-' !in day
    ensures LookupKey(year + "-" + month + "-" + day) == month + "/01/" + year
  {
    var parts := [year, month, day];
    assert Join(parts, '-') == year + "-" + month + "-" + day by {
      assert parts[1..] == [month, day];
      assert parts[1..][1..] == [day];
      assert Join([day], '-') == day;
      assert Join([month, day], '-') == month + "-" + day;
    }
    SplitJoin(parts, '-');
  }

  /** The day field is discarded: two dates in the same year and month share a key. */
  lemma SameMonthSameKey(year: string, month: string, day1: string, day2: string)
    requires '-' !in year && '-' !in month && '-' !in day1 && '-' !in day2
    ensures LookupKey(year + "-" + month + "-" + day1) == LookupKey(year + "-" + month + "-" + day2)
  {
    IsoDateKey(year, month, day1);
    IsoDateKey(year, month, day2);
  }

  /** Keys of different months or years differ, so the rewrite loses only the day. */
  lemma KeyDeterminesMonthAndYear(y1: string, m1: string, d1: string, y2: string, m2: string, d2: string)
    requires '-' !in y1 && '-' !in m1 && '-' !in d1 && '-' !in y2 && '-' !in m2 && '-' !in d2
    requires '/' !in y1 && '/' !in m1 && '/' !in y2 && '/' !in m2
    requires LookupKey(y1 + "-" + m1 + "-" + d1) == LookupKey(y2 + "-" + m2 + "-" + d2)
    ensures m1 == m2 && y1 == y2
  {
    IsoDateKey(y1, m1, d1);
    IsoDateKey(y2, m2, d2);
    KeyFields(m1, y1);
    KeyFields(m2, y2);
  }

  /** Read back as `MM/DD/YYYY`, a key built from slash-free fields always has day "01". */
  lemma KeyFields(month: string, year: string)
    requires '/' !in month && '/' !in year
    ensures Split(month + "/01/" + year, '/') == [month, "01", year]
  {
    var parts := [month, "01", year];
    assert Join(parts, '/') == month + "/01/" + year by {
      assert parts[1..] == ["01", year];
      assert parts[1..][1..] == [year];
      assert Join([year], '/') == year;
      assert Join(["01", year], '/') == "01/" + year;
    }
    SplitJoin(parts, '/');
  }

  /** An unset date input (the empty string) gives the key "undefined/01/". */
  lemma EmptyDateKey()
    ensures LookupKey("") == "undefined/01/"
  {
  }
}
