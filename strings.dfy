/** String helpers with Python's meaning: substring test, `str.split` on one character,
    its inverse `str.join`, and ASCII lower-casing. */
module Strings {

  /** `sub in s` for Python strings. */
  predicate Contains(s: string, sub: string)
    decreases |s|
  {
    sub <= s || (|s| > 0 && Contains(s[1..], sub))
  }

  /** `s.split(sep)` for a one-character separator: the fields between separators, in order. */
  function Split(s: string, sep: char): (fields: seq<string>)
    ensures |fields| >= 1
    decreases |s|
  {
    if |s| == 0 then [""]
    else if s[0] == sep then [""] + Split(s[1..], sep)
    else
      var rest := Split(s[1..], sep);
      [[s[0]] + rest[0]] + rest[1..]
  }

  /** `sep.join(fields)`. */
  function Join(fields: seq<string>, sep: char): string
    decreases |fields|
  {
    if |fields| == 0 then ""
    else if |fields| == 1 then fields[0]
    else fields[0] + [sep] + Join(fields[1..], sep)
  }

  /** Number of occurrences of `c` in `s`. */
  function Occurrences(s: string, c: char): nat
    decreases |s|
  {
    if |s| == 0 then 0 else (if s[0] == c then 1 else 0) + Occurrences(s[1..], c)
  }

  /** Joining the fields of a split gives back the string. */
  lemma {:induction false} JoinSplit(s: string, sep: char)
    ensures Join(Split(s, sep), sep) == s
    decreases |s|
  {
    if |s| == 0 {
    } else if s[0] == sep {
      JoinSplit(s[1..], sep);
      var rest := Split(s[1..], sep);
      assert Split(s, sep) == [""] + rest;
      if |rest| == 1 {
        assert Join([""] + rest, sep) == "" + [sep] + rest[0];
      } else {
        assert ([""] + rest)[1..] == rest;
      }
      assert s == [s[0]] + s[1..];
    } else {
      JoinSplit(s[1..], sep);
      var rest := Split(s[1..], sep);
      var fields := [[s[0]] + rest[0]] + rest[1..];
      assert Split(s, sep) == fields;
      if |rest| == 1 {
        assert Join(fields, sep) == [s[0]] + rest[0];
      } else {
        assert fields[1..] == rest[1..];
        assert Join(rest, sep) == rest[0] + [sep] + Join(rest[1..], sep);
      }
      assert s == [s[0]] + s[1..];
    }
  }

  /** No field of a split contains the separator, and there is one more field than separators. */
  lemma {:induction false} SplitFields(s: string, sep: char)
    ensures |Split(s, sep)| == Occurrences(s, sep) + 1
    ensures forall i, j :: 0 <= i < |Split(s, sep)| && 0 <= j < |Split(s, sep)[i]| ==> Split(s, sep)[i][j] != sep
    decreases |s|
  {
    if |s| > 0 {
      SplitFields(s[1..], sep);
    }
  }

  /** A string with no separator splits into itself alone. */
  lemma {:induction false} SplitNoSeparator(p: string, sep: char)
    requires forall j :: 0 <= j < |p| ==> p[j] != sep
    ensures Split(p, sep) == [p]
    decreases |p|
  {
    if |p| > 0 {
      SplitNoSeparator(p[1..], sep);
      assert [p[0]] + p[1..] == p;
    }
  }

  /** A leading separator-free field followed by a separator splits off first. */
  lemma {:induction false} SplitFirstField(p: string, sep: char, r: string)
    requires forall j :: 0 <= j < |p| ==> p[j] != sep
    ensures Split(p + [sep] + r, sep) == [p] + Split(r, sep)
    decreases |p|
  {
    if |p| == 0 {
      assert p + [sep] + r == [sep] + r;
      assert ([sep] + r)[1..] == r;
    } else {
      SplitFirstField(p[1..], sep, r);
      assert (p + [sep] + r)[1..] == p[1..] + [sep] + r;
      assert [p[0]] + p[1..] == p;
    }
  }

  /** The second field of "<head><sep><field>" or "<head><sep><field><sep>..." is `field`. */
  lemma SecondField(head: string, sep: char, field: string, rest: string)
    requires forall j :: 0 <= j < |head| ==> head[j] != sep
    requires forall j :: 0 <= j < |field| ==> field[j] != sep
    requires rest == [] || rest[0] == sep
    ensures |Split(head + [sep] + field + rest, sep)| >= 2
    ensures Split(head + [sep] + field + rest, sep)[1] == field
  {
    assert head + [sep] + field + rest == head + [sep] + (field + rest);
    SplitFirstField(head, sep, field + rest);
    if rest == [] {
      assert field + rest == field;
      SplitNoSeparator(field, sep);
    } else {
      assert field + rest == field + [sep] + rest[1..];
      SplitFirstField(field, sep, rest[1..]);
    }
  }

  /** A substring that contains `c` makes `c` occur in the string. */
  lemma {:induction false} ContainsOccurrence(s: string, sub: string, k: nat, c: char)
    requires Contains(s, sub)
    requires k < |sub| && sub[k] == c
    ensures Occurrences(s, c) >= 1
    decreases |s|
  {
    if sub <= s {
      OccursAt(s, k, c);
    } else {
      ContainsOccurrence(s[1..], sub, k, c);
    }
  }

  lemma {:induction false} OccursAt(s: string, k: nat, c: char)
    requires k < |s| && s[k] == c
    ensures Occurrences(s, c) >= 1
    decreases |s|
  {
    if k > 0 {
      OccursAt(s[1..], k - 1, c);
    }
  }

  /** A substring of a suffix is a substring of the whole string. */
  lemma {:induction false} ContainsInSuffix(s: string, k: nat, sub: string)
    requires k <= |s| && Contains(s[k..], sub)
    ensures Contains(s, sub)
    decreases k
  {
    if k > 0 {
      assert s[1..][k - 1..] == s[k..];
      ContainsInSuffix(s[1..], k - 1, sub);
    }
  }

  /** Python's `str.lower()` restricted to ASCII letters. */
  function LowerChar(c: char): (r: char)
    ensures 'A' <= c <= 'Z' ==> r as int == c as int + 32
    ensures !('A' <= c <= 'Z') ==> r == c
  {
    if 'A' <= c <= 'Z' then (c as int + 32) as char else c
  }

  function Lower(s: string): (r: string)
    ensures |r| == |s|
    ensures forall i :: 0 <= i < |s| ==> r[i] == LowerChar(s[i])
  {
    seq(|s|, i requires 0 <= i < |s| => LowerChar(s[i]))
  }
}
