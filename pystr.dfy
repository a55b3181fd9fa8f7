/**
 * Python's `s.split(sep)` with a one-character separator, as used by
 * `short_case_name`, and the proof helpers `sep.join(parts)` (its inverse)
 * and `s.find(c)`.
 */
module PyStr {

  /**
   * `s.split(sep)`: the pieces between separators, empty ones included, in order.
   * Like Python, the result is never empty: `"".split(".") == [""]`,
   * `"a.".split(".") == ["a", ""]`.
   */
  function Split(s: string, sep: char): (parts: seq<string>)
    ensures |parts| >= 1
    ensures |parts| == 1 <==> sep !in s
    ensures forall i :: 0 <= i < |parts| ==> sep !in parts[i]
    decreases |s|
  {
    if s == [] then [""]
    else
      var rest := Split(s[1..], sep);
      if s[0] == sep then [""] + rest
      else [[s[0]] + rest[0]] + rest[1..]
  }

  /** `sep.join(parts)` for a non-empty list of parts. */
  function Join(parts: seq<string>, sep: char): (s: string)
    requires |parts| >= 1
    decreases |parts|
  {
    if |parts| == 1 then parts[0]
    else parts[0] + [sep] + Join(parts[1..], sep)
  }

  /** Splitting loses nothing: joining the parts back gives the original string. */
  lemma {:induction false} JoinSplit(s: string, sep: char)
    ensures Join(Split(s, sep), sep) == s
    decreases |s|
  {
    if s != [] {
      var rest := Split(s[1..], sep);
      JoinSplit(s[1..], sep);
      if s[0] == sep {
        assert Split(s, sep) == [""] + rest;
        assert ([""] + rest)[1..] == rest;
      } else {
        var parts := [[s[0]] + rest[0]] + rest[1..];
        assert Split(s, sep) == parts;
        if |rest| == 1 {
          assert parts == [[s[0]] + rest[0]];
        } else {
          assert parts[1..] == rest[1..];
          assert Join(rest, sep) == rest[0] + [sep] + Join(rest[1..], sep);
          assert Join(parts, sep) == [s[0]] + rest[0] + [sep] + Join(rest[1..], sep);
        }
      }
    }
  }

  /** The last part of a join of two or more parts follows the last separator. */
  lemma {:induction false} JoinLast(parts: seq<string>, sep: char)
    requires |parts| >= 2
    ensures Join(parts, sep) == Join(parts[..|parts| - 1], sep) + [sep] + parts[|parts| - 1]
    decreases |parts|
  {
    if |parts| > 2 {
      JoinLast(parts[1..], sep);
      assert parts[1..][..|parts| - 2] == parts[..|parts| - 1][1..];
      assert parts[1..][|parts| - 2] == parts[|parts| - 1];
    } else {
      assert parts[..1] == [parts[0]];
      assert parts[1..] == [parts[1]];
    }
  }

  /** `s.find(c)` for a character known to occur: the index of its first occurrence. */
  function Find(s: string, c: char): (i: nat)
    requires c in s
    ensures i < |s| && s[i] == c
    ensures c !in s[..i]
    decreases |s|
  {
    if s[0] == c then 0
    else
      assert c in s[1..] by {
        var k :| 0 <= k < |s| && s[k] == c;
        assert s[1..][k - 1] == c;
      }
      var j := Find(s[1..], c);
      assert s[..j + 1] == [s[0]] + s[1..][..j];
      j + 1
  }

  /**
   * An independent account of `s.split(sep)[-1]`: walk back from the end of
   * `s` and keep characters until the first separator.
   */
  function LastSegment(s: string, sep: char): (r: string)
    ensures sep !in r
    ensures |r| <= |s| && s[|s| - |r|..] == r
    ensures sep in s ==> |r| < |s| && s[|s| - |r| - 1] == sep
    ensures sep !in s ==> r == s
    decreases |s|
  {
    if s == [] then []
    else if s[|s| - 1] == sep then []
    else
      var init := s[..|s| - 1];
      assert s == init + [s[|s| - 1]];
      LastSegment(init, sep) + [s[|s| - 1]]
  }

  /**
   * A separator-free suffix that is either the whole string or preceded by the
   * separator is unique: it is the segment after the last separator.
   */
  lemma LastSegmentUnique(s: string, sep: char, r1: string, r2: string)
    requires sep !in r1 && |r1| <= |s| && s[|s| - |r1|..] == r1
    requires sep in s ==> |r1| < |s| && s[|s| - |r1| - 1] == sep
    requires sep !in s ==> r1 == s
    requires sep !in r2 && |r2| <= |s| && s[|s| - |r2|..] == r2
    requires sep in s ==> |r2| < |s| && s[|s| - |r2| - 1] == sep
    requires sep !in s ==> r2 == s
    ensures r1 == r2
  {
  }
}
