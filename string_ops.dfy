/**
 * The string built-ins the processor and the client rely on, written out:
 * single-character `split`, `find`, `rfind`, slicing from an index with
 * Python's negative-index rule, and `replace(pattern, "")`.
 */
module StringOps {

  /** `s` ends with `suffix`. */
  predicate EndsWith(s: string, suffix: string) {
    |suffix| <= |s| && s[|s| - |suffix|..] == suffix
  }

  /** `sub` occurs in `s` starting at index `i`. */
  predicate OccursAt(s: string, sub: string, i: nat) {
    i + |sub| <= |s| && s[i..i + |sub|] == sub
  }

  /** Python's `str.split(sep)` for a one-character separator. */
  function Split(s: string, sep: char): (parts: seq<string>)
    ensures |parts| >= 1
    ensures forall i :: 0 <= i < |parts| ==> sep !in parts[i]
    decreases |s|
  {
    if |s| == 0 then [""]
    else
      var rest := Split(s[1..], sep);
      if s[0] == sep then [""] + rest
      else [[s[0]] + rest[0]] + rest[1..]
  }

  /** `sep.join(parts)`. */
  function Join(parts: seq<string>, sep: char): string
    decreases |parts|
  {
    if |parts| == 0 then ""
    else if |parts| == 1 then parts[0]
    else parts[0] + [sep] + Join(parts[1..], sep)
  }

  /** `s.split(sep)[-1]`: the text after the last separator, or all of `s`. */
  function LastSegment(s: string, sep: char): (r: string)
    ensures sep !in r && EndsWith(s, r)
    ensures sep !in s ==> r == s
    ensures sep in s ==> |r| < |s| && s[|s| - |r| - 1] == sep
  {
    LastPieceOfSplit(s, sep);
    var parts := Split(s, sep);
    assert sep !in s ==> parts == [s] by {
      if sep !in s { SplitWithoutSeparator(s, sep); }
    }
    parts[|parts| - 1]
  }

  /** A string holding the separator splits into at least two pieces. */
  lemma {:induction false} SplitAtSeparator(s: string, sep: char)
    requires sep in s
    ensures |Split(s, sep)| >= 2
    decreases |s|
  {
    if s[0] != sep {
      assert sep in s[1..] by { assert s == [s[0]] + s[1..]; }
      SplitAtSeparator(s[1..], sep);
    }
  }

  /**
   * The last piece of a split is a suffix of the string, and when the
   * separator occurs it is what follows the separator just before it.
   */
  lemma {:induction false} LastPieceOfSplit(s: string, sep: char)
    ensures EndsWith(s, Split(s, sep)[|Split(s, sep)| - 1])
    ensures sep in s ==> |Split(s, sep)[|Split(s, sep)| - 1]| < |s|
    ensures sep in s ==> s[|s| - |Split(s, sep)[|Split(s, sep)| - 1]| - 1] == sep
    decreases |s|
  {
    if |s| > 0 {
      var t := s[1..];
      var rest := Split(t, sep);
      var parts := Split(s, sep);
      var r := rest[|rest| - 1];
      assert s == [s[0]] + t;
      if sep in t {
        LastPieceOfSplit(t, sep);
        SplitAtSeparator(t, sep);
        assert parts[|parts| - 1] == r;
        assert s[|s| - |r|..] == t[|t| - |r|..];
        assert s[|s| - |r| - 1] == t[|t| - |r| - 1];
      } else {
        SplitWithoutSeparator(t, sep);
        if s[0] == sep {
          assert parts == [""] + [t];
        } else {
          assert parts == [s];
        }
      }
    }
  }

  /** Python's `s.find(sub, i)`: the lowest index at or after `i` where `sub` occurs, else -1. */
  function FindFrom(s: string, sub: string, i: nat): (r: int)
    requires i <= |s|
    ensures r == -1 || (i <= r <= |s| && OccursAt(s, sub, r))
    ensures r == -1 ==> forall k :: i <= k <= |s| ==> !OccursAt(s, sub, k)
    ensures r != -1 ==> forall k :: i <= k < r ==> !OccursAt(s, sub, k)
    decreases |s| - i
  {
    if OccursAt(s, sub, i) then i
    else if i == |s| then -1
    else FindFrom(s, sub, i + 1)
  }

  /** Python's `s.find(sub)`. */
  function Find(s: string, sub: string): int {
    FindFrom(s, sub, 0)
  }

  /** A character that does not occur in `s` is not found in it. */
  lemma FindAbsentChar(s: string, c: char)
    requires c !in s
    ensures Find(s, [c]) == -1
  {
    forall k | 0 <= k <= |s| ensures !OccursAt(s, [c], k) {
      if k < |s| {
        assert s[k..k + 1] == [s[k]];
      }
    }
  }

  /** Python's `s.rfind(c)` for one character: the highest index holding `c`, else -1. */
  function RFind(s: string, c: char): (r: int)
    ensures r == -1 <==> c !in s
    ensures r != -1 ==> 0 <= r < |s| && s[r] == c
    ensures forall j :: r < j < |s| ==> s[j] != c
    decreases |s|
  {
    if |s| == 0 then -1
    else if s[|s| - 1] == c then |s| - 1
    else
      var r := RFind(s[..|s| - 1], c);
      assert c !in s[..|s| - 1] ==> c !in s by { assert s == s[..|s| - 1] + [s[|s| - 1]]; }
      r
  }

  /** Python's slice `s[i:]`: a negative `i` counts from the end, clamped at 0. */
  function SliceFrom(s: string, i: int): (r: string)
    ensures EndsWith(s, r)
    ensures i >= 0 ==> |r| == (if i >= |s| then 0 else |s| - i)
    ensures i < 0 ==> |r| == (if -i >= |s| then |s| else -i)
  {
    var start := if i < 0 then (if |s| + i < 0 then 0 else |s| + i)
                 else if i > |s| then |s| else i;
    s[start..]
  }

  /** Python's `s.replace(pattern, "")`: every non-overlapping occurrence, scanned left to right, removed. */
  function RemoveAll(s: string, pattern: string): (r: string)
    ensures |r| <= |s|
    decreases |s|
  {
    if |pattern| == 0 || |s| < |pattern| then s
    else if s[..|pattern|] == pattern then RemoveAll(s[|pattern|..], pattern)
    else [s[0]] + RemoveAll(s[1..], pattern)
  }

  /** An occurrence at `k + 1` in `s` is an occurrence at `k` in `s[1..]`, and back. */
  lemma OccursAtShift(s: string, sub: string, k: nat)
    requires |s| > 0
    ensures OccursAt(s[1..], sub, k) <==> OccursAt(s, sub, k + 1)
  {
    if k + 1 + |sub| <= |s| {
      assert s[1..][k..k + |sub|] == s[k + 1..k + 1 + |sub|];
    }
  }

  /** `replace` leaves a string without an occurrence of the pattern as it is. */
  lemma {:induction false} RemoveAllAbsent(s: string, pattern: string)
    requires forall k :: 0 <= k <= |s| ==> !OccursAt(s, pattern, k)
    ensures RemoveAll(s, pattern) == s
    decreases |s|
  {
    if |pattern| > 0 && |s| >= |pattern| {
      assert !OccursAt(s, pattern, 0);
      forall k | 0 <= k <= |s[1..]| ensures !OccursAt(s[1..], pattern, k) {
        OccursAtShift(s, pattern, k);
      }
      RemoveAllAbsent(s[1..], pattern);
      assert s == [s[0]] + s[1..];
    }
  }

  /**
   * The scan keeps everything before the first occurrence and drops that
   * occurrence: with no occurrence starting inside `a`, the result is `a`
   * followed by the result on what comes after the pattern.
   */
  lemma {:induction false} RemoveAllScan(a: string, pattern: string, b: string)
    requires |pattern| > 0
    requires forall k :: 0 <= k < |a| ==> !OccursAt(a + pattern + b, pattern, k)
    ensures RemoveAll(a + pattern + b, pattern) == a + RemoveAll(b, pattern)
    decreases |a|
  {
    var s := a + pattern + b;
    if |a| == 0 {
      assert s == pattern + b;
      assert s[..|pattern|] == pattern && s[|pattern|..] == b;
    } else {
      assert !OccursAt(s, pattern, 0);
      assert s[..|pattern|] != pattern by { assert s[0..|pattern|] == s[..|pattern|]; }
      var t := a[1..] + pattern + b;
      assert s[1..] == t;
      assert RemoveAll(s, pattern) == [s[0]] + RemoveAll(t, pattern);
      forall k | 0 <= k < |a[1..]| ensures !OccursAt(t, pattern, k) {
        OccursAtShift(s, pattern, k);
      }
      RemoveAllScan(a[1..], pattern, b);
      assert [s[0]] + a[1..] == a;
    }
  }

  /** Splitting distributes over a separator: the pieces of `a` followed by the pieces of `b`. */
  lemma {:induction false} SplitAround(a: string, b: string, sep: char)
    ensures Split(a + [sep] + b, sep) == Split(a, sep) + Split(b, sep)
    decreases |a|
  {
    if |a| == 0 {
      assert a + [sep] + b == [sep] + b;
      assert ([sep] + b)[1..] == b;
    } else {
      assert (a + [sep] + b)[1..] == a[1..] + [sep] + b;
      SplitAround(a[1..], b, sep);
    }
  }

  /** A string without the separator is a single piece. */
  lemma {:induction false} SplitWithoutSeparator(s: string, sep: char)
    requires sep !in s
    ensures Split(s, sep) == [s]
    decreases |s|
  {
    if |s| > 0 {
      assert sep !in s[1..] by {
        forall k | 0 <= k < |s[1..]| ensures s[1..][k] != sep { assert s[1..][k] == s[k + 1]; }
      }
      SplitWithoutSeparator(s[1..], sep);
      assert [s[0]] + s[1..] == s;
    }
  }

  /** Joining the pieces back with the separator gives the original string. */
  lemma {:induction false} JoinSplit(s: string, sep: char)
    ensures Join(Split(s, sep), sep) == s
    decreases |s|
  {
    if |s| > 0 {
      var rest := Split(s[1..], sep);
      JoinSplit(s[1..], sep);
      if s[0] == sep {
        assert Split(s, sep) == [""] + rest;
        assert ([""] + rest)[1..] == rest;
        assert s == [sep] + s[1..];
      } else {
        var parts := Split(s, sep);
        assert parts == [[s[0]] + rest[0]] + rest[1..];
        if |rest| == 1 {
          assert s == [s[0]] + rest[0];
        } else {
          assert parts[1..] == rest[1..];
          assert Join(rest, sep) == rest[0] + [sep] + Join(rest[1..], sep);
          assert s == [s[0]] + s[1..];
        }
      }
    }
  }

  /** The last piece after a separator depends only on what follows that separator. */
  lemma LastSegmentAround(a: string, b: string, sep: char)
    ensures LastSegment(a + [sep] + b, sep) == LastSegment(b, sep)
  {
    SplitAround(a, b, sep);
    var pa, pb := Split(a, sep), Split(b, sep);
    assert (pa + pb)[|pa + pb| - 1] == pb[|pb| - 1];
  }
}
