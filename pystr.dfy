/** Python's `str.split(sep)` and `sep.join(parts)` for a non-empty separator.
    `split` cuts at the leftmost occurrence of `sep`, then continues after it
    (occurrences never overlap), and always returns at least one piece:
    `"".split(x) == [""]`. */
module PyStr {
  import opened Wrappers

  /** `sep` occurs in `s` starting at index `i`. */
  predicate OccursAt(s: string, sep: string, i: int) {
    0 <= i && i + |sep| <= |s| && s[i..i + |sep|] == sep
  }

  /** Python's `sep in s`. */
  predicate Contains(s: string, sep: string) {
    exists i | 0 <= i <= |s| :: OccursAt(s, sep, i)
  }

  /** The leftmost occurrence of `sep` in `s` at or after `from` (Python's `s.find(sep, from)`). */
  function FindFrom(s: string, sep: string, from: nat): (r: Option<nat>)
    requires |sep| > 0 && from <= |s|
    ensures r.Some? ==> from <= r.value && OccursAt(s, sep, r.value)
    ensures forall j :: from <= j && (r.None? || j < r.value) ==> !OccursAt(s, sep, j)
    decreases |s| - from
  {
    if from + |sep| > |s| then None
    else if s[from..from + |sep|] == sep then Some(from)
    else FindFrom(s, sep, from + 1)
  }

  function Find(s: string, sep: string): (r: Option<nat>)
    requires |sep| > 0
    ensures r.Some? <==> Contains(s, sep)
    ensures r.Some? ==> OccursAt(s, sep, r.value)
    ensures forall j :: 0 <= j && (r.None? || j < r.value) ==> !OccursAt(s, sep, j)
  {
    FindFrom(s, sep, 0)
  }

  /** Python's `s.split(sep)`: the pieces between non-overlapping leftmost occurrences. */
  function Split(s: string, sep: string): (parts: seq<string>)
    requires |sep| > 0
    ensures |parts| >= 1
    decreases |s|
  {
    match Find(s, sep)
    case None => [s]
    case Some(i) => [s[..i]] + Split(s[i + |sep|..], sep)
  }

  /** No piece of a split holds the separator. */
  lemma {:induction false} SplitPiecesLackSeparator(s: string, sep: string)
    requires |sep| > 0
    ensures forall k :: 0 <= k < |Split(s, sep)| ==> !Contains(Split(s, sep)[k], sep)
    decreases |s|
  {
    var found := Find(s, sep);
    if found.Some? {
      var i := found.value;
      var head, rest := s[..i], s[i + |sep|..];
      assert !Contains(head, sep) by {
        forall j | 0 <= j <= |head| ensures !OccursAt(head, sep, j) {
          if j + |sep| <= |head| {
            assert !OccursAt(s, sep, j);
            assert head[j..j + |sep|] == s[j..j + |sep|];
          }
        }
      }
      SplitPiecesLackSeparator(rest, sep);
      var parts, tailParts := Split(s, sep), Split(rest, sep);
      assert parts == [head] + tailParts;
      forall k | 0 <= k < |parts| ensures !Contains(parts[k], sep) {
        if k > 0 {
          assert parts[k] == tailParts[k - 1];
        }
      }
    }
  }

  /** Python's `sep.join(parts)`. */
  function Join(parts: seq<string>, sep: string): string
  {
    if |parts| == 0 then ""
    else if |parts| == 1 then parts[0]
    else parts[0] + sep + Join(parts[1..], sep)
  }

  /** A one-character separator occurs exactly where that character stands. */
  lemma OccursAtChar(s: string, c: char, i: int)
    ensures OccursAt(s, [c], i) <==> 0 <= i < |s| && s[i] == c
  {
    if 0 <= i < |s| {
      assert s[i..i + 1] == [s[i]];
    }
  }

  lemma NotContainsChar(s: string, c: char)
    ensures !Contains(s, [c]) <==> c !in s
  {
    if c in s {
      var i :| 0 <= i < |s| && s[i] == c;
      OccursAtChar(s, c, i);
    }
    if Contains(s, [c]) {
      var i :| OccursAt(s, [c], i);
      OccursAtChar(s, c, i);
    }
  }

  /** Splitting and joining again gives back the original string. */
  lemma {:induction false} SplitJoin(s: string, sep: string)
    requires |sep| > 0
    ensures Join(Split(s, sep), sep) == s
    decreases |s|
  {
    var found := Find(s, sep);
    if found.Some? {
      var i := found.value;
      var head, rest := s[..i], s[i + |sep|..];
      assert s[i..i + |sep|] == sep;
      assert s == head + sep + rest;
      var tailParts := Split(rest, sep);
      SplitJoin(rest, sep);
      var parts := [head] + tailParts;
      assert Split(s, sep) == parts;
      assert parts[0] == head && parts[1..] == tailParts;
      assert Join(parts, sep) == head + sep + Join(tailParts, sep);
    }
  }

  /** A string without `sep` is a single piece. */
  lemma SplitWithout(s: string, sep: string)
    requires |sep| > 0 && !Contains(s, sep)
    ensures Split(s, sep) == [s]
  {
  }

  /** When the leftmost occurrence of `sep` in `s + sep + t` is the one after `s`,
      the first piece is `s`. */
  lemma SplitHeadAt(s: string, sep: string, t: string)
    requires |sep| > 0
    requires forall j :: 0 <= j < |s| ==> !OccursAt(s + sep + t, sep, j)
    ensures Split(s + sep + t, sep)[0] == s
    ensures Split(s + sep + t, sep)[1..] == Split(t, sep)
  {
    var u := s + sep + t;
    assert u[|s|..|s| + |sep|] == sep;
    assert OccursAt(u, sep, |s|);
    var i := Find(u, sep).value;
    assert i == |s|;
    assert u[..i] == s;
    assert u[i + |sep|..] == t;
  }

  /** For a one-character separator, splitting undoes joining pieces that do not hold it. */
  lemma {:induction false} JoinSplit(parts: seq<string>, c: char)
    requires |parts| >= 1
    requires forall k :: 0 <= k < |parts| ==> c !in parts[k]
    ensures Split(Join(parts, [c]), [c]) == parts
    decreases |parts|
  {
    if |parts| == 1 {
      NotContainsChar(parts[0], c);
    } else {
      var p, rest := parts[0], Join(parts[1..], [c]);
      forall j | 0 <= j < |p| ensures !OccursAt(p + [c] + rest, [c], j) {
        OccursAtChar(p + [c] + rest, c, j);
        assert (p + [c] + rest)[j] == p[j];
      }
      SplitHeadAt(p, [c], rest);
      JoinSplit(parts[1..], c);
    }
  }
}
