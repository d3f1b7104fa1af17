/**
 * What the substring searches of the growable string promise: where a
 * pattern occurs in a text, the C library's `strstr` as a reference
 * definition, and the border facts behind the KMP failure table.
 */
module StringSearch {

  /** Character `t` of `pat` sits at position `i + t` of `text`. */
  ghost predicate CharMatch(text: seq<char>, pat: seq<char>, i: int, t: int)
  {
    0 <= i + t < |text| && 0 <= t < |pat| && text[i + t] == pat[t]
  }

  /** The first `n` characters of `pat` appear in `text` starting at `i`. */
  ghost predicate MatchesAt(text: seq<char>, pat: seq<char>, i: int, n: int)
  {
    0 <= i && 0 <= n <= |pat| && i + n <= |text| &&
    forall t :: 0 <= t < n ==> CharMatch(text, pat, i, t)
  }

  /** The whole of `pat` occurs in `text` starting at `i`. */
  ghost predicate OccursAt(text: seq<char>, pat: seq<char>, i: int)
  {
    MatchesAt(text, pat, i, |pat|)
  }

  /** `idx` is the least start of an occurrence, or -1 when there is none. */
  ghost predicate IsFirstOccurrence(text: seq<char>, pat: seq<char>, idx: int)
  {
    if idx == -1 then forall s :: !OccursAt(text, pat, s)
    else OccursAt(text, pat, idx) && forall s :: 0 <= s < idx ==> !OccursAt(text, pat, s)
  }

  lemma FirstOccurrenceUnique(text: seq<char>, pat: seq<char>, i: int, j: int)
    requires IsFirstOccurrence(text, pat, i) && IsFirstOccurrence(text, pat, j)
    ensures i == j
  {
    if i != -1 && j != -1 {
      assert !(i < j) && !(j < i);
    }
  }

  /**
   * `strstr(text + from, pat)` as an index into `text`: the first occurrence
   * starting at `from` or later, or -1. Characters are never NUL, so the
   * terminator only bounds the search.
   */
  function Strstr(text: seq<char>, pat: seq<char>, from: nat): (r: int)
    requires from <= |text|
    ensures r == -1 || (from <= r && OccursAt(text, pat, r))
    ensures r == -1 ==> forall s :: from <= s ==> !OccursAt(text, pat, s)
    ensures r != -1 ==> forall s :: from <= s < r ==> !OccursAt(text, pat, s)
    decreases |text| - from
  {
    if from + |pat| > |text| then -1
    else
      SliceMatch(text, pat, from);
      if text[from..from + |pat|] == pat then from
      else Strstr(text, pat, from + 1)
  }

  /** Comparing a slice with the pattern is the same as an occurrence there. */
  lemma SliceMatch(text: seq<char>, pat: seq<char>, i: nat)
    requires i + |pat| <= |text|
    ensures text[i..i + |pat|] == pat <==> OccursAt(text, pat, i)
  {
    var w := text[i..i + |pat|];
    if w == pat {
      forall t | 0 <= t < |pat| ensures CharMatch(text, pat, i, t) {
        assert w[t] == text[i + t];
      }
    }
    if OccursAt(text, pat, i) {
      forall t | 0 <= t < |pat| ensures w[t] == pat[t] {
        assert CharMatch(text, pat, i, t);
      }
    }
  }

  lemma StrstrIsFirstOccurrence(text: seq<char>, pat: seq<char>)
    ensures IsFirstOccurrence(text, pat, Strstr(text, pat, 0))
  {
  }

  // ---------------------------------------------------------------------
  // Borders: the KMP failure table is built from them.

  /** `p[..k]` is a proper border of `p[..j]`: a prefix that is also a suffix. */
  ghost predicate IsBorder(p: seq<char>, j: int, k: int)
  {
    0 <= k < j <= |p| && MatchesAt(p, p, j - k, k)
  }

  /** `c` is the longest proper border of `p[..j]`. */
  ghost predicate LongestBorder(p: seq<char>, j: int, c: int)
  {
    IsBorder(p, j, c) && forall k :: c < k < j ==> !IsBorder(p, j, k)
  }

  /**
   * The guarantee of one entry `v == next[j]` of the optimised KMP table:
   * it is -1 or a border of `p[..j]` followed by a character other than
   * `p[j]`, and every longer border of `p[..j]` is followed by `p[j]`, so
   * after a mismatch against `p[j]` none of them can succeed.
   */
  ghost predicate NextEntryOk(p: seq<char>, j: int, v: int)
  {
    0 <= j < |p| && -1 <= v < j &&
    (v >= 0 ==> IsBorder(p, j, v) && p[v] != p[j]) &&
    forall k :: v < k < j && IsBorder(p, j, k) ==> p[k] == p[j]
  }

  /** A border of a border is a border. */
  lemma BorderOfBorder(p: seq<char>, j: int, c: int, k: int)
    requires IsBorder(p, j, c) && IsBorder(p, c, k)
    ensures IsBorder(p, j, k)
  {
    var o := j - k;
    forall t | 0 <= t < k ensures CharMatch(p, p, o, t) {
      assert CharMatch(p, p, j - c, c - k + t) && CharMatch(p, p, c - k, t);
    }
  }

  /** A border shorter than another border is a border of the longer one. */
  lemma ShorterBorder(p: seq<char>, j: int, c: int, k: int)
    requires IsBorder(p, j, c) && IsBorder(p, j, k) && k < c
    ensures IsBorder(p, c, k)
  {
    var o := c - k;
    forall t | 0 <= t < k ensures CharMatch(p, p, o, t) {
      assert CharMatch(p, p, j - c, c - k + t) && CharMatch(p, p, j - k, t);
    }
  }

  /** Dropping the last character of a non-empty border of `p[..j+1]`. */
  lemma BorderShrink(p: seq<char>, j: int, k: int)
    requires IsBorder(p, j + 1, k) && k >= 1
    ensures IsBorder(p, j, k - 1) && p[k - 1] == p[j]
  {
    assert CharMatch(p, p, j + 1 - k, k - 1);
    var o := j - (k - 1);
    forall t | 0 <= t < k - 1 ensures CharMatch(p, p, o, t) {
      assert CharMatch(p, p, j + 1 - k, t);
    }
  }

  /** Extending a border by one matching character. */
  lemma BorderGrow(p: seq<char>, j: int, k: int)
    requires 0 <= j < |p| && (k == -1 || (IsBorder(p, j, k) && p[k] == p[j]))
    ensures IsBorder(p, j + 1, k + 1)
  {
    if k >= 0 {
      var o := j - k;
      forall t | 0 <= t < k + 1 ensures CharMatch(p, p, o, t) {
        if t < k {
          assert CharMatch(p, p, j - k, t);
        }
      }
    }
  }

  /**
   * One step of the table construction: if `c1` is the longest proper
   * border of `p[..c0]`, the entry `c1` (when `p[c0] != p[c1]`) or the
   * entry already stored for `c1` (when they are equal) is a correct entry
   * for position `c0`.
   */
  lemma {:induction false} NextEntryStep(p: seq<char>, c0: int, c1: int, v1: int)
    requires 0 <= c1 < c0 < |p|
    requires LongestBorder(p, c0, c1)
    requires NextEntryOk(p, c1, v1)
    ensures NextEntryOk(p, c0, if p[c0] == p[c1] then v1 else c1)
  {
    if p[c0] == p[c1] {
      if v1 >= 0 {
        BorderOfBorder(p, c0, c1, v1);
      }
      forall k | v1 < k < c0 && IsBorder(p, c0, k) ensures p[k] == p[c0] {
        if k < c1 {
          ShorterBorder(p, c0, c1, k);
        }
      }
    }
  }

  /**
   * The table loop's inner step keeps its invariant: after a mismatch
   * `p[c0] != p[c1]`, falling back to `next[c1]` skips no border that could
   * be extended by `p[c0]`.
   */
  lemma {:induction false} FallbackKeepsBorders(p: seq<char>, c0: int, c1: int, v: int)
    requires 0 <= c1 < c0 < |p| && p[c0] != p[c1]
    requires IsBorder(p, c0, c1)
    requires forall k :: c1 < k < c0 && IsBorder(p, c0, k) ==> p[k] != p[c0]
    requires NextEntryOk(p, c1, v)
    ensures v >= 0 ==> IsBorder(p, c0, v)
    ensures forall k :: v < k < c0 && IsBorder(p, c0, k) ==> p[k] != p[c0]
  {
    if v >= 0 {
      BorderOfBorder(p, c0, c1, v);
    }
    forall k | v < k < c0 && IsBorder(p, c0, k) ensures p[k] != p[c0] {
      if k < c1 {
        ShorterBorder(p, c0, c1, k);
      }
    }
  }

  /**
   * After the fallback loop: `c1 + 1` is the longest proper border of
   * `p[..c0 + 1]`.
   */
  lemma {:induction false} LongestBorderGrow(p: seq<char>, c0: int, c1: int)
    requires 0 <= c0 && c0 + 1 < |p| && -1 <= c1 < c0
    requires c1 == -1 || (IsBorder(p, c0, c1) && p[c0] == p[c1])
    requires forall k :: c1 < k < c0 && IsBorder(p, c0, k) ==> p[k] != p[c0]
    ensures LongestBorder(p, c0 + 1, c1 + 1)
  {
    BorderGrow(p, c0, c1);
    var j := c0 + 1;
    forall k | c1 + 1 < k < j ensures !IsBorder(p, j, k) {
      if IsBorder(p, j, k) {
        BorderShrink(p, c0, k);
      }
    }
  }

  /**
   * The search step after a mismatch: when `text[c0-c1..c0]` equals
   * `pat[..c1]` and `text[c0] != pat[c1]`, no occurrence starts between
   * `c0 - c1` and `c0 - next[c1]`, and `pat[..next[c1]]` still matches
   * just before `c0`.
   */
  lemma {:induction false} MismatchShift(text: seq<char>, pat: seq<char>, c0: int, c1: int, v: int)
    requires 0 <= c1 < |pat| && c0 < |text|
    requires MatchesAt(text, pat, c0 - c1, c1) && text[c0] != pat[c1]
    requires NextEntryOk(pat, c1, v)
    ensures v >= 0 ==> MatchesAt(text, pat, c0 - v, v)
    ensures forall s :: c0 - c1 <= s < c0 - v ==> !OccursAt(text, pat, s)
  {
    if v >= 0 {
      var o := c0 - v;
      forall t | 0 <= t < v ensures CharMatch(text, pat, o, t) {
        assert CharMatch(text, pat, c0 - c1, c1 - v + t);
        assert CharMatch(pat, pat, c1 - v, t);
      }
    }
    forall s | c0 - c1 <= s < c0 - v ensures !OccursAt(text, pat, s) {
      MismatchNoOccurrence(text, pat, c0, c1, v, s);
    }
  }

  /** One start skipped by `MismatchShift` holds no occurrence. */
  lemma MismatchNoOccurrence(text: seq<char>, pat: seq<char>, c0: int, c1: int, v: int, s: int)
    requires 0 <= c1 < |pat| && c0 < |text|
    requires MatchesAt(text, pat, c0 - c1, c1) && text[c0] != pat[c1]
    requires NextEntryOk(pat, c1, v)
    requires c0 - c1 <= s < c0 - v
    ensures !OccursAt(text, pat, s)
  {
    if OccursAt(text, pat, s) {
      OccurrenceOverlap(text, pat, c0, c1, s);
    }
  }

  /**
   * An occurrence starting inside a partial match `text[c0-c1..c0]` makes
   * the overlap a border of `pat[..c1]`, followed in `pat` by `text[c0]`.
   */
  lemma OccurrenceOverlap(text: seq<char>, pat: seq<char>, c0: int, c1: int, s: int)
    requires 0 <= c1 < |pat| && c0 < |text|
    requires MatchesAt(text, pat, c0 - c1, c1) && OccursAt(text, pat, s)
    requires c0 - c1 <= s <= c0
    ensures pat[c0 - s] == text[c0]
    ensures c0 - s < c1 ==> IsBorder(pat, c1, c0 - s)
  {
    var k := c0 - s;
    assert CharMatch(text, pat, s, k);
    if k < c1 {
      var o := c1 - k;
      forall t | 0 <= t < k ensures CharMatch(pat, pat, o, t) {
        assert CharMatch(text, pat, c0 - c1, c1 - k + t);
        assert CharMatch(text, pat, s, t);
      }
    }
  }
}
