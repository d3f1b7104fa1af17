/**
 * The growable NUL-terminated string `String<T>` for a single character
 * type. The heap buffer is modelled by the characters before its
 * terminator (`data`), whether the pointer is non-null (`hasData`), and
 * the two counters the structure keeps: `length` and the capacity
 * `lengthAll`, counted in characters including room for the terminator.
 */
module Strings {
  import opened StringSearch

  /** C strings never hold a NUL before their terminator. */
  ghost predicate NoNul(s: seq<char>)
  {
    forall i :: 0 <= i < |s| ==> s[i] != '\0'
  }

  function Pow2(k: nat): (r: nat)
    ensures r >= 1
  {
    if k == 0 then 1 else 2 * Pow2(k - 1)
  }

  ghost predicate IsPow2(x: int)
  {
    exists k: nat :: x == Pow2(k)
  }

  /**
   * `cap` is the capacity every `lengthAll = 1; while (lengthAll < n + 1)
   * lengthAll <<= 1;` loop computes: a power of two above `n` whose half
   * is not.
   */
  ghost predicate SnugCapacity(cap: int, n: nat)
  {
    IsPow2(cap) && n < cap && cap / 2 <= n
  }

  lemma {:induction false} Pow2Monotone(a: nat, b: nat)
    requires a < b
    ensures 2 * Pow2(a) <= Pow2(b)
  {
    if b > a + 1 {
      Pow2Monotone(a, b - 1);
    }
  }

  /** A snug capacity is the least power of two that leaves room for the terminator. */
  lemma SnugCapacityIsLeast(cap: int, n: nat, p: int)
    requires SnugCapacity(cap, n) && IsPow2(p) && n < p
    ensures cap <= p
  {
    var a: nat :| cap == Pow2(a);
    var b: nat :| p == Pow2(b);
    if b < a {
      Pow2Monotone(b, a);
      assert false;
    } else if a < b {
      Pow2Monotone(a, b);
    }
  }

  /** The doubling loop that sizes a fresh buffer for `n` characters. */
  method Capacity(n: nat) returns (cap: nat)
    ensures SnugCapacity(cap, n)
  {
    cap := 1;
    ghost var k: nat := 0;
    while cap < n + 1
      invariant cap == Pow2(k) && cap / 2 <= n
    {
      cap, k := cap * 2, k + 1;
    }
  }

  /**
   * The doubling loop of `+=`: starting from a non-zero capacity, double
   * until the capacity exceeds `need`, and no further.
   */
  method Grow(cap: nat, need: nat) returns (r: nat)
    requires cap >= 1
    ensures need < r && (r == cap || r / 2 <= need)
    ensures exists k: nat :: r == cap * Pow2(k)
  {
    r := cap;
    ghost var k: nat := 0;
    while r <= need
      invariant 1 <= r && r == cap * Pow2(k)
      invariant r == cap || r / 2 <= need
      decreases need - r
    {
      assert cap * Pow2(k + 1) == 2 * (cap * Pow2(k));
      r, k := r * 2, k + 1;
    }
  }

  /**
   * `strcmp(x, y) == 0` on two NUL-terminated character arrays: compare
   * character by character up to the first terminator.
   */
  function StrcmpEqual(x: seq<char>, y: seq<char>): bool
    requires '\0' in x && '\0' in y
    decreases |x|
  {
    if x[0] != y[0] then false
    else if x[0] == '\0' then true
    else StrcmpEqual(x[1..], y[1..])
  }

  /** On terminated contents, `strcmp` reports equality exactly when the contents are equal. */
  lemma {:induction false} StrcmpEqualIffSame(a: seq<char>, b: seq<char>)
    requires NoNul(a) && NoNul(b)
    ensures StrcmpEqual(a + ['\0'], b + ['\0']) <==> a == b
    decreases |a|
  {
    var x, y := a + ['\0'], b + ['\0'];
    if a == [] || b == [] {
      assert x[0] == '\0' || y[0] == '\0';
      if a != [] { assert x[0] == a[0] != '\0'; }
      if b != [] { assert y[0] == b[0] != '\0'; }
    } else {
      assert x[0] == a[0] && y[0] == b[0] && a[0] != '\0';
      assert x[1..] == a[1..] + ['\0'] && y[1..] == b[1..] + ['\0'];
      StrcmpEqualIffSame(a[1..], b[1..]);
      if a[0] == b[0] && a[1..] == b[1..] {
        assert a == [a[0]] + a[1..] && b == [b[0]] + b[1..];
      }
    }
  }

  /** `truncate`'s count when `head` is in range: `n`, or everything from `head` on. */
  function TruncatedLength(len: nat, head: nat, n: int): (k: nat)
    requires head < len
    ensures head + k <= len
    ensures k == n || (k == len - head && (n < 0 || head + n > len))
  {
    if head + n > len || n < 0 then len - head else n
  }

  // ---------------------------------------------------------------------
  // Defects of the code as written, each beside the corrected behaviour the
  // class below models.

  /**
   * Same-type `+=` with another string as written: the capacity is replaced
   * by 1 before it is compared with the new length, so whether a buffer
   * exists when the terminator is stored depends on that comparison.
   */
  function AppendStringHasBuffer(hasData: bool, length: nat, lengthAll: nat, n: nat): (b: bool)
    ensures !hasData && lengthAll == 0 ==> (b <==> length + n >= 1)
    ensures hasData ==> b
  {
    var cap := if lengthAll != 0 then lengthAll else 1;
    hasData || cap <= length + n
  }

  /**
   * Appending an empty string to a string without a buffer stores the
   * terminator through a null pointer; appending anything longer allocates.
   */
  lemma AppendEmptyToBufferlessWritesThroughNull(n: nat)
    ensures !AppendStringHasBuffer(false, 0, 0, n) <==> n == 0
  {
  }

  /** Where the same-type `operator=` as written copies its `length + 1` characters from. */
  datatype CopySource = Source | NullPointer | OwnFreshBuffer

  /**
   * `operator=` frees this string's buffer and then copies from the
   * source's pointer: a bufferless source is read through null, and under
   * self-assignment the source pointer is the freshly allocated,
   * uninitialised buffer, with or without an earlier buffer (the block
   * `malloc(0)` returns for a bufferless string may itself be null).
   */
  function AssignCopySource(selfAssign: bool, sourceHasData: bool): (r: CopySource)
    ensures r == Source <==> !selfAssign && sourceHasData
    ensures r == NullPointer <==> !selfAssign && !sourceHasData
    ensures r == OwnFreshBuffer <==> selfAssign
  {
    if selfAssign then OwnFreshBuffer
    else if !sourceHasData then NullPointer
    else Source
  }

  lemma AssignAsWrittenLosesContents()
    ensures AssignCopySource(true, true) == OwnFreshBuffer
    ensures AssignCopySource(false, false) == NullPointer
  {
  }

  const Two32: int := 0x1_0000_0000

  /**
   * The outer guard of `getNext` as written: the signed counter is compared
   * with `length - 1` computed in 32-bit unsigned arithmetic.
   */
  function NextGuardAsWritten(c0: nat, length: nat): (b: bool)
    requires length < Two32
    ensures length >= 1 ==> (b <==> c0 < length - 1)
    ensures length == 0 ==> (b <==> c0 < Two32 - 1)
  {
    c0 < (length + Two32 - 1) % Two32
  }

  /**
   * For an empty pattern the table has no slots, yet `r[0]` is written and
   * the loop is entered, going on to write `r[1]`.
   */
  lemma EmptyPatternEntersTableLoop()
    ensures NextGuardAsWritten(0, 0) && NextGuardAsWritten(1, 0)
  {
  }

  /**
   * `find` as written with an empty pattern: `strstr` finds it at every
   * start, the length included, so the search never reports "none" inside
   * the string and, after the hit at the length, resumes one past the
   * terminator, where `strstr` is not defined.
   */
  lemma EmptyPatternFindResumesPastEnd(text: seq<char>)
    ensures forall s :: 0 <= s <= |text| ==> Strstr(text, [], s) == s
    ensures Strstr(text, [], |text|) + 1 > |text|
  {
    forall s | 0 <= s <= |text| ensures Strstr(text, [], s) == s {
      assert text[s..s] == [];
    }
  }

  /** Two's-complement wrap-around of a 32-bit `int`. */
  function Wrap32(x: int): (r: int)
    ensures -0x8000_0000 <= r < 0x8000_0000
    ensures (r - x) % Two32 == 0
    ensures -0x8000_0000 <= x < 0x8000_0000 ==> r == x
  {
    var m := x % Two32;
    if m >= 0x8000_0000 then m - Two32 else m
  }

  /**
   * `truncate`'s count as written: `_head + _length` is an `int` sum that
   * wraps, so a huge `n` is kept instead of being clamped.
   */
  function TruncatedLengthAsWritten(len: nat, head: nat, n: int): (k: int)
    requires head < len < 0x8000_0000 && -0x8000_0000 <= n < 0x8000_0000
    ensures head + n < 0x8000_0000 ==> k == TruncatedLength(len, head, n)
  {
    if Wrap32(head + n) > len || n < 0 then len - head else n
  }

  lemma TruncateOverflowOverrunsEnd()
    ensures TruncatedLengthAsWritten(5, 1, 0x7FFF_FFFF) == 0x7FFF_FFFF
    ensures 1 + TruncatedLengthAsWritten(5, 1, 0x7FFF_FFFF) > 5
  {
  }

  class String {
    /** The characters before the terminator. */
    var data: seq<char>
    /** `data != nullptr` in the source. */
    var hasData: bool
    var length: nat
    var lengthAll: nat

    /**
     * A string with a buffer holds `length` non-NUL characters and has room
     * for the terminator; a string without one (default-constructed, or the
     * empty result of `truncate`) has both counters zero. A moved-from
     * string keeps its counters without a buffer and satisfies neither.
     */
    ghost predicate Valid()
      reads this
    {
      if hasData then |data| == length && length < lengthAll && NoNul(data)
      else data == [] && length == 0 && lengthAll == 0
    }

    constructor Empty()
      ensures Valid() && !hasData
    {
      data, hasData, length, lengthAll := [], false, 0, 0;
    }

    /** Construction from a C string of the same character type. */
    constructor FromChars(a: seq<char>)
      requires NoNul(a)
      ensures Valid() && hasData && data == a
      ensures SnugCapacity(lengthAll, length)
    {
      var cap := Capacity(|a|);
      data, hasData, length, lengthAll := a, true, |a|, cap;
    }

    /**
     * Adopting a caller's buffer holding `buf`: a zero `len` means "measure
     * it with strlen", a zero `cap` means "compute the capacity and
     * reallocate".
     */
    constructor Adopt(buf: seq<char>, len: nat, cap: nat)
      requires NoNul(buf)
      requires len == 0 || len == |buf|
      requires cap == 0 || |buf| < cap
      ensures Valid() && hasData && data == buf
      ensures cap != 0 ==> lengthAll == cap
      ensures cap == 0 ==> SnugCapacity(lengthAll, length)
    {
      var n := if len != 0 then len else |buf|;
      var c := cap;
      if c == 0 {
        c := Capacity(n);
      }
      data, hasData, length, lengthAll := buf, true, n, c;
    }

    /** Copy construction: a fresh buffer with the same counters and contents. */
    constructor Copy(a: String)
      requires a.Valid()
      ensures Valid()
      ensures hasData == a.hasData && data == a.data
      ensures length == a.length && lengthAll == a.lengthAll
    {
      if !a.hasData {
        data, hasData, length, lengthAll := [], false, 0, 0;
      } else {
        data, hasData, length, lengthAll := a.data, true, a.length, a.lengthAll;
      }
    }

    /** Move construction: the buffer changes hands and the source's pointer is nulled. */
    constructor Move(a: String)
      requires a.Valid()
      modifies a
      ensures Valid()
      ensures hasData == old(a.hasData) && data == old(a.data)
      ensures length == old(a.length) && lengthAll == old(a.lengthAll)
      ensures !a.hasData && a.data == []
      ensures a.length == old(a.length) && a.lengthAll == old(a.lengthAll)
    {
      data, hasData, length, lengthAll := a.data, a.hasData, a.length, a.lengthAll;
      new;
      a.data, a.hasData := [], false;
    }

    /**
     * Same-type assignment, corrected: a bufferless source leaves this string
     * bufferless, as copy construction does, and self-assignment keeps the
     * contents.
     */
    method Assign(a: String)
      requires Valid() && a.Valid()
      modifies this
      ensures Valid()
      ensures hasData == old(a.hasData) && data == old(a.data)
      ensures length == old(a.length) && lengthAll == old(a.lengthAll)
    {
      if a != this {
        data, hasData, length, lengthAll := a.data, a.hasData, a.length, a.lengthAll;
      }
    }

    /** Same-type `operator==`: `strcmp` reports equality iff the contents are equal. */
    method Equals(a: String) returns (eq: bool)
      requires Valid() && a.Valid() && hasData && a.hasData
      ensures eq <==> data == a.data
    {
      StrcmpEqualIffSame(data, a.data);
      eq := StrcmpEqual(data + ['\0'], a.data + ['\0']);
    }

    /** Same-type `operator+` with a C string: a new string holding both, sized snugly. */
    method ConcatChars(a: seq<char>) returns (r: String)
      requires Valid() && NoNul(a)
      ensures fresh(r) && r.Valid() && r.hasData
      ensures r.data == data + a && r.length == length + |a|
      ensures SnugCapacity(r.lengthAll, r.length)
    {
      var n := length + |a|;
      var cap := Capacity(n);
      r := new String.Adopt(data + a, n, cap);
    }

    /** Same-type `operator+` with another string. */
    method Concat(a: String) returns (r: String)
      requires Valid() && a.Valid()
      ensures fresh(r) && r.Valid() && r.hasData
      ensures r.data == data + a.data && r.length == length + a.length
      ensures SnugCapacity(r.lengthAll, r.length)
    {
      r := ConcatChars(a.data);
    }

    /**
     * Same-type `+=` with a C string: append in place, doubling the capacity
     * (from at least 1) only until it exceeds the new length.
     */
    method AppendChars(a: seq<char>)
      requires Valid() && NoNul(a)
      modifies this
      ensures Valid() && hasData
      ensures data == old(data) + a && length == old(length) + |a|
      ensures old(lengthAll) > length ==> lengthAll == old(lengthAll)
      ensures old(lengthAll) <= length ==>
        lengthAll / 2 <= length &&
        exists k: nat :: lengthAll == (if old(lengthAll) == 0 then 1 else old(lengthAll)) * Pow2(k)
    {
      var n := length + |a|;
      if lengthAll <= n {
        var start := if lengthAll != 0 then lengthAll else 1;
        lengthAll := Grow(start, n);
        hasData := true;
      }
      data, length := data + a, n;
    }

    /**
     * Same-type `+=` with another string, with the capacity check made
     * before a zero capacity is replaced by 1, as the C-string overload does.
     */
    method AppendString(a: String)
      requires Valid() && a.Valid()
      modifies this
      ensures Valid() && hasData
      ensures data == old(data) + old(a.data) && length == old(length) + old(a.length)
      ensures old(lengthAll) > length ==> lengthAll == old(lengthAll)
      ensures old(lengthAll) <= length ==>
        lengthAll / 2 <= length &&
        exists k: nat :: lengthAll == (if old(lengthAll) == 0 then 1 else old(lengthAll)) * Pow2(k)
    {
      AppendChars(a.data);
    }

    /**
     * Same-type `+=` of one character: it lands at the old length, and the
     * capacity (from at least 1) doubles once when it is at most `length + 2`.
     */
    method AppendChar(c: char)
      requires Valid() && c != '\0'
      modifies this
      ensures Valid() && hasData
      ensures data == old(data) + [c] && length == old(length) + 1
      ensures var cap := if old(lengthAll) == 0 then 1 else old(lengthAll);
        lengthAll == if cap <= old(length) + 2 then 2 * cap else cap
    {
      var cap := if lengthAll != 0 then lengthAll else 1;
      if cap <= length + 2 {
        cap := cap * 2;
      }
      data, hasData, length, lengthAll := data + [c], true, length + 1, cap;
    }

    /**
     * `truncate(head, n)`: an empty bufferless string when `head` is out of
     * range, otherwise the `n` characters from `head`, or all of them up to
     * the end when `n` is negative or runs past it.
     */
    method Truncate(head: int, n: int) returns (r: String)
      requires Valid()
      ensures fresh(r) && r.Valid()
      ensures (head < 0 || head >= length) ==> !r.hasData
      ensures 0 <= head < length ==>
        r.hasData && r.data == data[head..head + TruncatedLength(length, head, n)] &&
        SnugCapacity(r.lengthAll, r.length)
    {
      if head < 0 || head >= length {
        r := new String.Empty();
        return;
      }
      var k := TruncatedLength(length, head, n);
      var cap := Capacity(k);
      r := new String.Adopt(data[head..head + k], k, cap);
    }

    /** `findFirst` by `strstr`: the first occurrence of `a`, or -1. */
    method FindFirst(a: String) returns (idx: int)
      requires Valid() && a.Valid() && hasData && a.hasData
      ensures IsFirstOccurrence(data, a.data, idx)
    {
      idx := Strstr(data, a.data, 0);
    }

    /** `getNext`: the optimised KMP failure table of this (non-empty) string. */
    method GetNext() returns (next: seq<int>)
      requires Valid() && hasData && length >= 1
      ensures |next| == length
      ensures forall j :: 0 <= j < length ==> NextEntryOk(data, j, next[j])
    {
      next := NextTable(data);
    }

    /** The table loop of `getNext` on the pattern's characters. */
    static method NextTable(p: seq<char>) returns (next: seq<int>)
      requires |p| >= 1
      ensures |next| == |p|
      ensures forall j :: 0 <= j < |p| ==> NextEntryOk(p, j, next[j])
    {
      var r := new int[|p|];
      r[0] := -1;
      var c0, c1 := 0, -1;
      while c0 < |p| - 1
        invariant 0 <= c0 < |p| && -1 <= c1 < c0
        invariant c0 == 0 ==> c1 == -1
        invariant c0 >= 1 ==> LongestBorder(p, c0, c1)
        invariant forall j {:trigger NextEntryOk(p, j, r[j])} :: 0 <= j <= c0 ==> NextEntryOk(p, j, r[j])
      {
        c1 := FallBack(p, r, c0, c1);
        LongestBorderGrow(p, c0, c1);
        c0, c1 := c0 + 1, c1 + 1;
        var v := r[c1];
        NextEntryStep(p, c0, c1, v);
        if p[c0] == p[c1] {
          r[c0] := v;
        } else {
          r[c0] := c1;
        }
      }
      next := r[..];
    }

    /**
     * The inner loop of `getNext`: follow the table from the longest border
     * of `p[..c0]` down to the longest one followed by `p[c0]`, or to -1.
     */
    static method FallBack(p: seq<char>, r: array<int>, c0: int, c1: int) returns (c: int)
      requires 0 <= c0 < |p| && c0 < r.Length && -1 <= c1 < c0
      requires c0 == 0 ==> c1 == -1
      requires c0 >= 1 ==> LongestBorder(p, c0, c1)
      requires forall j {:trigger NextEntryOk(p, j, r[j])} :: 0 <= j < c0 ==> NextEntryOk(p, j, r[j])
      ensures -1 <= c < c0
      ensures c == -1 || (IsBorder(p, c0, c) && p[c0] == p[c])
      ensures forall k :: c < k < c0 && IsBorder(p, c0, k) ==> p[k] != p[c0]
    {
      c := c1;
      while c >= 0 && p[c0] != p[c]
        invariant -1 <= c < c0
        invariant c >= 0 ==> IsBorder(p, c0, c)
        invariant forall k :: c < k < c0 && IsBorder(p, c0, k) ==> p[k] != p[c0]
        decreases c + 1
      {
        FallbackKeepsBorders(p, c0, c, r[c]);
        c := r[c];
      }
    }

    /**
     * `KMP` with a non-empty pattern: the first occurrence of `a`, or -1.
     * A text without a buffer has length 0, so the scan never reads it.
     */
    method Kmp(a: String) returns (idx: int)
      requires Valid() && a.Valid() && a.hasData && a.length >= 1
      ensures IsFirstOccurrence(data, a.data, idx)
    {
      var next := a.GetNext();
      var text, pat := data, a.data;
      var c0, c1 := 0, 0;
      while c0 < |text| && c1 < |pat|
        invariant 0 <= c0 <= |text| && -1 <= c1 <= |pat|
        invariant c1 == -1 ==> c0 < |text|
        invariant c1 >= 0 ==> MatchesAt(text, pat, c0 - c1, c1)
        invariant forall s :: 0 <= s < c0 - c1 ==> !OccursAt(text, pat, s)
        decreases |text| - c0, c1 + 1
      {
        if c1 == -1 || text[c0] == pat[c1] {
          c0, c1 := c0 + 1, c1 + 1;
        } else {
          MismatchShift(text, pat, c0, c1, next[c1]);
          c1 := next[c1];
        }
      }
      // The source compares c1 with the unsigned pattern length; c1 is never
      // -1 here, so the conversion cannot turn -1 into a match.
      assert c1 >= 0;
      if c1 >= |pat| {
        idx := c0 - |pat|;
      } else {
        forall s ensures !OccursAt(text, pat, s) {
        }
        idx := -1;
      }
    }

    /**
     * `findFirstKMP` for the same character type, corrected so that an empty
     * pattern is found at 0, as `strstr` finds it; it agrees with `findFirst`.
     */
    method FindFirstKmp(a: String) returns (idx: int)
      requires Valid() && a.Valid() && a.hasData
      ensures idx == Strstr(data, a.data, 0)
    {
      if a.length == 0 {
        idx := 0;
      } else {
        idx := Kmp(a);
      }
      StrstrIsFirstOccurrence(data, a.data);
      FirstOccurrenceUnique(data, a.data, idx, Strstr(data, a.data, 0));
    }

    /**
     * `find`: every occurrence start, overlapping ones included, in
     * increasing order; each search resumes one past the previous hit.
     * Corrected so that a hit at the very end stops the search instead of
     * resuming past the terminator, which only an empty pattern can reach:
     * it is then found at every index from 0 to the length.
     */
    method Find(a: String) returns (hits: seq<int>)
      requires Valid() && a.Valid() && hasData && a.hasData
      ensures forall i, j :: 0 <= i < j < |hits| ==> hits[i] < hits[j]
      ensures forall s :: s in hits <==> OccursAt(data, a.data, s)
    {
      var text, pat := data, a.data;
      hits := [];
      var flag := Strstr(text, pat, 0);
      ghost var bound := if flag == -1 then |text| + 1 else flag;
      while flag != -1
        invariant flag == -1 || (0 <= flag && OccursAt(text, pat, flag))
        invariant bound == if flag == -1 then |text| + 1 else flag
        invariant forall i, j :: 0 <= i < j < |hits| ==> hits[i] < hits[j]
        invariant forall i :: 0 <= i < |hits| ==> hits[i] < bound
        invariant forall s :: s in hits <==> 0 <= s < bound && OccursAt(text, pat, s)
        decreases if flag == -1 then 0 else |text| + 1 - flag
      {
        hits := hits + [flag];
        if flag < |text| {
          flag := Strstr(text, pat, flag + 1);
        } else {
          flag := -1;
        }
        bound := if flag == -1 then |text| + 1 else flag;
      }
      forall s | OccursAt(text, pat, s) ensures s < bound {
      }
    }
  }
}
