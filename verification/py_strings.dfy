/** The parts of Python's `str` type the scripts rely on: `strip()` with no
    argument, `split(sep)` with a non-empty separator, and `str(n)` for a
    non-negative integer. Strings are sequences of code points. */
module PyStrings {
  import opened Wrappers

  /** Python's `str.isspace()` for a single code point: the ASCII controls
      TAB..CR and FS..US, SPACE, NEL, NO-BREAK SPACE and the Unicode space
      separators and line/paragraph separators. */
  predicate IsSpace(c: char) {
    var n := c as int;
    || (9 <= n <= 13)
    || (28 <= n <= 32)
    || n == 0x85
    || n == 0xA0
    || n == 0x1680
    || (0x2000 <= n <= 0x200A)
    || n == 0x2028
    || n == 0x2029
    || n == 0x202F
    || n == 0x205F
    || n == 0x3000
  }

  predicate AllSpace(s: string) {
    forall k :: 0 <= k < |s| ==> IsSpace(s[k])
  }

  /** Neither end of `s` is whitespace (vacuously so for the empty string). */
  predicate Trimmed(s: string) {
    s == [] || (!IsSpace(s[0]) && !IsSpace(s[|s| - 1]))
  }

  /** Number of whitespace code points at the front of `s`. */
  function LeadingSpaces(s: string): (n: nat)
    ensures n <= |s|
    ensures forall k :: 0 <= k < n ==> IsSpace(s[k])
    ensures n < |s| ==> !IsSpace(s[n])
    decreases |s|
  {
    if |s| == 0 || !IsSpace(s[0]) then 0 else 1 + LeadingSpaces(s[1..])
  }

  /** Number of whitespace code points at the back of `s`. */
  function TrailingSpaces(s: string): (n: nat)
    ensures n <= |s|
    ensures forall k :: |s| - n <= k < |s| ==> IsSpace(s[k])
    ensures n < |s| ==> !IsSpace(s[|s| - 1 - n])
    decreases |s|
  {
    if |s| == 0 || !IsSpace(s[|s| - 1]) then 0 else 1 + TrailingSpaces(s[..|s| - 1])
  }

  /** Python's `s.strip()`: drop leading and trailing whitespace. */
  function Strip(s: string): (r: string)
    ensures |r| <= |s|
    ensures Trimmed(r)
    ensures r == [] <==> AllSpace(s)
    ensures LeadingSpaces(s) + |r| <= |s|
    ensures r == s[LeadingSpaces(s)..LeadingSpaces(s) + |r|]
    ensures AllSpace(s[LeadingSpaces(s) + |r|..])
  {
    var a := LeadingSpaces(s);
    if a == |s| then
      []
    else
      var b := TrailingSpaces(s);
      assert !IsSpace(s[a]);
      assert b < |s| - a;
      s[a..|s| - b]
  }

  /** `strip()` removes exactly whitespace surrounding a trimmed core: the
      stripped text of `p + x + q` is `x` whenever `p` and `q` are blank. */
  lemma {:induction false} StripSurrounded(p: string, x: string, q: string)
    requires AllSpace(p) && AllSpace(q) && Trimmed(x)
    ensures Strip(p + x + q) == x
  {
    var s := p + x + q;
    if x == [] {
      assert AllSpace(s) by {
        forall k | 0 <= k < |s| ensures IsSpace(s[k]) {
          if k < |p| { assert s[k] == p[k]; } else { assert s[k] == q[k - |p|]; }
        }
      }
    } else {
      LeadingSpacesOf(p, x + q);
      assert p + x + q == p + (x + q);
      TrailingSpacesOf(p + x, q);
      assert s[|p|] == x[0];
      assert Strip(s) == s[|p|..|s| - |q|];
      assert s[|p|..|s| - |q|] == x;
    }
  }

  lemma {:induction false} LeadingSpacesOf(p: string, y: string)
    requires AllSpace(p) && y != [] && !IsSpace(y[0])
    ensures LeadingSpaces(p + y) == |p|
    decreases |p|
  {
    if p != [] {
      assert (p + y)[1..] == p[1..] + y;
      LeadingSpacesOf(p[1..], y);
    }
  }

  lemma {:induction false} TrailingSpacesOf(y: string, q: string)
    requires AllSpace(q) && y != [] && !IsSpace(y[|y| - 1])
    ensures TrailingSpaces(y + q) == |q|
    decreases |q|
  {
    if q != [] {
      assert (y + q)[..|y + q| - 1] == y + q[..|q| - 1];
      TrailingSpacesOf(y, q[..|q| - 1]);
    }
  }

  /** A text with no whitespace at either end is its own `strip()`. */
  lemma StripTrimmed(s: string)
    requires s != [] && !IsSpace(s[0]) && !IsSpace(s[|s| - 1])
    ensures Strip(s) == s
  {
    StripSurrounded([], s, []);
    assert [] + s + [] == s;
  }

  /** `sep` occurs in `s` starting at position `j`. */
  predicate OccursAt(s: string, sep: string, j: int) {
    0 <= j && j + |sep| <= |s| && s[j..j + |sep|] == sep
  }

  /** Python's `sep in s`. */
  predicate Contains(s: string, sep: string) {
    exists j :: 0 <= j <= |s| && OccursAt(s, sep, j)
  }

  /** Python's `s.find(sep)`, with `None` for -1: the leftmost occurrence. */
  function IndexOf(s: string, sep: string): (r: Option<nat>)
    ensures r.Some? ==> OccursAt(s, sep, r.value)
    ensures r.Some? ==> forall j :: 0 <= j < r.value ==> !OccursAt(s, sep, j)
    ensures r.None? <==> !Contains(s, sep)
    decreases |s|
  {
    if |s| < |sep| then
      None
    else if s[..|sep|] == sep then
      assert OccursAt(s, sep, 0);
      Some(0)
    else
      match IndexOf(s[1..], sep)
      case None =>
        forall j | 0 <= j <= |s| ensures !OccursAt(s, sep, j) {
          if j > 0 {
            OccursShift(s, sep, j);
          }
        }
        None
      case Some(k) =>
        OccursShift(s, sep, k + 1);
        forall j | 0 <= j < k + 1 ensures !OccursAt(s, sep, j) {
          if j > 0 {
            OccursShift(s, sep, j);
          }
        }
        Some(k + 1)
  }

  /** An occurrence after the first code point is an occurrence in the tail. */
  lemma OccursShift(s: string, sep: string, j: int)
    requires 1 <= j && s != []
    ensures OccursAt(s, sep, j) <==> OccursAt(s[1..], sep, j - 1)
  {
    if j + |sep| <= |s| {
      assert s[1..][j - 1..j - 1 + |sep|] == s[j..j + |sep|];
    }
  }

  /** Inverse of `Split`: Python's `sep.join(parts)`. */
  function Join(parts: seq<string>, sep: string): string
    requires |parts| >= 1
    decreases |parts|
  {
    if |parts| == 1 then parts[0] else parts[0] + sep + Join(parts[1..], sep)
  }

  lemma JoinTwo(parts: seq<string>, sep: string)
    requires |parts| == 2
    ensures Join(parts, sep) == parts[0] + sep + parts[1]
  {
    assert parts[1..] == [parts[1]];
  }

  lemma JoinThree(parts: seq<string>, sep: string)
    requires |parts| == 3
    ensures Join(parts, sep) == parts[0] + sep + parts[1] + sep + parts[2]
  {
    assert parts[1..][1..] == [parts[2]];
    assert Join(parts[1..], sep) == parts[1] + sep + parts[2];
  }

  /** Python's `s.split(sep)` for a non-empty `sep`: cut at each occurrence of
      `sep`, scanning left to right, without overlaps. */
  function Split(s: string, sep: string): (parts: seq<string>)
    requires |sep| > 0
    ensures |parts| >= 1
    ensures Join(parts, sep) == s
    ensures forall k :: 0 <= k < |parts| ==> !Contains(parts[k], sep)
    ensures |parts| == 1 <==> !Contains(s, sep)
    decreases |s|
  {
    match IndexOf(s, sep)
    case None => [s]
    case Some(i) =>
      var rest := Split(s[i + |sep|..], sep);
      SplitCons(s, sep, i, rest);
      [s[..i]] + rest
  }

  /** One step of `Split`: the text before the leftmost occurrence, then the
      parts of the text after it. */
  lemma SplitCons(s: string, sep: string, i: nat, rest: seq<string>)
    requires |sep| > 0 && OccursAt(s, sep, i)
    requires forall j :: 0 <= j < i ==> !OccursAt(s, sep, j)
    requires |rest| >= 1 && Join(rest, sep) == s[i + |sep|..]
    requires forall k :: 0 <= k < |rest| ==> !Contains(rest[k], sep)
    ensures Join([s[..i]] + rest, sep) == s
    ensures forall k :: 0 <= k < |[s[..i]] + rest| ==> !Contains(([s[..i]] + rest)[k], sep)
    ensures Contains(s, sep)
  {
    var r := [s[..i]] + rest;
    JoinCons(r, sep);
    assert r[1..] == rest;
    SliceAround(s, sep, i);
    BeforeFirstOccurrence(s, sep, i);
    CleanCons(s[..i], rest, sep);
  }

  /** A text is what comes before an occurrence, the occurrence, and what
      comes after it. */
  lemma SliceAround(s: string, sep: string, i: nat)
    requires OccursAt(s, sep, i)
    ensures s == s[..i] + sep + s[i + |sep|..]
  {
  }

  lemma CleanCons(first: string, rest: seq<string>, sep: string)
    requires !Contains(first, sep)
    requires forall k :: 0 <= k < |rest| ==> !Contains(rest[k], sep)
    ensures forall k :: 0 <= k < |[first] + rest| ==> !Contains(([first] + rest)[k], sep)
  {
    forall k | 0 <= k < |[first] + rest| ensures !Contains(([first] + rest)[k], sep) {
      if k > 0 {
        assert ([first] + rest)[k] == rest[k - 1];
      }
    }
  }

  /** The text before the leftmost occurrence holds no occurrence. */
  lemma BeforeFirstOccurrence(s: string, sep: string, i: nat)
    requires |sep| > 0 && i <= |s|
    requires forall j :: 0 <= j < i ==> !OccursAt(s, sep, j)
    ensures !Contains(s[..i], sep)
  {
    forall j | OccursAt(s[..i], sep, j) ensures false {
      assert s[..i][j..j + |sep|] == s[j..j + |sep|];
      assert OccursAt(s, sep, j);
    }
  }

  /** A field that can stand before a separator in a joined string without
      the separator being found earlier than intended: no occurrence of `sep`
      ends before the separator's last code point. */
  predicate CleanBefore(x: string, sep: string)
    requires |sep| > 0
  {
    !Contains(x + sep[..|sep| - 1], sep)
  }

  lemma {:induction false} IndexOfJoined(x: string, sep: string, rest: string)
    requires |sep| > 0 && CleanBefore(x, sep)
    ensures IndexOf(x + sep + rest, sep) == Some(|x|)
  {
    var s := x + sep + rest;
    assert OccursAt(s, sep, |x|) by {
      assert s[|x|..|x| + |sep|] == sep;
    }
    var r := IndexOf(s, sep);
    if r.None? || r.value != |x| {
      var j := r.value;
      assert j < |x|;
      var w := x + sep[..|sep| - 1];
      assert s[..|w|] == w;
      assert w[j..j + |sep|] == s[j..j + |sep|];
      assert OccursAt(w, sep, j);
      assert false;
    }
  }

  /** The text before the leftmost occurrence is clean: with the separator
      that follows it, no occurrence is found before that separator. */
  lemma CleanBeforeFirst(s: string, sep: string, i: nat)
    requires |sep| > 0 && OccursAt(s, sep, i)
    requires forall j :: 0 <= j < i ==> !OccursAt(s, sep, j)
    ensures CleanBefore(s[..i], sep)
  {
    var w := s[..i] + sep[..|sep| - 1];
    assert w == s[..i + |sep| - 1];
    forall j | 0 <= j <= |w| ensures !OccursAt(w, sep, j) {
      if j + |sep| <= |w| {
        assert w[j..j + |sep|] == s[j..j + |sep|];
        assert j < i && !OccursAt(s, sep, j);
      }
    }
  }

  /** Every part but the last is clean, so each cut is the leftmost
      occurrence left: with `SplitJoin`, `Split` is the one list of parts
      that joins back to `s` and has that shape. */
  lemma {:induction false} SplitCleanParts(s: string, sep: string)
    requires |sep| > 0
    ensures forall k :: 0 <= k < |Split(s, sep)| - 1 ==> CleanBefore(Split(s, sep)[k], sep)
    decreases |s|
  {
    match IndexOf(s, sep)
    case None =>
    case Some(i) =>
      SplitUnfold(s, sep, i);
      var rest := Split(s[i + |sep|..], sep);
      SplitCleanParts(s[i + |sep|..], sep);
      CleanBeforeFirst(s, sep, i);
      CleanBeforeCons(s[..i], rest, sep);
  }

  lemma CleanBeforeCons(first: string, rest: seq<string>, sep: string)
    requires |sep| > 0 && CleanBefore(first, sep)
    requires forall k :: 0 <= k < |rest| - 1 ==> CleanBefore(rest[k], sep)
    ensures forall k :: 0 <= k < |[first] + rest| - 1 ==> CleanBefore(([first] + rest)[k], sep)
  {
    forall k | 0 <= k < |[first] + rest| - 1 ensures CleanBefore(([first] + rest)[k], sep) {
      if k > 0 {
        assert ([first] + rest)[k] == rest[k - 1];
      }
    }
  }

  /** `split` undoes `join` when every field but the last is clean and the
      last holds no separator. */
  lemma {:induction false} SplitJoin(parts: seq<string>, sep: string)
    requires |sep| > 0 && |parts| >= 1
    requires forall k :: 0 <= k < |parts| - 1 ==> CleanBefore(parts[k], sep)
    requires !Contains(parts[|parts| - 1], sep)
    ensures Split(Join(parts, sep), sep) == parts
    decreases |parts|
  {
    if |parts| > 1 {
      var tail := parts[1..];
      assert forall k :: 0 <= k < |tail| - 1 ==> tail[k] == parts[k + 1];
      assert tail[|tail| - 1] == parts[|parts| - 1];
      SplitJoin(tail, sep);
      SplitJoinStep(parts, sep);
    }
  }

  /** A clean first field, the separator, then fields that split back. */
  lemma SplitJoinStep(parts: seq<string>, sep: string)
    requires |sep| > 0 && |parts| > 1 && CleanBefore(parts[0], sep)
    requires Split(Join(parts[1..], sep), sep) == parts[1..]
    ensures Split(Join(parts, sep), sep) == parts
  {
    JoinCons(parts, sep);
    SplitPrefix(parts[0], sep, Join(parts[1..], sep), parts[1..]);
    assert parts == [parts[0]] + parts[1..];
  }

  lemma JoinCons(parts: seq<string>, sep: string)
    requires |parts| > 1
    ensures Join(parts, sep) == parts[0] + sep + Join(parts[1..], sep)
  {
  }

  /** Splitting a clean field followed by the separator and more text. */
  lemma SplitPrefix(first: string, sep: string, rest: string, tail: seq<string>)
    requires |sep| > 0 && CleanBefore(first, sep) && Split(rest, sep) == tail
    ensures Split(first + sep + rest, sep) == [first] + tail
  {
    var s := first + sep + rest;
    IndexOfJoined(first, sep, rest);
    SplitUnfold(s, sep, |first|);
    assert s[..|first|] == first;
    assert s[|first| + |sep|..] == rest;
  }

  /** Without the separator, `split` returns the text as the only part. */
  lemma SplitNone(s: string, sep: string)
    requires |sep| > 0 && !Contains(s, sep)
    ensures Split(s, sep) == [s]
  {
    var parts := Split(s, sep);
    assert Join(parts, sep) == parts[0];
  }

  /** `Split` cuts at the leftmost occurrence first. */
  lemma SplitUnfold(s: string, sep: string, i: nat)
    requires |sep| > 0 && IndexOf(s, sep) == Some(i)
    ensures i + |sep| <= |s|
    ensures Split(s, sep) == [s[..i]] + Split(s[i + |sep|..], sep)
  {
  }

  /** Occurrence positions listed in increasing order that do not overlap. */
  predicate Disjoint(s: string, sep: string, occ: seq<int>) {
    && (forall k :: 0 <= k < |occ| ==> OccursAt(s, sep, occ[k]))
    && (forall k :: 0 <= k < |occ| - 1 ==> occ[k] + |sep| <= occ[k + 1])
  }

  /** Left-to-right splitting finds at least as many pieces as any family of
      non-overlapping occurrences would give. */
  lemma {:induction false} SplitAtLeast(s: string, sep: string, occ: seq<int>)
    requires |sep| > 0 && Disjoint(s, sep, occ)
    ensures |Split(s, sep)| >= |occ| + 1
    decreases |s|
  {
    if |occ| > 0 {
      assert OccursAt(s, sep, occ[0]);
      var i := IndexOf(s, sep).value;
      SplitUnfold(s, sep, i);
      var shifted := seq(|occ| - 1, k requires 0 <= k < |occ| - 1 => occ[k + 1] - (i + |sep|));
      DisjointShift(s, sep, occ, i, shifted);
      SplitAtLeast(s[i + |sep|..], sep, shifted);
    }
  }

  /** The occurrences after the first, seen from the text after the leftmost
      occurrence, are still disjoint occurrences there. */
  lemma DisjointShift(s: string, sep: string, occ: seq<int>, i: nat, shifted: seq<int>)
    requires |sep| > 0 && Disjoint(s, sep, occ) && |occ| > 0
    requires i <= occ[0] && i + |sep| <= |s|
    requires |shifted| == |occ| - 1
    requires forall k :: 0 <= k < |shifted| ==> shifted[k] == occ[k + 1] - (i + |sep|)
    ensures Disjoint(s[i + |sep|..], sep, shifted)
  {
    var t := s[i + |sep|..];
    forall k | 0 <= k < |shifted| ensures OccursAt(t, sep, shifted[k]) {
      assert OccursAt(s, sep, occ[k + 1]);
      DisjointIncreasing(s, sep, occ, k + 1);
      assert t[shifted[k]..shifted[k] + |sep|] == s[occ[k + 1]..occ[k + 1] + |sep|];
    }
    forall k | 0 <= k < |shifted| - 1 ensures shifted[k] + |sep| <= shifted[k + 1] {
      assert occ[k + 1] + |sep| <= occ[k + 2];
    }
  }

  lemma {:induction false} DisjointIncreasing(s: string, sep: string, occ: seq<int>, k: nat)
    requires Disjoint(s, sep, occ) && 1 <= k < |occ|
    ensures occ[0] + |sep| <= occ[k]
    decreases k
  {
    if k > 1 {
      DisjointIncreasing(s, sep, occ, k - 1);
      assert occ[k - 1] + |sep| <= occ[k];
    }
  }

  predicate IsDigit(c: char) {
    '0' <= c <= '9'
  }

  predicate AllDigits(s: string) {
    forall k :: 0 <= k < |s| ==> IsDigit(s[k])
  }

  /** The number a string of decimal digits denotes. */
  function DecimalValue(s: string): nat
    requires AllDigits(s)
    decreases |s|
  {
    if s == [] then 0 else DecimalValue(s[..|s| - 1]) * 10 + (s[|s| - 1] as int - '0' as int)
  }

  /** Python's `str(n)` (and f-string `{n}`) for a non-negative integer. */
  function NatToString(n: nat): (s: string)
    ensures |s| >= 1 && AllDigits(s)
    ensures |s| > 1 ==> s[0] != '0'
    ensures DecimalValue(s) == n
    decreases n
  {
    var last := [(('0' as int) + n % 10) as char];
    if n < 10 then
      assert last[..0] == [];
      last
    else
      var front := NatToString(n / 10);
      var s := front + last;
      assert s[..|s| - 1] == front;
      s
  }

  /** Distinct numbers print differently. */
  lemma NatToStringInjective(a: nat, b: nat)
    requires NatToString(a) == NatToString(b)
    ensures a == b
  {
  }

  /** Length of the run of decimal digits at the front of `s`. */
  function LeadingDigits(s: string): (n: nat)
    ensures n <= |s|
    decreases |s|
  {
    if s == [] || !IsDigit(s[0]) then 0 else 1 + LeadingDigits(s[1..])
  }

  lemma {:induction false} LeadingDigitsOf(x: string, c: char, u: string)
    requires AllDigits(x) && !IsDigit(c)
    ensures LeadingDigits(x + [c] + u) == |x|
    decreases |x|
  {
    var s := x + [c] + u;
    if x == [] {
      assert s[0] == c;
    } else {
      assert s[0] == x[0];
      assert s[1..] == x[1..] + [c] + u;
      LeadingDigitsOf(x[1..], c, u);
    }
  }

  /** A run of digits ended by a non-digit is recovered unambiguously from the
      text that contains it: the number printed first is determined. */
  lemma DigitRunPrefix(x: string, c: char, u: string, y: string, d: char, v: string)
    requires AllDigits(x) && AllDigits(y) && !IsDigit(c) && !IsDigit(d)
    requires x + [c] + u == y + [d] + v
    ensures x == y && c == d && u == v
  {
    var s := x + [c] + u;
    LeadingDigitsOf(x, c, u);
    LeadingDigitsOf(y, d, v);
    assert |x| == |y|;
    assert x == s[..|x|] == y;
    assert c == s[|x|] == d;
    assert u == s[|x| + 1..] == v;
  }
}
