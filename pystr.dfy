/** The Python `str` operations the chat pipeline relies on, on `seq<char>`:
    `str.isspace` for one character, `str.strip()` without arguments,
    `str.find`, and `str.split(sep)` for a non-empty separator. */
module PyStr {
  import opened Outcomes

  /** The characters CPython's `str.isspace()` accepts, which are exactly the
      ones `str.strip()` removes when called without arguments. */
  predicate IsSpace(c: char) {
    var n := c as int;
    (0x09 <= n <= 0x0D) || (0x1C <= n <= 0x20) || n == 0x85 || n == 0xA0 ||
    n == 0x1680 || (0x2000 <= n <= 0x200A) || n == 0x2028 || n == 0x2029 ||
    n == 0x202F || n == 0x205F || n == 0x3000
  }

  /** The code points CPython's `str.isspace()` accepts, listed one by one. */
  const PythonWhitespace: set<int> := {
    0x09, 0x0A, 0x0B, 0x0C, 0x0D, 0x1C, 0x1D, 0x1E, 0x1F, 0x20, 0x85, 0xA0, 0x1680,
    0x2000, 0x2001, 0x2002, 0x2003, 0x2004, 0x2005, 0x2006, 0x2007, 0x2008, 0x2009, 0x200A,
    0x2028, 0x2029, 0x202F, 0x205F, 0x3000 }

  /** `IsSpace` accepts exactly the listed code points. */
  lemma IsSpaceMatchesTable(c: char)
    ensures IsSpace(c) <==> c as int in PythonWhitespace
  {
  }

  /** `s.lstrip()`: the longest suffix of `s` that does not start with whitespace. */
  function TrimStart(s: string): (r: string)
    ensures |r| <= |s| && r == s[|s| - |r|..]
    ensures r == [] || !IsSpace(r[0])
    ensures forall k :: 0 <= k < |s| - |r| ==> IsSpace(s[k])
  {
    if s != [] && IsSpace(s[0]) then TrimStart(s[1..]) else s
  }

  /** `s.rstrip()`: the longest prefix of `s` that does not end with whitespace. */
  function TrimEnd(s: string): (r: string)
    ensures |r| <= |s| && r == s[..|r|]
    ensures r == [] || !IsSpace(r[|r| - 1])
    ensures forall k :: |r| <= k < |s| ==> IsSpace(s[k])
  {
    if s != [] && IsSpace(s[|s| - 1]) then TrimEnd(s[..|s| - 1]) else s
  }

  /** `s.strip()`: `s` without its leading and trailing whitespace. The result
      is the slice of `s` that starts at `a`, and every character cut off on
      either side is whitespace. */
  function Strip(s: string): (r: string)
    ensures r == [] || (!IsSpace(r[0]) && !IsSpace(r[|r| - 1]))
    ensures var a := |s| - |TrimStart(s)|;
      && a + |r| <= |s|
      && r == s[a..a + |r|]
      && (forall k :: 0 <= k < a ==> IsSpace(s[k]))
      && (forall k :: a + |r| <= k < |s| ==> IsSpace(s[k]))
  {
    TrimEnd(TrimStart(s))
  }

  /** Python's truth value of `s.strip()`: false exactly when `s` is all whitespace. */
  lemma StripEmptyIffAllSpace(s: string)
    ensures Strip(s) == [] <==> forall k :: 0 <= k < |s| ==> IsSpace(s[k])
  {
    if Strip(s) != [] {
      var a := |s| - |TrimStart(s)|;
      assert s[a] == Strip(s)[0];
    }
  }

  /** A string with no whitespace at either end is left alone by `strip()`. */
  lemma {:induction false} StripOfStripped(s: string)
    requires s == [] || (!IsSpace(s[0]) && !IsSpace(s[|s| - 1]))
    ensures Strip(s) == s
  {
    assert TrimStart(s) == s;
    assert TrimEnd(s) == s;
  }

  /** `strip()` is idempotent. */
  lemma StripIdempotent(s: string)
    ensures Strip(Strip(s)) == Strip(s)
  {
    StripOfStripped(Strip(s));
  }

  /** `sep` occurs in `s` at index `i`. */
  predicate OccursAt(s: string, sep: string, i: int) {
    0 <= i && i + |sep| <= |s| && s[i..i + |sep|] == sep
  }

  /** Python's `sep in s`. */
  predicate Contains(s: string, sep: string) {
    exists i :: 0 <= i <= |s| - |sep| && OccursAt(s, sep, i)
  }

  /** Python's `s.find(sep, k)`: the first index at or after `k` where `sep`
      occurs, `None` for -1. */
  function FindFrom(s: string, sep: string, k: nat): (r: Option<nat>)
    ensures r.Some? ==> k <= r.value && OccursAt(s, sep, r.value)
    ensures r.None? ==> forall j :: k <= j ==> !OccursAt(s, sep, j)
    decreases |s| - k
  {
    if |s| < k + |sep| then
      None
    else if OccursAt(s, sep, k) then
      Some(k)
    else
      FindFrom(s, sep, k + 1)
  }

  /** The occurrence `FindFrom` returns is the leftmost one at or after `k`. */
  lemma {:induction false} FindFromLeftmost(s: string, sep: string, k: nat)
    ensures FindFrom(s, sep, k).Some? ==>
      forall j :: k <= j < FindFrom(s, sep, k).value ==> !OccursAt(s, sep, j)
    decreases |s| - k
  {
    if |s| >= k + |sep| && !OccursAt(s, sep, k) {
      FindFromLeftmost(s, sep, k + 1);
    }
  }

  /** Python's `s.find(sep)`: the leftmost occurrence, `None` for -1. */
  function Find(s: string, sep: string): (r: Option<nat>)
    ensures r.Some? ==> OccursAt(s, sep, r.value)
    ensures r.Some? ==> forall j :: 0 <= j < r.value ==> !OccursAt(s, sep, j)
    ensures r.None? <==> !Contains(s, sep)
  {
    FindFromLeftmost(s, sep, 0);
    FindFrom(s, sep, 0)
  }

  /** A slice of a slice is a slice of the whole. */
  lemma SliceOfSlice(s: string, a: nat, b: nat, c: nat, d: nat)
    requires a <= b <= |s| && c <= d <= b - a
    ensures s[a..b][c..d] == s[a + c..a + d]
  {
    assert forall m :: 0 <= m < d - c ==> s[a..b][c..d][m] == s[a + c + m];
  }

  /** Every slice of a string free of `sep` is free of `sep`. */
  lemma SliceOfFree(s: string, sep: string, a: nat, b: nat)
    requires a <= b <= |s| && !Contains(s, sep)
    ensures !Contains(s[a..b], sep)
  {
    forall j | 0 <= j <= b - a - |sep|
      ensures !OccursAt(s[a..b], sep, j)
    {
      SliceOfSlice(s, a, b, j, j + |sep|);
      assert !OccursAt(s, sep, a + j);
    }
  }

  /** A stretch of `s` where no occurrence of `sep` starts holds no occurrence. */
  lemma FreeBetween(s: string, sep: string, a: nat, b: nat)
    requires sep != [] && a <= b <= |s|
    requires forall j :: a <= j < b ==> !OccursAt(s, sep, j)
    ensures !Contains(s[a..b], sep)
  {
    forall j | 0 <= j <= b - a - |sep|
      ensures !OccursAt(s[a..b], sep, j)
    {
      SliceOfSlice(s, a, b, j, j + |sep|);
      assert !OccursAt(s, sep, a + j);
    }
  }

  /** The pieces of `s[k..]` as Python's `s.split(sep)` scans them: the text up
      to the leftmost occurrence at or after `k`, then the pieces after that
      occurrence. No piece contains `sep`. */
  function SplitFrom(s: string, sep: string, k: nat): (parts: seq<string>)
    requires sep != [] && k <= |s|
    ensures |parts| >= 1
    ensures forall m :: 0 <= m < |parts| ==> !Contains(parts[m], sep)
    decreases |s| - k
  {
    match FindFrom(s, sep, k)
    case None =>
      FreeBetween(s, sep, k, |s|);
      assert s[k..|s|] == s[k..];
      [s[k..]]
    case Some(i) =>
      FindFromLeftmost(s, sep, k);
      FreeBetween(s, sep, k, i);
      [s[k..i]] + SplitFrom(s, sep, i + |sep|)
  }

  /** One step of `SplitFrom`: the piece up to the leftmost occurrence at or
      after `k`, then the pieces after it. */
  lemma SplitFromStep(s: string, sep: string, k: nat)
    requires sep != [] && k <= |s| && FindFrom(s, sep, k).Some?
    ensures var i := FindFrom(s, sep, k).value;
      SplitFrom(s, sep, k) == [s[k..i]] + SplitFrom(s, sep, i + |sep|)
  {
  }

  /** With no occurrence at or after `k`, `s[k..]` is the only piece. */
  lemma SplitFromEnd(s: string, sep: string, k: nat)
    requires sep != [] && k <= |s|
    requires forall j :: k <= j ==> !OccursAt(s, sep, j)
    ensures SplitFrom(s, sep, k) == [s[k..]]
  {
    assert FindFrom(s, sep, k).None?;
  }

  /** Python's `s.split(sep)` for a non-empty `sep`: the pieces between the
      leftmost non-overlapping occurrences, scanned left to right. No piece
      contains `sep`. */
  function Split(s: string, sep: string): (parts: seq<string>)
    requires sep != []
    ensures |parts| >= 1
    ensures forall m :: 0 <= m < |parts| ==> !Contains(parts[m], sep)
  {
    SplitFrom(s, sep, 0)
  }

  /** `sep.join(parts)`. */
  function Join(parts: seq<string>, sep: string): string
    requires |parts| >= 1
    decreases |parts|
  {
    if |parts| == 1 then parts[0] else parts[0] + sep + Join(parts[1..], sep)
  }

  /** `parts[0]`. */
  function First(parts: seq<string>): string
    requires |parts| >= 1
  {
    parts[0]
  }

  /** `parts[-1]`. */
  function Last(parts: seq<string>): string
    requires |parts| >= 1
  {
    parts[|parts| - 1]
  }

  /** Joining a leading part onto the rest puts `sep` between them. */
  lemma JoinCons(x: string, rest: seq<string>, sep: string, tail: string, whole: string)
    requires |rest| >= 1 && Join(rest, sep) == tail && whole == x + sep + tail
    ensures Join([x] + rest, sep) == whole
  {
    assert ([x] + rest)[1..] == rest;
  }

  /** A leading part does not change the last one. */
  lemma LastCons(x: string, rest: seq<string>, tail: string)
    requires |rest| >= 1 && Last(rest) == tail
    ensures Last([x] + rest) == tail
  {
  }

  /** `s[k..]` is the text before an occurrence of `sep` at `i`, `sep`, and the
      text after it. */
  lemma AroundOccurrence(s: string, sep: string, k: nat, i: nat)
    requires k <= i && OccursAt(s, sep, i)
    ensures s[k..] == s[k..i] + sep + s[i + |sep|..]
  {
    assert s[k..] == s[k..i] + s[i..i + |sep|] + s[i + |sep|..];
  }

  /** Joining the pieces of `s[k..]` back with `sep` gives `s[k..]`. */
  lemma {:induction false} JoinSplitFrom(s: string, sep: string, k: nat)
    requires sep != [] && k <= |s|
    ensures Join(SplitFrom(s, sep, k), sep) == s[k..]
    decreases |s| - k
  {
    match FindFrom(s, sep, k)
    case None =>
      SplitFromEnd(s, sep, k);
    case Some(i) =>
      var a := i + |sep|;
      var rest := SplitFrom(s, sep, a);
      SplitFromStep(s, sep, k);
      AroundOccurrence(s, sep, k, i);
      JoinSplitFrom(s, sep, a);
      JoinCons(s[k..i], rest, sep, s[a..], s[k..]);
  }

  /** Splitting loses nothing: joining the pieces back with `sep` gives `s`. */
  lemma JoinSplit(s: string, sep: string)
    requires sep != []
    ensures Join(Split(s, sep), sep) == s
  {
    JoinSplitFrom(s, sep, 0);
    assert s[0..] == s;
  }

  /** A string without `sep` splits into itself alone. */
  lemma SplitOfFree(s: string, sep: string)
    requires sep != [] && !Contains(s, sep)
    ensures Split(s, sep) == [s]
  {
    assert FindFrom(s, sep, 0).None?;
    assert s[0..] == s;
  }

  /** The first piece is `s` up to the leftmost occurrence, or all of `s`. */
  lemma SplitFirst(s: string, sep: string)
    requires sep != []
    ensures Find(s, sep).None? ==> First(Split(s, sep)) == s
    ensures Find(s, sep).Some? ==> First(Split(s, sep)) == s[..Find(s, sep).value]
  {
    var f := FindFrom(s, sep, 0);
    if f.Some? {
      assert s[0..f.value] == s[..f.value];
    } else {
      assert s[0..] == s;
    }
  }

  /** The last part is a suffix of the joined string. */
  lemma {:induction false} JoinEndsWithLast(parts: seq<string>, sep: string)
    requires |parts| >= 1
    ensures var j := Join(parts, sep); var l := Last(parts); |l| <= |j| && l == j[|j| - |l|..]
    decreases |parts|
  {
    if |parts| > 1 {
      JoinEndsWithLast(parts[1..], sep);
      var l := Last(parts);
      assert Last(parts[1..]) == l;
      var r := Join(parts[1..], sep);
      var j := parts[0] + sep + r;
      assert Join(parts, sep) == j;
      assert j[|j| - |l|..] == r[|r| - |l|..];
    }
  }

  /** The last piece is a suffix of `s`. */
  lemma SplitLastIsSuffix(s: string, sep: string)
    requires sep != []
    ensures var l := Last(Split(s, sep)); |l| <= |s| && l == s[|s| - |l|..]
  {
    JoinSplit(s, sep);
    JoinEndsWithLast(Split(s, sep), sep);
  }

  /** No proper prefix of `sep` is also a suffix of it, so two occurrences of
      `sep` can never overlap. */
  predicate NoSelfOverlap(sep: string) {
    forall d {:trigger sep[d..]} :: 0 < d < |sep| ==> sep[d..] != sep[..|sep| - d]
  }

  /** Two overlapping occurrences of `sep` show a proper prefix of `sep` that
      is also a suffix of it. */
  lemma OverlapIsBorder(s: string, sep: string, i: nat, j: nat)
    requires OccursAt(s, sep, i) && OccursAt(s, sep, j) && i < j < i + |sep|
    ensures sep[j - i..] == sep[..|sep| - (j - i)]
  {
    var d := j - i;
    assert sep[d..] == s[j..i + |sep|];
    assert sep[..|sep| - d] == s[j..i + |sep|];
  }

  /** Two occurrences of a separator that cannot overlap itself are at least
      `|sep|` apart. */
  lemma OccurrencesApart(s: string, sep: string, i: nat, j: nat)
    requires NoSelfOverlap(sep) && OccursAt(s, sep, i) && OccursAt(s, sep, j) && i < j
    ensures i + |sep| <= j
  {
    if j < i + |sep| {
      OverlapIsBorder(s, sep, i, j);
      assert false;
    }
  }

  /** Where the last piece of `s[k..]` starts: just after the last
      occurrence the scan from `k` finds, or `k` if it finds none. */
  function LastStart(s: string, sep: string, k: nat): (start: nat)
    requires sep != [] && k <= |s|
    ensures k <= start <= |s|
    decreases |s| - k
  {
    match FindFrom(s, sep, k)
    case None => k
    case Some(i) => LastStart(s, sep, i + |sep|)
  }

  /** One step of `LastStart`: after an occurrence, the scan goes on past it. */
  lemma LastStartStep(s: string, sep: string, k: nat)
    requires sep != [] && k <= |s| && FindFrom(s, sep, k).Some?
    ensures LastStart(s, sep, k) == LastStart(s, sep, FindFrom(s, sep, k).value + |sep|)
  {
  }

  /** With no occurrence at or after `k`, the last piece starts at `k`. */
  lemma LastStartEnd(s: string, sep: string, k: nat)
    requires sep != [] && k <= |s| && FindFrom(s, sep, k).None?
    ensures LastStart(s, sep, k) == k
  {
  }

  /** The last piece of the split of `s[k..]` is `s` from `LastStart` on. */
  lemma {:induction false} SplitFromLast(s: string, sep: string, k: nat)
    requires sep != [] && k <= |s|
    ensures Last(SplitFrom(s, sep, k)) == s[LastStart(s, sep, k)..]
    decreases |s| - k
  {
    match FindFrom(s, sep, k)
    case None =>
      SplitFromEnd(s, sep, k);
      LastStartEnd(s, sep, k);
    case Some(i) =>
      var a := i + |sep|;
      var rest := SplitFrom(s, sep, a);
      SplitFromStep(s, sep, k);
      LastStartStep(s, sep, k);
      SplitFromLast(s, sep, a);
      LastCons(s[k..i], rest, s[LastStart(s, sep, a)..]);
  }

  /** Scanning from `k` with an occurrence at `q` ahead, the scan finds either
      that occurrence or one that ends before it starts. */
  lemma NextOccurrence(s: string, sep: string, k: nat, q: nat)
    requires sep != [] && NoSelfOverlap(sep) && k <= q && OccursAt(s, sep, q)
    ensures FindFrom(s, sep, k).Some?
    ensures var i := FindFrom(s, sep, k).value; i == q || i + |sep| <= q
  {
    FindFromLeftmost(s, sep, k);
    var i := FindFrom(s, sep, k).value;
    if i != q {
      OccurrencesApart(s, sep, i, q);
    }
  }

  /** When `sep` occurs at `q`, at or after `k`, cannot overlap itself, and no
      occurrence starts after that one, the last piece of the split of `s[k..]`
      starts right after it. */
  lemma {:induction false} LastStartAfterOccurrence(s: string, sep: string, k: nat, q: nat)
    requires sep != [] && NoSelfOverlap(sep) && k <= q && OccursAt(s, sep, q)
    requires FindFrom(s, sep, q + |sep|).None?
    ensures LastStart(s, sep, k) == q + |sep|
    decreases |s| - k
  {
    NextOccurrence(s, sep, k, q);
    LastStartStep(s, sep, k);
    var a := FindFrom(s, sep, k).value + |sep|;
    if a == q + |sep| {
      LastStartEnd(s, sep, a);
    } else {
      LastStartAfterOccurrence(s, sep, a, q);
    }
  }

  /** When `s` ends with `sep` followed by text free of `sep`, and `sep`
      cannot overlap itself, the last piece of `s.split(sep)` is that text. */
  lemma SplitLastAfterSeparator(p: string, sep: string, g: string)
    requires sep != [] && NoSelfOverlap(sep) && !Contains(g, sep)
    ensures Last(Split(p + sep + g, sep)) == g
  {
    var s := p + sep + g;
    var a := |p| + |sep|;
    assert s[|p|..a] == sep;
    assert s[a..] == g;
    forall j | a <= j
      ensures !OccursAt(s, sep, j)
    {
      if j + |sep| <= |s| {
        assert s[j..j + |sep|] == g[j - a..j - a + |sep|];
        assert !OccursAt(g, sep, j - a);
      }
    }
    assert FindFrom(s, sep, a).None?;
    LastStartAfterOccurrence(s, sep, 0, |p|);
    SplitFromLast(s, sep, 0);
  }
}
