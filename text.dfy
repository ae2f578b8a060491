/**
 * The Python string and sequence built-ins the login code of
 * piazza_api/rpc.py relies on: `str.find`, `str.upper` (on ASCII),
 * `str.translate` with deletions, `str.split` on one character, and
 * slicing `s[start:stop]` with Python's negative indices.
 */
module Text {

  // ---- find ----

  /** `sub` occurs in `s` starting at index `j`. */
  predicate OccursAt(s: string, sub: string, j: int) {
    0 <= j && j + |sub| <= |s| && s[j..j + |sub|] == sub
  }

  lemma OccursShift(s: string, sub: string, j: int)
    requires |s| > 0 && j >= 1
    ensures OccursAt(s, sub, j) == OccursAt(s[1..], sub, j - 1)
  {
    if j + |sub| <= |s| {
      assert s[j..j + |sub|] == s[1..][j - 1..j - 1 + |sub|];
    }
  }

  /** `s.find(sub)`: the first index at which `sub` occurs, or -1. */
  function Find(s: string, sub: string): (i: int)
    ensures -1 <= i
    ensures i >= 0 ==> OccursAt(s, sub, i)
    ensures i >= 0 ==> forall j :: 0 <= j < i ==> !OccursAt(s, sub, j)
    ensures i == -1 ==> forall j :: !OccursAt(s, sub, j)
    decreases |s|
  {
    if |s| < |sub| then -1
    else if s[..|sub|] == sub then 0
    else
      var k := Find(s[1..], sub);
      assert forall j :: j >= 1 ==> OccursAt(s, sub, j) == OccursAt(s[1..], sub, j - 1) by {
        forall j | j >= 1 { OccursShift(s, sub, j); }
      }
      if k == -1 then -1 else k + 1
  }

  /** Appending text after the first occurrence does not move it. */
  lemma FindExtend(a: string, b: string, sub: string)
    requires Find(a, sub) != -1
    ensures Find(a + b, sub) == Find(a, sub)
  {
    var i := Find(a, sub);
    assert (a + b)[i..i + |sub|] == a[i..i + |sub|];
    assert OccursAt(a + b, sub, i);
    forall j | 0 <= j < i
      ensures !OccursAt(a + b, sub, j)
    {
      assert !OccursAt(a, sub, j);
      assert (a + b)[j..j + |sub|] == a[j..j + |sub|];
    }
  }

  // ---- upper ----

  function UpperChar(c: char): char {
    if 'a' <= c <= 'z' then (c as int - 32) as char else c
  }

  /** `s.upper()` on ASCII letters; every other character is kept. */
  function Upper(s: string): (u: string)
    ensures |u| == |s|
    ensures forall i :: 0 <= i < |s| ==> u[i] == UpperChar(s[i])
  {
    if s == [] then [] else [UpperChar(s[0])] + Upper(s[1..])
  }

  lemma UpperAppend(a: string, b: string)
    ensures Upper(a + b) == Upper(a) + Upper(b)
  {
    assert forall i :: 0 <= i < |a + b| ==> Upper(a + b)[i] == (Upper(a) + Upper(b))[i];
  }

  // ---- translate ----

  /** `s.translate({ord(c): None for c in drop})`: `s` with every character
      of `drop` deleted. */
  function Remove(s: string, drop: set<char>): (t: string)
    ensures forall i :: 0 <= i < |t| ==> t[i] !in drop
    ensures forall i :: 0 <= i < |t| ==> t[i] in s
    ensures |t| <= |s|
  {
    if s == [] then [] else (if s[0] in drop then [] else [s[0]]) + Remove(s[1..], drop)
  }

  lemma {:induction false} RemoveAppend(a: string, b: string, drop: set<char>)
    ensures Remove(a + b, drop) == Remove(a, drop) + Remove(b, drop)
    decreases |a|
  {
    if a != [] {
      var head := if a[0] in drop then [] else [a[0]];
      assert (a + b)[0] == a[0] && (a + b)[1..] == a[1..] + b;
      assert Remove(a + b, drop) == head + Remove(a[1..] + b, drop);
      RemoveAppend(a[1..], b, drop);
      assert Remove(a, drop) == head + Remove(a[1..], drop);
    } else {
      assert a + b == b;
    }
  }

  /** Deleting characters that do not occur changes nothing. */
  lemma {:induction false} RemoveAbsent(s: string, drop: set<char>)
    requires forall i :: 0 <= i < |s| ==> s[i] !in drop
    ensures Remove(s, drop) == s
    decreases |s|
  {
    if s != [] {
      RemoveAbsent(s[1..], drop);
    }
  }

  // ---- split ----

  /** `sep.join(parts)`. */
  function Join(parts: seq<string>, sep: char): string
    requires |parts| >= 1
  {
    if |parts| == 1 then parts[0] else parts[0] + [sep] + Join(parts[1..], sep)
  }

  /** `s.split(sep)`: the pieces between the separators, always at least one;
      joining them back gives `s`. */
  function Split(s: string, sep: char): (parts: seq<string>)
    ensures SplitOf(s, sep, parts)
  {
    if s == [] then [""]
    else
      var rest := Split(s[1..], sep);
      assert [s[0]] + s[1..] == s;
      if s[0] == sep then
        SplitAfterSeparator(s[1..], rest, sep);
        [""] + rest
      else
        SplitAfterChar(s[0], s[1..], rest, sep);
        [[s[0]] + rest[0]] + rest[1..]
  }

  /** What makes `parts` the split of `s` on `sep`. */
  predicate SplitOf(s: string, sep: char, parts: seq<string>) {
    && |parts| >= 1
    && (forall i :: 0 <= i < |parts| ==> sep !in parts[i])
    && (forall i, c :: 0 <= i < |parts| && c in parts[i] ==> c in s)
    && Join(parts, sep) == s
    && (sep !in s ==> parts == [s])
  }

  /** A leading separator starts an empty first piece. */
  lemma SplitAfterSeparator(t: string, rest: seq<string>, sep: char)
    requires SplitOf(t, sep, rest)
    ensures SplitOf([sep] + t, sep, [""] + rest)
  {
    var parts := [""] + rest;
    assert forall i :: 1 <= i < |parts| ==> parts[i] == rest[i - 1];
    assert parts[1..] == rest;
    assert forall c :: c in t ==> c in [sep] + t;
  }

  /** Any other leading character joins the first piece. */
  lemma SplitAfterChar(x: char, t: string, rest: seq<string>, sep: char)
    requires x != sep
    requires SplitOf(t, sep, rest)
    ensures SplitOf([x] + t, sep, [[x] + rest[0]] + rest[1..])
  {
    var parts := [[x] + rest[0]] + rest[1..];
    assert |rest| > 1 ==> parts[1..] == rest[1..];
    assert forall i :: 1 <= i < |parts| ==> parts[i] == rest[i];
    assert forall c :: c in t ==> c in [x] + t;
    assert forall c :: c in parts[0] ==> c == x || c in rest[0];
    assert Join(parts, sep) == [x] + Join(rest, sep);
  }

  lemma {:induction false} SplitAppend(a: string, b: string, sep: char)
    requires sep !in a
    ensures Split(a + [sep] + b, sep) == [a] + Split(b, sep)
    decreases |a|
  {
    var s := a + [sep] + b;
    if a == [] {
      assert s == [sep] + b && s[0] == sep && s[1..] == b;
    } else {
      assert s[0] == a[0] && s[1..] == a[1..] + [sep] + b;
      SplitAppend(a[1..], b, sep);
      var rest := Split(s[1..], sep);
      assert rest[0] == a[1..] && rest[1..] == Split(b, sep);
      assert Split(s, sep) == [[a[0]] + rest[0]] + rest[1..];
      assert [a[0]] + a[1..] == a;
    }
  }

  /** The second piece of a split is what follows the first separator, up
      to the next separator or the end. */
  lemma SplitSecondPiece(s: string, sep: char, k: int)
    requires |Split(s, sep)| >= 2
    requires 0 <= k < |s| && s[k] == sep && forall j :: 0 <= j < k ==> s[j] != sep
    ensures Split(s, sep)[1] <= s[k + 1..]
    ensures k + 1 + |Split(s, sep)[1]| == |s| || s[k + 1 + |Split(s, sep)[1]|] == sep
  {
    var p := Split(s, sep);
    var tail := Join(p[1..], sep);
    assert s == p[0] + [sep] + tail;
    assert s[|p[0]|] == sep;
    assert k == |p[0]|;
    assert s[k + 1..] == tail;
    if |p[1..]| == 1 {
      assert tail == p[1];
    } else {
      assert tail == p[1] + [sep] + Join(p[1..][1..], sep);
      assert tail[|p[1]|] == sep;
    }
  }

  /** Splitting a join of separator-free pieces gives the pieces back. */
  lemma {:induction false} SplitJoin(parts: seq<string>, sep: char)
    requires |parts| >= 1
    requires forall i :: 0 <= i < |parts| ==> sep !in parts[i]
    ensures Split(Join(parts, sep), sep) == parts
    decreases |parts|
  {
    if |parts| > 1 {
      SplitJoin(parts[1..], sep);
      SplitAppend(parts[0], Join(parts[1..], sep), sep);
    }
  }

  /** Five pieces joined by `sep`, regrouped: the first two with the
      separator between them, then each later one behind its separator. */
  lemma JoinPieces(f0: string, f1: string, f2: string, f3: string, f4: string,
                   a: string, b: string, c: string, d: string, sep: char)
    requires a == f0 + [sep] + f1 && b == [sep] + f2 && c == [sep] + f3 && d == [sep] + f4
    ensures Join([f0, f1, f2, f3, f4], sep) == a + b + c + d
  {
    var parts := [f0, f1, f2, f3, f4];
    assert parts[1..] == [f1, f2, f3, f4] && parts[1..][1..] == [f2, f3, f4];
    assert parts[1..][1..][1..] == [f3, f4] && parts[1..][1..][1..][1..] == [f4];
    assert Join(parts[3..], sep) == f3 + [sep] + f4 == f3 + d;
    assert Join(parts[2..], sep) == f2 + (c + d);
    assert Join(parts[1..], sep) == f1 + (b + c + d);
  }

  // ---- slicing ----

  /** A Python slice bound: a negative one counts from the end, and both
      are clamped into `0..n`. */
  function SliceBound(i: int, n: nat): (k: nat)
    ensures k <= n
    ensures 0 <= i <= n ==> k == i
    ensures i > n ==> k == n
    ensures i < 0 && 0 <= i + n ==> k == i + n
    ensures i + n < 0 ==> k == 0
  {
    if i < 0 then (if i + n < 0 then 0 else i + n) else if i > n then n else i
  }

  /** `s[start:stop]` with Python's slice semantics. */
  function PySlice<T>(s: seq<T>, start: int, stop: int): (t: seq<T>)
    ensures SliceBound(start, |s|) <= SliceBound(stop, |s|) ==>
              t == s[SliceBound(start, |s|)..SliceBound(stop, |s|)]
    ensures SliceBound(start, |s|) > SliceBound(stop, |s|) ==> t == []
  {
    var i := SliceBound(start, |s|);
    var j := SliceBound(stop, |s|);
    if i <= j then s[i..j] else []
  }

  /** `s[:k]`, the prefix form of slicing: a non-negative bound keeps at most
      that many leading elements, a negative one drops that many trailing
      ones. */
  lemma PrefixSlice<T>(s: seq<T>, k: int)
    ensures 0 <= k ==> PySlice(s, 0, k) == s[..if k <= |s| then k else |s|]
    ensures k < 0 && 0 <= |s| + k ==> PySlice(s, 0, k) == s[..|s| + k]
    ensures |s| + k < 0 ==> PySlice(s, 0, k) == []
  {
  }
}
