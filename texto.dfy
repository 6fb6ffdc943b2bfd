/**
 * Python string primitives used by the quiz back end, stated over `seq<char>`:
 * the character classes of `str.isspace`, `re`'s `\w` and `\d`, `str.lower`,
 * `str.strip`, `str.split()` (on whitespace), `str.split(sep)`, `sep.join`
 * and the substring test `sub in s`.
 *
 * The character classes are exact for U+0000..U+00FF (ASCII and Latin-1,
 * which covers Portuguese text); above U+00FF only the Unicode spaces are
 * classified, every other character counts as a non-word character and
 * lower-cases to itself.
 */
module Texto {

  datatype Option<T> = None | Some(value: T)

  /** Python `str.isspace()` (and so `\s` in a `str` pattern and `str.split()`). */
  predicate IsSpace(c: char)
  {
    var n := c as int;
    (9 <= n <= 13) || (28 <= n <= 32) || n == 0x85 || n == 0xA0 || n == 0x1680
    || (0x2000 <= n <= 0x200A) || n == 0x2028 || n == 0x2029 || n == 0x202F
    || n == 0x205F || n == 0x3000
  }

  /** `\d`: the decimal digits. */
  predicate IsDigit(c: char)
  {
    '0' <= c <= '9'
  }

  /** `\w`: `str.isalnum()` or the underscore. */
  predicate IsWordChar(c: char)
  {
    var n := c as int;
    IsDigit(c) || ('a' <= c <= 'z') || ('A' <= c <= 'Z') || c == '_'
    || n == 0xAA || n == 0xB2 || n == 0xB3 || n == 0xB5 || n == 0xB9 || n == 0xBA
    || (0xBC <= n <= 0xBE) || (0xC0 <= n <= 0xFF && n != 0xD7 && n != 0xF7)
  }

  /** The capitals that `str.lower()` changes: ASCII A-Z and Latin-1 U+00C0..U+00DE but U+00D7. */
  predicate IsUpper(c: char)
  {
    var n := c as int;
    ('A' <= c <= 'Z') || (0xC0 <= n <= 0xDE && n != 0xD7)
  }

  /** `str.lower()` on one character: a capital moves down by 0x20, to a
      character that is no capital and is in the same class. */
  function Lower(c: char): (r: char)
    ensures !IsUpper(r)
    ensures !IsUpper(c) ==> r == c
    ensures IsWordChar(r) == IsWordChar(c) && IsSpace(r) == IsSpace(c) && IsDigit(r) == IsDigit(c)
  {
    if IsUpper(c) then (c as int + 32) as char else c
  }

  /** `str.lower()`: lower-cases each character in place. */
  function LowerStr(s: string): (r: string)
    ensures |r| == |s|
    ensures forall i :: 0 <= i < |s| ==> r[i] == Lower(s[i])
  {
    seq(|s|, i requires 0 <= i < |s| => Lower(s[i]))
  }

  predicate AllSpace(s: string)
  {
    forall i :: 0 <= i < |s| ==> IsSpace(s[i])
  }

  predicate NoSpace(s: string)
  {
    forall i :: 0 <= i < |s| ==> !IsSpace(s[i])
  }

  /** `sub` occurs in `s` starting at index `k`. */
  predicate OccursAt(s: string, sub: string, k: int)
  {
    0 <= k && k + |sub| <= |s| && s[k..k + |sub|] == sub
  }

  /** Python `sub in s`. */
  predicate Contains(s: string, sub: string)
  {
    exists k :: 0 <= k <= |s| && OccursAt(s, sub, k)
  }

  /** A slice of a slice is a slice of the original. */
  lemma SliceOfSlice(s: string, i: nat, j: nat, a: nat, b: nat)
    requires i <= j <= |s| && a <= b <= j - i
    ensures s[i..j][a..b] == s[i + a..i + b]
  {
    assert forall x :: 0 <= x < b - a ==> s[i..j][a..b][x] == s[i + a..i + b][x];
  }

  /** A slice of a string occurs in it. */
  lemma ContainsSlice(s: string, i: nat, j: nat)
    requires i <= j <= |s|
    ensures Contains(s, s[i..j])
  {
    assert OccursAt(s, s[i..j], i);
  }

  /** Whatever occurs in a slice occurs in the whole string. */
  lemma ContainsFromSlice(s: string, i: nat, j: nat, sub: string)
    requires i <= j <= |s|
    requires Contains(s[i..j], sub)
    ensures Contains(s, sub)
  {
    var k :| 0 <= k <= j - i && OccursAt(s[i..j], sub, k);
    SliceOfSlice(s, i, j, k, k + |sub|);
    assert OccursAt(s, sub, i + k);
  }

  /** `a` is obtained from `b` by deleting characters. */
  predicate IsSubsequence(a: string, b: string)
    decreases |b|
  {
    a == [] || (b != [] && ((a[0] == b[0] && IsSubsequence(a[1..], b[1..])) || IsSubsequence(a, b[1..])))
  }

  // ---------------------------------------------------------------------
  // str.strip()

  /** `str.lstrip()`. */
  function LStrip(s: string): (r: string)
    ensures |r| <= |s| && r == s[|s| - |r|..]
    ensures AllSpace(s[..|s| - |r|])
    ensures r == [] || !IsSpace(r[0])
  {
    if s != [] && IsSpace(s[0]) then
      var r := LStrip(s[1..]);
      assert s[..|s| - |r|] == [s[0]] + s[1..][..|s| - 1 - |r|];
      AllSpaceCons(s[0], s[1..][..|s| - 1 - |r|]);
      r
    else s
  }

  /** `str.rstrip()`. */
  function RStrip(s: string): (r: string)
    ensures |r| <= |s| && r == s[..|r|]
    ensures AllSpace(s[|r|..])
    ensures r == [] || !IsSpace(r[|r| - 1])
  {
    if s != [] && IsSpace(s[|s| - 1]) then
      var t := s[..|s| - 1];
      var r := RStrip(t);
      assert s[|r|..] == t[|r|..] + [s[|s| - 1]];
      AllSpaceSnoc(t[|r|..], s[|s| - 1]);
      r
    else s
  }

  lemma AllSpaceCons(c: char, t: string)
    requires IsSpace(c) && AllSpace(t)
    ensures AllSpace([c] + t)
  {
    assert forall i :: 0 < i < |t| + 1 ==> ([c] + t)[i] == t[i - 1];
  }

  lemma AllSpaceSnoc(t: string, c: char)
    requires AllSpace(t) && IsSpace(c)
    ensures AllSpace(t + [c])
  {
    assert forall i :: 0 <= i < |t| ==> (t + [c])[i] == t[i];
  }

  /** `str.strip()`: neither end of the result is whitespace. */
  function Strip(s: string): (r: string)
    ensures |r| <= |s|
    ensures r == [] || (!IsSpace(r[0]) && !IsSpace(r[|r| - 1]))
  {
    RStrip(LStrip(s))
  }

  /** The strip of `s` is a slice of `s` between two all-whitespace margins. */
  lemma StripSlice(s: string) returns (i: nat, j: nat)
    ensures i <= j <= |s| && Strip(s) == s[i..j]
    ensures AllSpace(s[..i]) && AllSpace(s[j..])
  {
    var l := LStrip(s);
    var r := RStrip(l);
    i := |s| - |l|;
    j := i + |r|;
    assert r == s[i..j];
    assert s[j..] == l[|r|..];
  }

  /** A string with no whitespace at either end is its own strip. */
  lemma StripNoMargins(s: string)
    requires s == [] || (!IsSpace(s[0]) && !IsSpace(s[|s| - 1]))
    ensures Strip(s) == s
  {
    if s != [] {
      assert LStrip(s) == s;
      assert RStrip(s) == s;
    }
  }

  /** Stripping a stripped string changes nothing. */
  lemma StripIdempotent(s: string)
    ensures Strip(Strip(s)) == Strip(s)
  {
    StripNoMargins(Strip(s));
  }

  /** Whatever occurs in the strip of `s` occurs in `s`. */
  lemma ContainsFromStrip(s: string, sub: string)
    requires Contains(Strip(s), sub)
    ensures Contains(s, sub)
  {
    var i, j := StripSlice(s);
    ContainsFromSlice(s, i, j, sub);
  }

  /** `sub` occurs in `a + sub + b`. */
  lemma ContainsMiddle(a: string, sub: string, b: string)
    ensures Contains(a + sub + b, sub)
  {
    assert (a + sub + b)[|a|..|a| + |sub|] == sub;
    assert OccursAt(a + sub + b, sub, |a|);
  }

  /** Every character of an occurring substring is a character of `s`. */
  lemma ContainsElem(s: string, sub: string, c: char)
    requires Contains(s, sub) && c in sub
    ensures c in s
  {
    var k :| 0 <= k <= |s| && OccursAt(s, sub, k);
    var j :| 0 <= j < |sub| && sub[j] == c;
    assert s[k..k + |sub|][j] == s[k + j];
  }

  /** Strip gives the empty string exactly when `s` is all whitespace. */
  lemma StripEmpty(s: string)
    ensures Strip(s) == [] <==> AllSpace(s)
  {
    var i, j := StripSlice(s);
    if Strip(s) == [] {
      forall k | 0 <= k < |s| ensures IsSpace(s[k]) {
        if k < i { assert s[..i][k] == s[k]; } else { assert s[j..][k - j] == s[k]; }
      }
    } else {
      assert !IsSpace(s[i]);
    }
  }

  // ---------------------------------------------------------------------
  // str.split() with no argument

  /** Length of the leading run of non-whitespace characters. */
  function TokenLen(s: string): (n: nat)
    ensures n <= |s|
    ensures forall i :: 0 <= i < n ==> !IsSpace(s[i])
    ensures n < |s| ==> IsSpace(s[n])
  {
    if s == [] || IsSpace(s[0]) then 0 else 1 + TokenLen(s[1..])
  }

  /** Python `s.split()`: the maximal runs of non-whitespace characters, in order. */
  function SplitWs(s: string): (r: seq<string>)
    ensures forall i :: 0 <= i < |r| ==> r[i] != [] && NoSpace(r[i])
    decreases |s|
  {
    if s == [] then []
    else if IsSpace(s[0]) then SplitWs(s[1..])
    else
      var n := TokenLen(s);
      [s[..n]] + SplitWs(s[n..])
  }

  /** `s.split()` is empty exactly when `s` is all whitespace. */
  lemma {:induction false} SplitWsEmpty(s: string)
    ensures SplitWs(s) == [] <==> AllSpace(s)
    decreases |s|
  {
    if s != [] && IsSpace(s[0]) {
      SplitWsEmpty(s[1..]);
      if AllSpace(s[1..]) {
        forall k | 0 <= k < |s| ensures IsSpace(s[k]) {
          if k > 0 { assert s[1..][k - 1] == s[k]; }
        }
      } else {
        var k :| 0 <= k < |s[1..]| && !IsSpace(s[1..][k]);
        assert !IsSpace(s[k + 1]);
      }
    }
  }

  /** Every token of `s.split()` occurs in `s`. */
  lemma {:induction false} SplitWsTokensOccur(s: string, t: string)
    requires t in SplitWs(s)
    ensures Contains(s, t)
    decreases |s|
  {
    if IsSpace(s[0]) {
      SplitWsTokensOccur(s[1..], t);
      assert s[1..] == s[1..|s|];
      ContainsFromSlice(s, 1, |s|, t);
    } else {
      var n := TokenLen(s);
      if t == s[..n] {
        ContainsSlice(s, 0, n);
      } else {
        SplitWsTokensOccur(s[n..], t);
        assert s[n..] == s[n..|s|];
        ContainsFromSlice(s, n, |s|, t);
      }
    }
  }

  /** A leading all-whitespace gap is skipped and a maximal run of
      non-whitespace becomes one token: the tokens of `gap + t + rest`, where
      `rest` is empty or starts with whitespace, are `t` and then the tokens
      of `rest`. With `SplitWsEmpty` this fixes every token and its order. */
  lemma {:induction false} SplitWsCons(gap: string, t: string, rest: string)
    requires AllSpace(gap) && t != [] && NoSpace(t)
    requires rest == [] || IsSpace(rest[0])
    ensures SplitWs(gap + t + rest) == [t] + SplitWs(rest)
    decreases |gap|
  {
    var s := gap + t + rest;
    if gap == [] {
      assert s == t + rest;
      assert forall i :: 0 <= i < |t| ==> s[i] == t[i];
      assert rest != [] ==> s[|t|] == rest[0];
      var n := TokenLen(s);
      assert n == |t|;
      assert s[..n] == t && s[n..] == rest;
    } else {
      assert s[1..] == gap[1..] + t + rest;
      SplitWsCons(gap[1..], t, rest);
    }
  }

  // ---------------------------------------------------------------------
  // str.split(sep) and sep.join(pieces)

  /** Shifting a string by one character shifts every occurrence in it. */
  lemma OccursShift(s: string, sub: string, k: int)
    requires s != [] && 0 <= k
    ensures OccursAt(s[1..], sub, k) <==> OccursAt(s, sub, k + 1)
  {
    if 0 <= k && k + |sub| <= |s| - 1 {
      assert s[1..] == s[1..|s|];
      SliceOfSlice(s, 1, |s|, k, k + |sub|);
    }
  }

  /** Python `s.find(sep)` as an option: the first index at which `sep` occurs
      (characterised by `IndexOfFirst`). */
  function IndexOf(s: string, sep: string): (r: Option<nat>)
    ensures r.Some? ==> r.value + |sep| <= |s|
    decreases |s|
  {
    if |s| < |sep| then None
    else if s[..|sep|] == sep then Some(0)
    else
      match IndexOf(s[1..], sep)
      case None => None
      case Some(k) => Some(k + 1)
  }

  /** `IndexOf` finds an occurrence, none precedes it, and it finds nothing
      only when there is nothing to find. */
  lemma {:induction false} IndexOfFirst(s: string, sep: string)
    ensures IndexOf(s, sep).Some? ==> OccursAt(s, sep, IndexOf(s, sep).value)
    ensures IndexOf(s, sep).Some? ==> forall j :: 0 <= j < IndexOf(s, sep).value ==> !OccursAt(s, sep, j)
    ensures IndexOf(s, sep).None? ==> !Contains(s, sep)
    decreases |s|
  {
    if |s| < |sep| {
    } else if s[..|sep|] == sep {
      assert OccursAt(s, sep, 0);
    } else {
      IndexOfFirst(s[1..], sep);
      match IndexOf(s[1..], sep)
      case None => AbsentAfterHead(s, sep);
      case Some(k) => FirstAfterHead(s, sep, k);
    }
  }

  /** The index `IndexOf` returns is an occurrence. */
  lemma IndexOfOccurs(s: string, sep: string, k: nat)
    requires IndexOf(s, sep) == Some(k)
    ensures OccursAt(s, sep, k)
  {
    IndexOfFirst(s, sep);
  }

  /** No occurrence at the head nor in the tail: none at all. */
  lemma AbsentAfterHead(s: string, sep: string)
    requires s != [] && !OccursAt(s, sep, 0) && !Contains(s[1..], sep)
    ensures !Contains(s, sep)
  {
    forall j | 0 < j <= |s| ensures !OccursAt(s, sep, j) {
      OccursShift(s, sep, j - 1);
    }
  }

  /** No occurrence at the head, and the tail's first one at `k`: the first
      one is at `k + 1`. */
  lemma FirstAfterHead(s: string, sep: string, k: nat)
    requires s != [] && !OccursAt(s, sep, 0) && OccursAt(s[1..], sep, k)
    requires forall j :: 0 <= j < k ==> !OccursAt(s[1..], sep, j)
    ensures OccursAt(s, sep, k + 1) && forall j :: 0 <= j < k + 1 ==> !OccursAt(s, sep, j)
  {
    OccursShift(s, sep, k);
    forall j | 0 < j < k + 1 ensures !OccursAt(s, sep, j) {
      OccursShift(s, sep, j - 1);
    }
  }

  /** Python `s.split(sep)`: cut at every occurrence of `sep`, scanning left to
      right without overlaps. */
  function Split(s: string, sep: string): (r: seq<string>)
    requires sep != []
    ensures |r| >= 1
    decreases |s|
  {
    match IndexOf(s, sep)
    case None => [s]
    case Some(k) => [s[..k]] + Split(s[k + |sep|..], sep)
  }

  /** The text before the first occurrence holds no occurrence. */
  lemma {:induction false} BeforeFirst(s: string, sep: string, k: nat)
    requires sep != [] && IndexOf(s, sep) == Some(k)
    ensures !Contains(s[..k], sep)
  {
    IndexOfFirst(s, sep);
    forall j | 0 <= j <= k ensures !OccursAt(s[..k], sep, j) {
      if j + |sep| <= k {
        assert !OccursAt(s, sep, j);
        assert s[..k] == s[0..k];
        SliceOfSlice(s, 0, k, j, j + |sep|);
      }
    }
  }

  /** No piece of a split contains `sep`. */
  lemma {:induction false} SplitPieces(s: string, sep: string)
    requires sep != []
    ensures forall i :: 0 <= i < |Split(s, sep)| ==> !Contains(Split(s, sep)[i], sep)
    decreases |s|
  {
    match IndexOf(s, sep)
    case None =>
      IndexOfFirst(s, sep);
    case Some(k) =>
      BeforeFirst(s, sep, k);
      SplitFirst(s, sep, k);
      SplitPieces(s[k + |sep|..], sep);
  }

  /** Python `sep.join(xs)`. */
  function Join(xs: seq<string>, sep: string): string
  {
    if xs == [] then [] else if |xs| == 1 then xs[0] else xs[0] + sep + Join(xs[1..], sep)
  }

  /** A string without `sep` splits into itself alone. */
  lemma SplitWithoutSep(s: string, sep: string)
    requires sep != [] && !Contains(s, sep)
    ensures Split(s, sep) == [s]
  {
    IndexOfFirst(s, sep);
  }

  /** Joining a piece in front of a non-empty list puts a separator after it. */
  lemma JoinCons(x: string, xs: seq<string>, sep: string)
    requires xs != []
    ensures Join([x] + xs, sep) == x + sep + Join(xs, sep)
  {
    assert ([x] + xs)[1..] == xs;
  }

  /** Joining the pieces of a split gives back the string. */
  lemma {:induction false} JoinSplit(s: string, sep: string)
    requires sep != []
    ensures Join(Split(s, sep), sep) == s
    decreases |s|
  {
    match IndexOf(s, sep)
    case None =>
    case Some(k) =>
      var rest := s[k + |sep|..];
      calc {
        Join(Split(s, sep), sep);
      == { SplitFirst(s, sep, k); }
        Join([s[..k]] + Split(rest, sep), sep);
      == { JoinCons(s[..k], Split(rest, sep), sep); }
        s[..k] + sep + Join(Split(rest, sep), sep);
      == { JoinSplit(rest, sep); }
        s[..k] + sep + rest;
      == { IndexOfOccurs(s, sep, k); assert s == s[..k] + s[k..k + |sep|] + rest; }
        s;
      }
  }

  /** A piece can be followed by `sep` and then anything without creating an
      earlier occurrence of `sep`: it holds no `sep` even when extended by all
      but the last character of `sep`. */
  predicate SafePiece(x: string, sep: string)
    requires sep != []
  {
    !Contains(x + sep[..|sep| - 1], sep)
  }

  /** After a safe piece, the first occurrence of `sep` is the one that follows it. */
  lemma FirstAfterSafePiece(x: string, sep: string, rest: string)
    requires sep != [] && SafePiece(x, sep)
    ensures IndexOf(x + sep + rest, sep) == Some(|x|)
  {
    var s := x + sep + rest;
    assert s[|x|..|x| + |sep|] == sep;
    assert OccursAt(s, sep, |x|);
    IndexOfFirst(s, sep);
    var pre := x + sep[..|sep| - 1];
    assert s[..|pre|] == pre;
    forall j | 0 <= j < |x| ensures !OccursAt(s, sep, j) {
      if OccursAt(s, sep, j) {
        assert s[..|pre|] == s[0..|pre|];
        SliceOfSlice(s, 0, |pre|, j, j + |sep|);
        assert OccursAt(pre, sep, j);
      }
    }
  }

  /** Splitting a join gives back the pieces, provided no piece contains `sep`
      and no piece but the last can run into the separator that follows it. */
  lemma {:induction false} SplitJoin(xs: seq<string>, sep: string)
    requires sep != [] && xs != []
    requires forall i :: 0 <= i < |xs| - 1 ==> SafePiece(xs[i], sep)
    requires !Contains(xs[|xs| - 1], sep)
    ensures Split(Join(xs, sep), sep) == xs
    decreases |xs|
  {
    var x := xs[0];
    if |xs| > 1 {
      var tail := xs[1..];
      assert forall i :: 0 <= i < |tail| - 1 ==> SafePiece(tail[i], sep) by {
        forall i | 0 <= i < |tail| - 1 ensures SafePiece(tail[i], sep) {
          assert tail[i] == xs[i + 1];
        }
      }
      assert tail[|tail| - 1] == xs[|xs| - 1];
      SplitJoin(tail, sep);
      SplitAfterSafePiece(x, sep, Join(tail, sep));
    } else {
      SplitWithoutSep(x, sep);
    }
  }

  /** With a one-character separator, any pieces free of it survive a join
      and a split. */
  lemma SplitJoinChar(xs: seq<string>, sep: string)
    requires |sep| == 1 && xs != []
    requires forall i :: 0 <= i < |xs| ==> !Contains(xs[i], sep)
    ensures Split(Join(xs, sep), sep) == xs
  {
    forall i | 0 <= i < |xs| - 1 ensures SafePiece(xs[i], sep) {
      assert xs[i] + sep[..0] == xs[i];
    }
    SplitJoin(xs, sep);
  }

  lemma SplitAfterSafePiece(x: string, sep: string, rest: string)
    requires sep != [] && SafePiece(x, sep)
    ensures Split(x + sep + rest, sep) == [x] + Split(rest, sep)
  {
    var s := x + sep + rest;
    FirstAfterSafePiece(x, sep, rest);
    assert s[..|x|] == x;
    assert s[|x| + |sep|..] == rest;
  }

  /** Number of non-overlapping occurrences of `sep`, scanning left to right. */
  function CountOcc(s: string, sep: string): nat
    requires sep != []
    decreases |s|
  {
    if |s| < |sep| then 0
    else if s[..|sep|] == sep then 1 + CountOcc(s[|sep|..], sep)
    else CountOcc(s[1..], sep)
  }

  /** Skipping a prefix holding no occurrence does not change the count. */
  lemma {:induction false} CountOccSkip(s: string, sep: string, k: nat)
    requires sep != [] && k <= |s|
    requires forall j :: 0 <= j < k ==> !OccursAt(s, sep, j)
    ensures CountOcc(s, sep) == CountOcc(s[k..], sep)
    decreases k
  {
    if k > 0 {
      assert !OccursAt(s, sep, 0);
      if |s| >= |sep| {
        forall j | 0 <= j < k - 1 ensures !OccursAt(s[1..], sep, j) {
          OccursShift(s, sep, j);
        }
        CountOccSkip(s[1..], sep, k - 1);
        assert s[1..][k - 1..] == s[k..];
      }
    }
  }

  /** Counting from the first occurrence: one, plus those after it. */
  lemma CountOccFirst(s: string, sep: string, k: nat)
    requires sep != [] && IndexOf(s, sep) == Some(k)
    ensures k + |sep| <= |s|
    ensures CountOcc(s, sep) == 1 + CountOcc(s[k + |sep|..], sep)
  {
    IndexOfFirst(s, sep);
    CountOccSkip(s, sep, k);
    var t := s[k..];
    assert t[..|sep|] == sep;
    assert t[|sep|..] == s[k + |sep|..];
  }

  /** Splitting at the first occurrence: the piece before it, then the
      split of what follows. */
  lemma {:induction false} SplitFirst(s: string, sep: string, k: nat)
    requires sep != [] && IndexOf(s, sep) == Some(k)
    ensures k + |sep| <= |s|
    ensures Split(s, sep) == [s[..k]] + Split(s[k + |sep|..], sep)
  {
  }

  /** A split yields one piece more than there are separators. */
  lemma {:induction false} SplitCount(s: string, sep: string)
    requires sep != []
    ensures |Split(s, sep)| == 1 + CountOcc(s, sep)
    decreases |s|
  {
    match IndexOf(s, sep)
    case None =>
      IndexOfFirst(s, sep);
      forall j | 0 <= j < |s| ensures !OccursAt(s, sep, j) { }
      CountOccSkip(s, sep, |s|);
    case Some(k) =>
      CountOccFirst(s, sep, k);
      SplitFirst(s, sep, k);
      SplitCount(s[k + |sep|..], sep);
  }

  // ---------------------------------------------------------------------
  // Sets drawn from sequences

  function Elems<T>(s: seq<T>): set<T>
  {
    set x | x in s
  }

  /** A sequence has at least as many positions as distinct elements. */
  lemma {:induction false} ElemsCard<T>(s: seq<T>)
    ensures |Elems(s)| <= |s|
  {
    if s != [] {
      ElemsCard(s[1..]);
      assert Elems(s) == Elems(s[1..]) + {s[0]};
    }
  }
}
