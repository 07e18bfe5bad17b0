/**
 * The JavaScript string operations the orchestrator and the agent rely on:
 * `trim`, `includes`/`indexOf`/`lastIndexOf`, `split` with a string separator,
 * `Array.prototype.join`, `replaceAll` and stripping a run of one character.
 */
module JsString {
  import opened Wrappers

  /** The characters `String.prototype.trim` removes: ECMAScript WhiteSpace and LineTerminator. */
  predicate IsWhitespace(c: char) {
    c == '\t' || c == '\n' || c == '\U{000B}' || c == '\U{000C}' || c == '\r' || c == ' '
    || c == '\U{00A0}' || c == '\U{1680}' || ('\U{2000}' <= c <= '\U{200A}')
    || c == '\U{2028}' || c == '\U{2029}' || c == '\U{202F}' || c == '\U{205F}'
    || c == '\U{3000}' || c == '\U{FEFF}'
  }

  predicate IsQuote(c: char) {
    c == '"'
  }

  /** Removes the longest prefix whose characters all satisfy `drop`. */
  function DropFront(s: string, drop: char -> bool): (r: string)
    ensures |r| <= |s| && r == s[|s| - |r|..]
    ensures forall i :: 0 <= i < |s| - |r| ==> drop(s[i])
    ensures r == [] || !drop(r[0])
    decreases |s|
  {
    if s != [] && drop(s[0]) then DropFront(s[1..], drop) else s
  }

  /** Removes the longest suffix whose characters all satisfy `drop`. */
  function DropBack(s: string, drop: char -> bool): (r: string)
    ensures |r| <= |s| && r == s[..|r|]
    ensures forall i :: |r| <= i < |s| ==> drop(s[i])
    ensures r == [] || !drop(r[|r| - 1])
    decreases |s|
  {
    if s != [] && drop(s[|s| - 1]) then DropBack(s[..|s| - 1], drop) else s
  }

  /** The number of leading characters `Trim` removes. */
  function TrimmedLead(s: string): nat {
    |s| - |DropFront(s, IsWhitespace)|
  }

  /** `String.prototype.trim`. */
  function Trim(s: string): (r: string)
    ensures TrimmedLead(s) + |r| <= |s| && r == s[TrimmedLead(s)..TrimmedLead(s) + |r|]
    ensures forall i :: 0 <= i < TrimmedLead(s) ==> IsWhitespace(s[i])
    ensures forall i :: TrimmedLead(s) + |r| <= i < |s| ==> IsWhitespace(s[i])
    ensures r == [] || (!IsWhitespace(r[0]) && !IsWhitespace(r[|r| - 1]))
  {
    var front := DropFront(s, IsWhitespace);
    var r := DropBack(front, IsWhitespace);
    var lead := TrimmedLead(s);
    assert front == s[lead..];
    forall i | 0 <= i < lead ensures IsWhitespace(s[i]) {
      assert (IsWhitespace)(s[i]);
    }
    forall i | lead + |r| <= i < |s| ensures IsWhitespace(s[i]) {
      assert s[i] == front[i - lead] && (IsWhitespace)(front[i - lead]);
    }
    r
  }

  /** The number of leading characters `StripQuotes` removes. */
  function QuoteLead(s: string): nat {
    |s| - |DropFront(s, IsQuote)|
  }

  /**
   * `s.replace(/^"+|"+$/g, "")`: the leading and the trailing run of double quotes
   * removed, and what lies between them kept as it is.
   */
  function StripQuotes(s: string): (r: string)
    ensures QuoteLead(s) + |r| <= |s| && r == s[QuoteLead(s)..QuoteLead(s) + |r|]
    ensures forall i :: 0 <= i < QuoteLead(s) ==> s[i] == '"'
    ensures forall i :: QuoteLead(s) + |r| <= i < |s| ==> s[i] == '"'
    ensures r == [] || (r[0] != '"' && r[|r| - 1] != '"')
  {
    var front := DropFront(s, IsQuote);
    var r := DropBack(front, IsQuote);
    var lead := QuoteLead(s);
    assert front == s[lead..];
    forall i | 0 <= i < lead ensures s[i] == '"' {
      assert (IsQuote)(s[i]);
    }
    forall i | lead + |r| <= i < |s| ensures s[i] == '"' {
      assert s[i] == front[i - lead] && (IsQuote)(front[i - lead]);
    }
    r
  }

  lemma TrimKeeps(s: string)
    requires s == [] || (!IsWhitespace(s[0]) && !IsWhitespace(s[|s| - 1]))
    ensures Trim(s) == s
  {
  }

  /** A string with no whitespace at either end is what `trim` makes of it with blanks put around it. */
  lemma {:induction false} TrimSkipsBlanks(w: string, s: string)
    requires forall i :: 0 <= i < |w| ==> IsWhitespace(w[i])
    requires s != [] && !IsWhitespace(s[0]) && !IsWhitespace(s[|s| - 1])
    ensures Trim(w + s) == s
  {
    if w == [] {
      assert w + s == s;
      TrimKeeps(s);
    } else {
      assert (w + s)[1..] == w[1..] + s;
      TrimSkipsBlanks(w[1..], s);
      assert DropFront(w + s, IsWhitespace) == DropFront(w[1..] + s, IsWhitespace);
    }
  }

  // ----- occurrences of a pattern -----

  /** `pat` occurs in `s` starting at index `i`. */
  predicate OccursAt(s: string, pat: string, i: int) {
    0 <= i && i + |pat| <= |s| && s[i..i + |pat|] == pat
  }

  /** `s.indexOf(pat, k)`, with `None` for -1: the first occurrence at or after `k`. */
  function IndexFrom(s: string, pat: string, k: nat): (r: Option<nat>)
    ensures r.Some? ==> k <= r.value && OccursAt(s, pat, r.value)
    ensures r.Some? ==> forall j :: k <= j < r.value ==> !OccursAt(s, pat, j)
    ensures r.None? ==> forall j :: k <= j ==> !OccursAt(s, pat, j)
    decreases |s| - k
  {
    if |s| < k + |pat| then None
    else if OccursAt(s, pat, k) then Some(k)
    else IndexFrom(s, pat, k + 1)
  }

  /** `s.indexOf(pat)`, with `None` for -1: the first occurrence. */
  function IndexOf(s: string, pat: string): (r: Option<nat>)
    ensures r.Some? ==> OccursAt(s, pat, r.value) && forall j :: 0 <= j < r.value ==> !OccursAt(s, pat, j)
    ensures r.None? ==> forall j :: !OccursAt(s, pat, j)
  {
    IndexFrom(s, pat, 0)
  }

  /** The last occurrence starting at or before `k`. */
  function LastIndexFrom(s: string, pat: string, k: int): (r: Option<nat>)
    ensures r.Some? ==> r.value <= k && OccursAt(s, pat, r.value)
    ensures r.Some? ==> forall j :: r.value < j <= k ==> !OccursAt(s, pat, j)
    ensures r.None? ==> forall j :: j <= k ==> !OccursAt(s, pat, j)
    decreases k + 1
  {
    if k < 0 then None
    else if OccursAt(s, pat, k) then Some(k)
    else LastIndexFrom(s, pat, k - 1)
  }

  /** `s.lastIndexOf(pat)`, with `None` for -1: the last occurrence. */
  function LastIndexOf(s: string, pat: string): (r: Option<nat>)
    ensures r.Some? ==> OccursAt(s, pat, r.value) && forall j :: r.value < j ==> !OccursAt(s, pat, j)
    ensures r.None? ==> forall j :: !OccursAt(s, pat, j)
  {
    LastIndexFrom(s, pat, |s| - |pat|)
  }

  /** `s.includes(pat)`. */
  predicate Contains(s: string, pat: string) {
    IndexOf(s, pat).Some?
  }

  /** No two occurrences of `pat` overlap, because its first character does not recur in it. */
  predicate HeadUnique(pat: string) {
    pat != [] && pat[0] !in pat[1..]
  }

  /** Two overlapping occurrences of a head-unique pattern are the same occurrence. */
  lemma Disjoint(s: string, pat: string, i: int, j: int)
    requires HeadUnique(pat) && OccursAt(s, pat, i) && OccursAt(s, pat, j) && i <= j < i + |pat|
    ensures i == j
  {
  }

  /** An occurrence inside the slice `s[a..b]` is an occurrence in `s` that ends by `b`. */
  lemma SliceOccurs(s: string, pat: string, a: nat, b: nat, j: int)
    requires a <= b <= |s| && OccursAt(s[a..b], pat, j)
    ensures OccursAt(s, pat, a + j) && a + j + |pat| <= b
  {
    var inner := s[a..b][j..j + |pat|];
    var outer := s[a + j..a + j + |pat|];
    forall x | 0 <= x < |pat| ensures inner[x] == outer[x] {
    }
    assert inner == outer;
  }

  /** With a one-character pattern an occurrence is just that character. */
  lemma OccursChar(s: string, c: char, j: int)
    ensures OccursAt(s, [c], j) <==> 0 <= j < |s| && s[j] == c
  {
    if 0 <= j < |s| {
      assert s[j..j + 1] == [s[j]];
    }
  }

  /** The first occurrence of `c` at or after `k`, read character by character. */
  lemma CharIndexFrom(s: string, c: char, k: nat)
    requires k <= |s|
    ensures IndexFrom(s, [c], k).Some? ==>
      var i := IndexFrom(s, [c], k).value; i < |s| && s[i] == c && c !in s[k..i]
    ensures IndexFrom(s, [c], k).None? ==> c !in s[k..]
  {
    var r := IndexFrom(s, [c], k);
    if r.Some? {
      OccursChar(s, c, r.value);
      forall j | k <= j < r.value ensures s[j] != c {
        OccursChar(s, c, j);
      }
      assert forall x :: 0 <= x < r.value - k ==> s[k..r.value][x] == s[k + x];
    } else {
      forall j | k <= j < |s| ensures s[j] != c {
        OccursChar(s, c, j);
      }
      assert forall x :: 0 <= x < |s| - k ==> s[k..][x] == s[k + x];
    }
  }

  /** A character found at `i`, with none of it between `k` and `i`, is the first one at or after `k`. */
  lemma CharFoundAt(s: string, c: char, k: nat, i: nat)
    requires k <= i < |s| && s[i] == c && c !in s[k..i]
    ensures IndexFrom(s, [c], k) == Some(i)
  {
    OccursChar(s, c, i);
    forall j | k <= j < i ensures !OccursAt(s, [c], j) {
      OccursChar(s, c, j);
      assert s[j] == s[k..i][j - k];
    }
  }

  /** A character absent from `s[k..]` is not found at or after `k`. */
  lemma CharAbsentFrom(s: string, c: char, k: nat)
    requires k <= |s| && c !in s[k..]
    ensures IndexFrom(s, [c], k) == None
  {
    forall j | k <= j ensures !OccursAt(s, [c], j) {
      OccursChar(s, c, j);
      if j < |s| {
        assert s[j] == s[k..][j - k];
      }
    }
  }

  // ----- split and join -----

  /** The pieces of `s[k..]` between the occurrences of `sep` found left to right. */
  function SplitFrom(s: string, sep: string, k: nat): (parts: seq<string>)
    requires sep != [] && k <= |s|
    ensures |parts| >= 1
    decreases |s| - k
  {
    match IndexFrom(s, sep, k)
    case None => [s[k..]]
    case Some(i) => [s[k..i]] + SplitFrom(s, sep, i + |sep|)
  }

  /** `s.split(sep)` for a non-empty separator. */
  function Split(s: string, sep: string): (parts: seq<string>)
    requires sep != []
    ensures |parts| >= 1
  {
    SplitFrom(s, sep, 0)
  }

  /**
   * One step of the scan: `n` is just past the first occurrence at or after `k`; the split
   * is the piece before that occurrence, then the pieces after it.
   */
  lemma SplitFromStep(s: string, sep: string, k: nat) returns (n: nat)
    requires sep != [] && k <= |s| && IndexFrom(s, sep, k).Some?
    ensures n == IndexFrom(s, sep, k).value + |sep| && k + |sep| <= n <= |s|
    ensures SplitFrom(s, sep, k) == [s[k..n - |sep|]] + SplitFrom(s, sep, n)
  {
    n := IndexFrom(s, sep, k).value + |sep|;
  }

  /** `s[k..]` cut at `i` and `j`. */
  lemma Cut3<T>(s: seq<T>, k: nat, i: nat, j: nat)
    requires k <= i <= j <= |s|
    ensures s[k..] == s[k..i] + s[i..j] + s[j..]
  {
  }

  /** Reading `a`, `c` and `b` back out of `s[k..] == a + [c] + b`. */
  lemma Uncut<T>(s: seq<T>, k: nat, a: seq<T>, c: T, b: seq<T>)
    requires k <= |s| && s[k..] == a + [c] + b
    ensures k + |a| < |s| && s[k..k + |a|] == a && s[k + |a|] == c && s[k + |a| + 1..] == b
  {
    assert s[k..][..|a|] == a;
    assert s[k..][|a|] == c;
    assert s[k..][|a| + 1..] == b;
  }

  /** `parts.join(sep)`. */
  function Join(parts: seq<string>, sep: string): string
    decreases |parts|
  {
    if |parts| == 0 then ""
    else if |parts| == 1 then parts[0]
    else parts[0] + sep + Join(parts[1..], sep)
  }

  lemma JoinCons(p: string, rest: seq<string>, sep: string)
    requires rest != []
    ensures Join([p] + rest, sep) == p + sep + Join(rest, sep)
  {
    assert ([p] + rest)[1..] == rest;
  }

  /** Three pieces joined: each separator sits between two neighbours. */
  lemma JoinThree(a: string, b: string, c: string, sep: string)
    ensures Join([a, b, c], sep) == a + sep + b + sep + c
  {
    JoinCons(a, [b, c], sep);
    JoinCons(b, [c], sep);
  }

  /** Joining the pieces of `s[k..]` with the separator they were split on gives `s[k..]` back. */
  lemma {:induction false} JoinSplitFrom(s: string, sep: string, k: nat)
    requires sep != [] && k <= |s|
    ensures Join(SplitFrom(s, sep, k), sep) == s[k..]
    decreases |s| - k
  {
    if IndexFrom(s, sep, k).Some? {
      var n := SplitFromStep(s, sep, k);
      var i := n - |sep|;
      assert s[i..n] == sep;
      JoinSplitFrom(s, sep, n);
      JoinCons(s[k..i], SplitFrom(s, sep, n), sep);
      Cut3(s, k, i, n);
    } else {
      assert SplitFrom(s, sep, k) == [s[k..]];
    }
  }

  /** Joining the pieces of a split with the same separator gives the string back. */
  lemma JoinSplit(s: string, sep: string)
    requires sep != []
    ensures Join(Split(s, sep), sep) == s
  {
    JoinSplitFrom(s, sep, 0);
  }

  /** Where the last piece of `s[k..]` split on `sep` starts (`LastPieceFollows` says where that is). */
  function LastPieceStart(s: string, sep: string, k: nat): (m: nat)
    requires sep != [] && k <= |s|
    ensures k <= m <= |s|
    decreases |s| - k
  {
    match IndexFrom(s, sep, k)
    case None => k
    case Some(i) => LastPieceStart(s, sep, i + |sep|)
  }

  /**
   * The last piece starts right after an occurrence of the separator when there is one
   * at or after `k`, and holds no occurrence.
   */
  lemma {:induction false} LastPieceFollows(s: string, sep: string, k: nat)
    requires sep != [] && k <= |s|
    ensures var m := LastPieceStart(s, sep, k);
      && (IndexFrom(s, sep, k).None? ==> m == k)
      && (IndexFrom(s, sep, k).Some? ==> k + |sep| <= m && OccursAt(s, sep, m - |sep|))
      && forall j :: m <= j ==> !OccursAt(s, sep, j)
    decreases |s| - k
  {
    if IndexFrom(s, sep, k).Some? {
      var i := IndexFrom(s, sep, k).value;
      LastPieceFollows(s, sep, i + |sep|);
    }
  }

  lemma LastOfCons<T>(parts: seq<T>, x: T, tail: seq<T>, y: T)
    requires parts == [x] + tail && tail != [] && tail[|tail| - 1] == y
    ensures parts[|parts| - 1] == y
  {
  }

  /** The text after the last occurrence of `sep` at or after `k`. */
  function LastPiece(s: string, sep: string, k: nat): (p: string)
    requires sep != [] && k <= |s|
    decreases |s| - k
  {
    match IndexFrom(s, sep, k)
    case None => s[k..]
    case Some(i) => LastPiece(s, sep, i + |sep|)
  }

  lemma LastPieceStep(s: string, sep: string, k: nat)
    requires sep != [] && k <= |s| && IndexFrom(s, sep, k).Some?
    ensures LastPiece(s, sep, k) == LastPiece(s, sep, IndexFrom(s, sep, k).value + |sep|)
  {
  }

  /** The last piece is the suffix from `LastPieceStart` on. */
  lemma {:induction false} LastPieceSuffix(s: string, sep: string, k: nat)
    requires sep != [] && k <= |s|
    ensures LastPiece(s, sep, k) == s[LastPieceStart(s, sep, k)..]
    decreases |s| - k
  {
    if IndexFrom(s, sep, k).Some? {
      var i := IndexFrom(s, sep, k).value;
      LastPieceSuffix(s, sep, i + |sep|);
    }
  }

  /** The piece `split(sep).pop()` returns is the last piece. */
  lemma {:induction false} SplitLast(s: string, sep: string, k: nat)
    requires sep != [] && k <= |s|
    ensures SplitFrom(s, sep, k)[|SplitFrom(s, sep, k)| - 1] == LastPiece(s, sep, k)
    decreases |s| - k
  {
    if IndexFrom(s, sep, k).Some? {
      var n := SplitFromStep(s, sep, k);
      LastPieceStep(s, sep, k);
      SplitLast(s, sep, n);
      var tail := SplitFrom(s, sep, n);
      LastOfCons(SplitFrom(s, sep, k), s[k..n - |sep|], tail, LastPiece(s, sep, n));
    }
  }

  /** For a head-unique separator, the last piece of a split starts right after its last occurrence. */
  lemma LastPieceAfterLastIndex(s: string, sep: string)
    requires HeadUnique(sep) && Contains(s, sep)
    ensures LastIndexOf(s, sep) == Some(LastPieceStart(s, sep, 0) - |sep|)
  {
    var m := LastPieceStart(s, sep, 0);
    LastPieceFollows(s, sep, 0);
    var last := LastIndexOf(s, sep).value;
    Disjoint(s, sep, m - |sep|, last);
  }

  /**
   * For a head-unique separator found in `s`, `s.split(sep).pop()` is the text after
   * the last occurrence, and that text holds no further occurrence.
   */
  lemma SplitLastAfterLastIndex(s: string, sep: string)
    requires HeadUnique(sep) && Contains(s, sep)
    ensures LastIndexOf(s, sep).Some? && LastIndexOf(s, sep).value + |sep| <= |s|
    ensures var parts := Split(s, sep);
      parts[|parts| - 1] == s[LastIndexOf(s, sep).value + |sep|..]
    ensures forall j :: LastIndexOf(s, sep).value + |sep| <= j ==> !OccursAt(s, sep, j)
  {
    LastPieceAfterLastIndex(s, sep);
    LastPieceFollows(s, sep, 0);
    SplitLast(s, sep, 0);
    LastPieceSuffix(s, sep, 0);
  }

  /** `s.slice(s.lastIndexOf(sep) + sep.length)`: what follows the last occurrence of `sep`. */
  function AfterLast(s: string, sep: string): (rest: string)
    requires Contains(s, sep)
    ensures |rest| + |sep| <= |s| && OccursAt(s, sep, |s| - |rest| - |sep|) && s[|s| - |rest|..] == rest
  {
    assert OccursAt(s, sep, IndexOf(s, sep).value);
    s[LastIndexOf(s, sep).value + |sep|..]
  }

  /** The trimmed last piece of a split is the trimmed rest after the last occurrence, and holds none. */
  lemma TrimmedLastPiece(s: string, sep: string)
    requires HeadUnique(sep) && Contains(s, sep)
    ensures var parts := Split(s, sep); Trim(parts[|parts| - 1]) == Trim(AfterLast(s, sep))
    ensures !Contains(Trim(AfterLast(s, sep)), sep)
  {
    SplitLastAfterLastIndex(s, sep);
    var m := LastIndexOf(s, sep).value + |sep|;
    assert AfterLast(s, sep) == s[m..];
    NoneInTrimmedTail(s, sep, m);
  }

  /** Trimming what follows the last occurrence leaves no occurrence. */
  lemma NoneInTrimmedTail(s: string, pat: string, m: nat)
    requires m <= |s| && forall j :: m <= j ==> !OccursAt(s, pat, j)
    ensures !Contains(Trim(s[m..]), pat)
  {
    var t := s[m..];
    NoneInSliceOfTail(s, pat, m, TrimmedLead(t), Trim(t));
  }

  /** A slice of the suffix `s[m..]` holds no occurrence when that suffix starts none. */
  lemma NoneInSliceOfTail(s: string, pat: string, m: nat, i: nat, r: string)
    requires m <= |s| && i + |r| <= |s| - m && r == s[m..][i..i + |r|]
    requires forall j :: m <= j ==> !OccursAt(s, pat, j)
    ensures !Contains(r, pat)
  {
    forall x | 0 <= x < |r| ensures r[x] == s[m + i + x] {
    }
    assert r == s[m + i..m + i + |r|];
    NoneInTail(s, pat, m, m + i, r);
  }

  /** A slice that starts after the last occurrence holds none. */
  lemma NoneInTail(s: string, pat: string, m: nat, a: nat, piece: string)
    requires m <= a && a + |piece| <= |s| && piece == s[a..a + |piece|]
    requires forall j :: m <= j ==> !OccursAt(s, pat, j)
    ensures !Contains(piece, pat)
  {
    if Contains(piece, pat) {
      var p := IndexOf(piece, pat).value;
      SliceOccurs(s, pat, a, a + |piece|, p);
      assert false;
    }
  }

  /** Splitting `s[k..]`, which joins parts with a character none of them holds, gives the parts back. */
  lemma {:induction false} SplitJoinFrom(s: string, k: nat, parts: seq<string>, c: char)
    requires k <= |s| && |parts| >= 1 && s[k..] == Join(parts, [c])
    requires forall n :: 0 <= n < |parts| ==> c !in parts[n]
    ensures SplitFrom(s, [c], k) == parts
    decreases |parts|
  {
    if |parts| == 1 {
      CharAbsentFrom(s, c, k);
    } else {
      var i := k + |parts[0]|;
      JoinCons(parts[0], parts[1..], [c]);
      assert [parts[0]] + parts[1..] == parts;
      Uncut(s, k, parts[0], c, Join(parts[1..], [c]));
      CharFoundAt(s, c, k, i);
      var n := SplitFromStep(s, [c], k);
      SplitJoinFrom(s, n, parts[1..], c);
    }
  }

  /** Splitting what was joined with a character that no part contains gives the parts back. */
  lemma SplitJoin(parts: seq<string>, c: char)
    requires |parts| >= 1
    requires forall n :: 0 <= n < |parts| ==> c !in parts[n]
    ensures Split(Join(parts, [c]), [c]) == parts
  {
    var s := Join(parts, [c]);
    assert s[0..] == s;
    SplitJoinFrom(s, 0, parts, c);
  }

  /** The last part of a join is its suffix. */
  lemma {:induction false} JoinEnds(parts: seq<string>, sep: string)
    requires |parts| >= 1
    ensures var j := Join(parts, sep); var last := parts[|parts| - 1];
      |parts[0]| <= |j| && j[..|parts[0]|] == parts[0] && |last| <= |j| && j[|j| - |last|..] == last
    decreases |parts|
  {
    if |parts| > 1 {
      JoinEnds(parts[1..], sep);
    }
  }

  /** Joining one more part appends the separator and that part. */
  lemma {:induction false} JoinAppend(parts: seq<string>, p: string, sep: string)
    ensures Join(parts + [p], sep) == if parts == [] then p else Join(parts, sep) + sep + p
    decreases |parts|
  {
    if |parts| > 1 {
      assert (parts + [p])[1..] == parts[1..] + [p];
      JoinAppend(parts[1..], p, sep);
    } else if |parts| == 1 {
      assert (parts + [p])[1..] == [p];
    }
  }

  // ----- character-wise rewriting -----

  /** `s.replaceAll(c, d)` for one-character strings. */
  function Replace(s: string, c: char, d: char): (r: string)
    ensures |r| == |s|
    ensures forall i :: 0 <= i < |s| ==> r[i] == if s[i] == c then d else s[i]
  {
    seq(|s|, i requires 0 <= i < |s| => if s[i] == c then d else s[i])
  }

  /** `s.replaceAll(c, "")`. */
  function Erase(s: string, c: char): (r: string)
    ensures forall x :: x in r <==> x in s && x != c
    ensures c !in s ==> r == s
    decreases |s|
  {
    if s == [] then []
    else if s[0] == c then Erase(s[1..], c)
    else [s[0]] + Erase(s[1..], c)
  }

  /** Erasing works piece by piece: what is kept of each part stays in its order. */
  lemma {:induction false} EraseAppend(a: string, b: string, c: char)
    ensures Erase(a + b, c) == Erase(a, c) + Erase(b, c)
    decreases |a|
  {
    if a == [] {
      assert a + b == b;
    } else {
      assert (a + b)[1..] == a[1..] + b;
      EraseAppend(a[1..], b, c);
    }
  }

  /** The number of occurrences of `c` in `s`. */
  function Count(s: string, c: char): nat
    decreases |s|
  {
    if s == [] then 0 else (if s[0] == c then 1 else 0) + Count(s[1..], c)
  }

  lemma {:induction false} CountAppend(a: string, b: string, c: char)
    ensures Count(a + b, c) == Count(a, c) + Count(b, c)
    decreases |a|
  {
    if a == [] {
      assert a + b == b;
    } else {
      assert (a + b)[1..] == a[1..] + b;
      CountAppend(a[1..], b, c);
    }
  }

  lemma {:induction false} CountAbsent(s: string, c: char)
    requires c !in s
    ensures Count(s, c) == 0
    decreases |s|
  {
    if s != [] {
      CountAbsent(s[1..], c);
    }
  }

  /** Splitting `s[k..]` on a character yields one piece more than there are occurrences of it. */
  lemma {:induction false} SplitCharCount(s: string, c: char, k: nat)
    requires k <= |s|
    ensures |SplitFrom(s, [c], k)| == Count(s[k..], c) + 1
    decreases |s| - k
  {
    CharIndexFrom(s, c, k);
    if IndexFrom(s, [c], k).None? {
      CountAbsent(s[k..], c);
    } else {
      var n := SplitFromStep(s, [c], k);
      var i := n - 1;
      SplitCharCount(s, c, n);
      Cut3(s, k, i, n);
      CountAppend(s[k..i] + [c], s[n..], c);
      CountAppend(s[k..i], [c], c);
      CountAbsent(s[k..i], c);
    }
  }

  /** The first piece of a split on a character is the text before its first occurrence. */
  lemma SplitCharHead(s: string, c: char)
    ensures var parts := Split(s, [c]); var head := parts[0];
      |head| <= |s| && s[..|head|] == head && c !in head &&
      (|head| < |s| ==> s[|head|] == c && parts[1..] == SplitFrom(s, [c], |head| + 1)) &&
      (|head| == |s| ==> |parts| == 1)
  {
    CharIndexFrom(s, c, 0);
    if IndexFrom(s, [c], 0).Some? {
      var i := IndexFrom(s, [c], 0).value;
      assert Split(s, [c]) == [s[0..i]] + SplitFrom(s, [c], i + 1);
      assert s[0..i] == s[..i];
    } else {
      assert s[0..] == s;
    }
  }

  lemma ReplaceAppend(a: string, b: string, c: char, d: char)
    ensures Replace(a + b, c, d) == Replace(a, c, d) + Replace(b, c, d)
  {
  }

  lemma ReplaceAbsent(s: string, c: char, d: char)
    requires c !in s
    ensures Replace(s, c, d) == s
  {
  }

  /** Replacing in `s[k..]` around the first `c` at or after `k`, found at `i`. */
  lemma ReplaceCut(s: string, k: nat, i: nat, c: char, d: char)
    requires k <= i < |s| && s[i] == c && c !in s[k..i]
    ensures Replace(s[k..], c, d) == s[k..i] + [d] + Replace(s[i + 1..], c, d)
  {
    var before, after := s[k..i], s[i + 1..];
    assert s[k..] == before + [c] + after by {
      Cut3(s, k, i, i + 1);
      assert s[i..i + 1] == [c];
    }
    ReplaceAround(before, after, c, d);
  }

  /** Replacing in `a + [c] + b` when `a` has no `c`. */
  lemma ReplaceAround(a: string, b: string, c: char, d: char)
    requires c !in a
    ensures Replace(a + [c] + b, c, d) == a + [d] + Replace(b, c, d)
  {
    ReplaceAppend(a + [c], b, c, d);
    ReplaceAppend(a, [c], c, d);
    ReplaceAbsent(a, c, d);
  }

  /** Joining the pieces of `s[k..]` split on `c` with `d` replaces every `c` by `d`. */
  lemma {:induction false} SplitCharJoin(s: string, c: char, d: char, k: nat)
    requires k <= |s|
    ensures Join(SplitFrom(s, [c], k), [d]) == Replace(s[k..], c, d)
    decreases |s| - k
  {
    CharIndexFrom(s, c, k);
    if IndexFrom(s, [c], k).None? {
      ReplaceAbsent(s[k..], c, d);
    } else {
      var n := SplitFromStep(s, [c], k);
      var i := n - 1;
      JoinCons(s[k..i], SplitFrom(s, [c], n), [d]);
      SplitCharJoin(s, c, d, n);
      ReplaceCut(s, k, i, c, d);
    }
  }
}
