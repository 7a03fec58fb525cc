/**
 * The JavaScript string operations the extension relies on: `trim`,
 * `toLowerCase`, `indexOf`, `lastIndexOf` and `replace` with a string
 * pattern. `split` on one character reads the `.`- and `:`-separated
 * groups of the validators' patterns.
 */
module Text {

  /**
   * The characters `String.prototype.trim` removes and the regular-expression
   * class `\s` matches: ECMAScript's WhiteSpace and LineTerminator code points.
   */
  predicate IsSpace(c: char)
  {
    var n := c as int;
    (0x09 <= n <= 0x0D) || n == 0x20 || n == 0xA0 || n == 0x1680
    || (0x2000 <= n <= 0x200A) || n == 0x2028 || n == 0x2029
    || n == 0x202F || n == 0x205F || n == 0x3000 || n == 0xFEFF
  }

  predicate IsUpper(c: char) { 'A' <= c <= 'Z' }

  /** `toLowerCase` on one character, for the ASCII letters. */
  function LowerChar(c: char): char
  {
    if IsUpper(c) then (c as int + 32) as char else c
  }

  function Lower(s: string): (r: string)
    ensures |r| == |s|
    ensures forall i :: 0 <= i < |s| ==> r[i] == LowerChar(s[i])
  {
    if s == [] then [] else [LowerChar(s[0])] + Lower(s[1..])
  }

  /** Leading white space removed: the longest suffix of `s` that does not start with white space. */
  function TrimStart(s: string): (r: string)
    ensures |r| <= |s| && r == s[|s| - |r|..]
    ensures r == [] || !IsSpace(r[0])
    ensures forall k :: 0 <= k < |s| - |r| ==> IsSpace(s[k])
  {
    if s != [] && IsSpace(s[0]) then TrimStart(s[1..]) else s
  }

  /** Trailing white space removed: the longest prefix of `s` that does not end with white space. */
  function TrimEnd(s: string): (r: string)
    ensures |r| <= |s| && r == s[..|r|]
    ensures r == [] || !IsSpace(r[|r| - 1])
    ensures forall k :: |r| <= k < |s| ==> IsSpace(s[k])
  {
    if s != [] && IsSpace(s[|s| - 1]) then TrimEnd(s[..|s| - 1]) else s
  }

  /**
   * `trim`: the slice of `s` left once the white space at both ends is cut
   * away. Being trimmed itself, it is the only such slice.
   */
  function Trim(s: string): (r: string)
    ensures IsTrimmed(r)
    ensures exists i, j :: 0 <= i <= j <= |s| && r == s[i..j] && Surrounds(s, i, j)
  {
    var t := TrimStart(s);
    var r := TrimEnd(t);
    var i := |s| - |t|;
    assert r == s[i..i + |r|];
    assert Surrounds(s, i, i + |r|);
    assert r != [] ==> r[0] == t[0];
    r
  }

  /** Everything of `s` outside `s[i..j]` is white space. */
  predicate Surrounds(s: string, i: int, j: int)
    requires 0 <= i <= j <= |s|
  {
    (forall k :: 0 <= k < i ==> IsSpace(s[k])) && (forall k :: j <= k < |s| ==> IsSpace(s[k]))
  }

  /** Trimming is pinned down by its contract: any trimmed slice with only white space around it is the result. */
  lemma TrimUnique(s: string, i: int, j: int)
    requires 0 <= i <= j <= |s| && Surrounds(s, i, j) && IsTrimmed(s[i..j])
    ensures Trim(s) == s[i..j]
  {
    var r := Trim(s);
    var i', j' :| 0 <= i' <= j' <= |s| && r == s[i'..j'] && Surrounds(s, i', j');
    if i < j {
      TrimmedEnds(s, i, j);
      assert i' <= i < j';
      TrimmedEnds(s, i', j');
      assert i == i' && j == j';
    } else if i' < j' {
      TrimmedEnds(s, i', j');
      assert false;
    }
  }

  lemma TrimmedEnds(s: string, i: int, j: int)
    requires 0 <= i < j <= |s| && IsTrimmed(s[i..j])
    ensures !IsSpace(s[i]) && !IsSpace(s[j - 1])
  {
    assert s[i..j][0] == s[i] && s[i..j][j - i - 1] == s[j - 1];
  }

  /** A string with no white space at either end. */
  predicate IsTrimmed(s: string)
  {
    s == [] || (!IsSpace(s[0]) && !IsSpace(s[|s| - 1]))
  }

  /** A string in which `toLowerCase` changes nothing. */
  predicate IsLower(s: string)
  {
    forall i :: 0 <= i < |s| ==> !IsUpper(s[i])
  }

  lemma TrimYieldsTrimmed(s: string)
    ensures IsTrimmed(Trim(s))
  {
    var t := TrimStart(s);
    var r := TrimEnd(t);
    if r != [] {
      assert r[0] == t[0];
    }
  }

  lemma TrimTrimmed(s: string)
    requires IsTrimmed(s)
    ensures Trim(s) == s
  {
  }

  lemma LowerKeepsTrimmed(s: string)
    requires IsTrimmed(s)
    ensures IsTrimmed(Lower(s)) && IsLower(Lower(s))
  {
  }

  lemma LowerOfLower(s: string)
    requires IsLower(s)
    ensures Lower(s) == s
  {
  }

  /** `s.split(c)`: the pieces between the occurrences of `c`; there is always at least one. */
  function Split(s: string, c: char): (r: seq<string>)
    ensures |r| >= 1
    ensures forall i, k :: 0 <= i < |r| && 0 <= k < |r[i]| ==> r[i][k] != c
  {
    if s == [] then [""]
    else
      var rest := Split(s[1..], c);
      if s[0] == c then [""] + rest else [[s[0]] + rest[0]] + rest[1..]
  }

  /** Joining the pieces with `c` gives the string back. */
  function Join(parts: seq<string>, c: char): string
    requires |parts| >= 1
  {
    if |parts| == 1 then parts[0] else parts[0] + [c] + Join(parts[1..], c)
  }

  lemma {:induction false} JoinSplit(s: string, c: char)
    ensures Join(Split(s, c), c) == s
  {
    if s != [] {
      JoinSplit(s[1..], c);
      var rest := Split(s[1..], c);
      if s[0] != c {
        if |rest| == 1 {
        } else {
          assert ([[s[0]] + rest[0]] + rest[1..])[1..] == rest[1..];
        }
      } else {
        assert ([""] + rest)[1..] == rest;
      }
    }
  }

  /** Splitting pieces joined by `c` gives the pieces back, provided none of them holds `c`. */
  lemma {:induction false} SplitJoin(parts: seq<string>, c: char)
    requires |parts| >= 1
    requires forall i, k :: 0 <= i < |parts| && 0 <= k < |parts[i]| ==> parts[i][k] != c
    ensures Split(Join(parts, c), c) == parts
  {
    if |parts| == 1 {
      SplitWithout(parts[0], c);
    } else {
      SplitJoin(parts[1..], c);
      SplitPrefix(parts[0], Join(parts[1..], c), c);
      assert parts == [parts[0]] + parts[1..];
    }
  }

  /** Splitting `a + [c] + b`, where `a` has no `c`, gives `a` and then the pieces of `b`. */
  lemma {:induction false} SplitPrefix(a: string, b: string, c: char)
    requires forall k :: 0 <= k < |a| ==> a[k] != c
    ensures Split(a + [c] + b, c) == [a] + Split(b, c)
  {
    if a == [] {
      assert ([] + [c] + b)[1..] == b;
    } else {
      assert (a + [c] + b)[1..] == a[1..] + [c] + b;
      SplitPrefix(a[1..], b, c);
      assert [a[0]] + a[1..] == a;
    }
  }

  /** A string without `c` is one piece; so a string that splits into two or more pieces contains `c`. */
  lemma {:induction false} SplitWithout(s: string, c: char)
    requires forall k :: 0 <= k < |s| ==> s[k] != c
    ensures Split(s, c) == [s]
  {
    if s != [] {
      SplitWithout(s[1..], c);
      assert [s[0]] + s[1..] == s;
    }
  }

  /** Every character of `s` other than `c` lies in one of the pieces. */
  lemma {:induction false} SplitCovers(s: string, c: char, k: int)
    requires 0 <= k < |s| && s[k] != c
    ensures exists i, m :: 0 <= i < |Split(s, c)| && 0 <= m < |Split(s, c)[i]| && Split(s, c)[i][m] == s[k]
  {
    var r := Split(s, c);
    var rest := Split(s[1..], c);
    if k == 0 {
      assert r[0][0] == s[0];
    } else {
      SplitCovers(s[1..], c, k - 1);
      var i, m :| 0 <= i < |rest| && 0 <= m < |rest[i]| && rest[i][m] == s[1..][k - 1];
      if s[0] == c {
        assert r[i + 1] == rest[i];
      } else if i == 0 {
        assert r[0] == [s[0]] + rest[0];
        assert r[0][m + 1] == s[k];
      } else {
        assert r[i] == rest[i];
      }
    }
  }

  /** `p` occurs in `s` at position `i`. */
  predicate OccursAt(s: string, p: string, i: int)
  {
    0 <= i && i + |p| <= |s| && s[i..i + |p|] == p
  }

  /** `i` is where `p` first occurs in `s`. */
  predicate FirstOccurrence(s: string, p: string, i: int)
  {
    OccursAt(s, p, i) && forall j :: 0 <= j < i ==> !OccursAt(s, p, j)
  }

  /** `s.indexOf(p, from)`: the first position at or after `from` where `p` occurs, or -1. */
  function IndexOfFrom(s: string, p: string, from: nat): (r: int)
    ensures r == -1 || (from <= r && OccursAt(s, p, r))
    ensures forall j :: from <= j && (r == -1 || j < r) ==> !OccursAt(s, p, j)
    decreases |s| - from
  {
    if from + |p| > |s| then -1
    else if s[from..from + |p|] == p then from
    else IndexOfFrom(s, p, from + 1)
  }

  function IndexOf(s: string, p: string): (r: int)
    ensures r == -1 <==> forall j :: !OccursAt(s, p, j)
    ensures r != -1 ==> FirstOccurrence(s, p, r)
  {
    IndexOfFrom(s, p, 0)
  }

  /**
   * `s.replace(p, rep)` with a string pattern: only the first occurrence of `p`
   * is replaced, and `rep` is inserted literally.
   */
  function ReplaceFirst(s: string, p: string, rep: string): (r: string)
    ensures (forall j :: !OccursAt(s, p, j)) ==> r == s
    ensures forall i :: FirstOccurrence(s, p, i) ==> r == s[..i] + rep + s[i + |p|..]
  {
    var i := IndexOf(s, p);
    if i < 0 then s else s[..i] + rep + s[i + |p|..]
  }

  /** A pattern the text starts with is the one replaced: the text becomes `rep` and what followed the pattern. */
  lemma ReplaceLeading(s: string, p: string, rep: string)
    requires OccursAt(s, p, 0)
    ensures ReplaceFirst(s, p, rep) == rep + s[|p|..]
  {
    assert FirstOccurrence(s, p, 0);
    assert s[..0] + rep == rep;
  }

  /** `s.lastIndexOf(c)`: the last position holding `c`, or -1. */
  function LastIndexOf(s: string, c: char): (r: int)
    ensures -1 <= r < |s|
    ensures r >= 0 ==> s[r] == c
    ensures forall j :: r < j < |s| ==> s[j] != c
  {
    if s == [] then -1
    else if s[|s| - 1] == c then |s| - 1
    else LastIndexOf(s[..|s| - 1], c)
  }

  /** When the text before `p` holds no first character of `p`, the first occurrence is right after it. */
  lemma ReplaceAfter(a: string, p: string, rest: string, rep: string)
    requires p != [] && forall k :: 0 <= k < |a| ==> a[k] != p[0]
    ensures ReplaceFirst(a + p + rest, p, rep) == a + rep + rest
  {
    var s := a + p + rest;
    assert s[|a|..|a| + |p|] == p;
    forall j | 0 <= j < |a| ensures !OccursAt(s, p, j) {
      assert j + |p| <= |s| ==> s[j..j + |p|][0] == a[j];
    }
    assert FirstOccurrence(s, p, |a|);
    assert (a + p + rest)[..|a|] == a && (a + p + rest)[|a| + |p|..] == rest;
  }

  /** A text lacking one of the characters of `p` has no occurrence of `p`, and replacing leaves it as it is. */
  lemma ReplaceAbsent(s: string, p: string, m: int, rep: string)
    requires 0 <= m < |p| && forall k :: 0 <= k < |s| ==> s[k] != p[m]
    ensures forall j :: !OccursAt(s, p, j)
    ensures ReplaceFirst(s, p, rep) == s
  {
    forall j ensures !OccursAt(s, p, j) {
      if 0 <= j && j + |p| <= |s| {
        assert s[j..j + |p|][m] == s[j + m];
      }
    }
  }
}
