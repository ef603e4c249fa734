/** The JavaScript string and array primitives the core uses: `split`, `trim`,
    `toUpperCase`, `indexOf`, `filter`. */
module Text {

  /** The characters `String.prototype.trim` strips: white space and line terminators. */
  predicate IsSpace(c: char) {
    var n := c as int;
    n == 0x09 || n == 0x0A || n == 0x0B || n == 0x0C || n == 0x0D || n == 0x20 ||
    n == 0xA0 || n == 0x1680 || (0x2000 <= n <= 0x200A) || n == 0x2028 || n == 0x2029 ||
    n == 0x202F || n == 0x205F || n == 0x3000 || n == 0xFEFF
  }

  function TrimStart(s: string): (r: string)
    ensures |r| <= |s| && r == s[|s| - |r|..]
    ensures forall k :: 0 <= k < |s| - |r| ==> IsSpace(s[k])
    ensures r == [] || !IsSpace(r[0])
  {
    if |s| > 0 && IsSpace(s[0]) then TrimStart(s[1..]) else s
  }

  function TrimEnd(s: string): (r: string)
    ensures |r| <= |s| && r == s[..|r|]
    ensures forall k :: |r| <= k < |s| ==> IsSpace(s[k])
    ensures r == [] || !IsSpace(r[|r| - 1])
  {
    if |s| > 0 && IsSpace(s[|s| - 1]) then TrimEnd(s[..|s| - 1]) else s
  }

  /** `s.trim()`: white space cut off either end. */
  function Trim(s: string): (r: string)
    ensures |r| <= |s|
    ensures r == [] || (!IsSpace(r[0]) && !IsSpace(r[|r| - 1]))
  {
    TrimEnd(TrimStart(s))
  }

  /** What trimming keeps is a contiguous slice, and only white space is cut. */
  lemma TrimIsSlice(s: string)
    ensures exists i, j ::
      && 0 <= i <= j <= |s| && Trim(s) == s[i..j]
      && (forall k :: 0 <= k < i ==> IsSpace(s[k]))
      && (forall k :: j <= k < |s| ==> IsSpace(s[k]))
  {
    var t := TrimStart(s);
    var r := TrimEnd(t);
    var i := |s| - |t|;
    assert r == s[i..i + |r|];
  }

  lemma {:induction false} TrimOfSpaceFree(s: string)
    requires forall k :: 0 <= k < |s| ==> !IsSpace(s[k])
    ensures Trim(s) == s
  {
    if |s| > 0 {
      assert !IsSpace(s[0]) && !IsSpace(s[|s| - 1]);
    }
  }

  function UpperChar(c: char): (r: char)
    ensures 'a' <= c <= 'z' ==> r as int == c as int - 32
    ensures !('a' <= c <= 'z') ==> r == c
  {
    if 'a' <= c <= 'z' then (c as int - 32) as char else c
  }

  /** `s.toUpperCase()`, for the ASCII letters. */
  function ToUpper(s: string): (r: string)
    ensures |r| == |s|
    ensures forall k :: 0 <= k < |s| ==> r[k] == UpperChar(s[k])
  {
    if s == [] then [] else [UpperChar(s[0])] + ToUpper(s[1..])
  }

  lemma {:induction false} ToUpperIdempotent(s: string)
    ensures ToUpper(ToUpper(s)) == ToUpper(s)
  {
    var u := ToUpper(s);
    assert forall k :: 0 <= k < |s| ==> UpperChar(u[k]) == u[k];
  }

  lemma {:induction false} ToUpperSpaces(s: string)
    ensures forall k :: 0 <= k < |s| ==> (IsSpace(ToUpper(s)[k]) <==> IsSpace(s[k]))
  {
  }

  /** `s.split(c)`: the pieces between occurrences of `c`; never empty. */
  function Split(s: string, c: char): (r: seq<string>)
    ensures |r| >= 1
    ensures forall k :: 0 <= k < |r| ==> c !in r[k]
    decreases |s|
  {
    if s == [] then [""]
    else if s[0] == c then [""] + Split(s[1..], c)
    else
      var rest := Split(s[1..], c);
      [[s[0]] + rest[0]] + rest[1..]
  }

  /** `parts.join(c)`. */
  function Join(parts: seq<string>, c: char): string
    requires |parts| >= 1
    decreases |parts|
  {
    if |parts| == 1 then parts[0] else parts[0] + [c] + Join(parts[1..], c)
  }

  /** Splitting loses nothing: joining the pieces gives back the string. */
  lemma {:induction false} JoinSplit(s: string, c: char)
    ensures Join(Split(s, c), c) == s
    decreases |s|
  {
    if s == [] {
    } else if s[0] == c {
      JoinSplit(s[1..], c);
      assert Split(s, c)[1..] == Split(s[1..], c);
    } else {
      var rest := Split(s[1..], c);
      JoinSplit(s[1..], c);
      var r := Split(s, c);
      assert r[1..] == rest[1..];
      if |rest| > 1 {
        assert Join(rest, c) == rest[0] + [c] + Join(rest[1..], c);
      }
    }
  }

  /** The number of separators in `s` plus one. */
  lemma {:induction false} SplitCount(s: string, c: char)
    ensures |Split(s, c)| == multiset(s)[c] + 1
    decreases |s|
  {
    if s != [] {
      SplitCount(s[1..], c);
      assert s == [s[0]] + s[1..];
    }
  }

  /** `a.indexOf(x)`: the first index holding `x`, or -1. */
  function IndexOf<T(==)>(a: seq<T>, x: T): (r: int)
    ensures -1 <= r < |a|
    ensures r == -1 <==> x !in a
    ensures r >= 0 ==> a[r] == x && x !in a[..r]
  {
    if a == [] then -1
    else if a[0] == x then 0
    else
      var i := IndexOf(a[1..], x);
      assert a[1..][..if i < 0 then 0 else i] == a[1..1 + if i < 0 then 0 else i];
      if i == -1 then -1 else i + 1
  }

  /** The first position holding `x` is the one `indexOf` finds. */
  lemma IndexOfAt<T>(a: seq<T>, x: T, i: nat)
    requires i < |a| && a[i] == x && x !in a[..i]
    ensures IndexOf(a, x) == i
  {
  }

  /** `a.filter((t) => t !== x)`. */
  function RemoveAll<T(==,!new)>(a: seq<T>, x: T): (r: seq<T>)
    ensures x !in r
    ensures forall y :: y != x ==> multiset(r)[y] == multiset(a)[y]
    ensures |r| == |a| - multiset(a)[x]
    ensures forall k :: 0 <= k < |r| ==> r[k] in a
    ensures forall k :: 0 <= k < |a| && a[k] != x ==> a[k] in r
  {
    if a == [] then []
    else
      assert a == [a[0]] + a[1..];
      if a[0] == x then RemoveAll(a[1..], x) else [a[0]] + RemoveAll(a[1..], x)
  }

  /** Normalising a comma-free piece keeps it comma-free. */
  lemma TrimUpperKeepsCommaOut(p: string)
    requires ',' !in p
    ensures ',' !in ToUpper(Trim(p))
  {
    var a := TrimStart(p);
    var t := TrimEnd(a);
    forall k | 0 <= k < |a| ensures a[k] != ',' {
      assert a[k] == p[|p| - |a| + k];
    }
    forall k | 0 <= k < |t| ensures ToUpper(t)[k] != ',' {
      assert t[k] == a[k];
    }
  }

  /** `y` occurs in `b` in the same order as in `a`: `a` is obtained by deleting elements of `b`. */
  predicate IsSubsequence<T(==)>(a: seq<T>, b: seq<T>)
    decreases |b|
  {
    if a == [] then true
    else if b == [] then false
    else if a[0] == b[0] then IsSubsequence(a[1..], b[1..])
    else IsSubsequence(a, b[1..])
  }

  lemma {:induction false} RemoveAllKeepsOrder<T(!new)>(a: seq<T>, x: T)
    ensures IsSubsequence(RemoveAll(a, x), a)
  {
    if a != [] {
      RemoveAllKeepsOrder(a[1..], x);
      var r := RemoveAll(a[1..], x);
      if a[0] != x {
        assert RemoveAll(a, x)[1..] == r;
      } else {
        SubsequenceOfTail(r, a);
      }
    }
  }

  /** A subsequence of the tail is a subsequence of the whole. */
  lemma {:induction false} SubsequenceOfTail<T>(a: seq<T>, b: seq<T>)
    requires b != [] && IsSubsequence(a, b[1..])
    ensures IsSubsequence(a, b)
    decreases |b|, 0
  {
    if a != [] && a[0] == b[0] {
      SubsequenceDropHead(a, b[1..]);
    }
  }

  lemma {:induction false} SubsequenceDropHead<T>(a: seq<T>, b: seq<T>)
    requires a != [] && IsSubsequence(a, b)
    ensures IsSubsequence(a[1..], b)
    decreases |b|, 1
  {
    if a[0] == b[0] {
      if a[1..] != [] {
        SubsequenceOfTail(a[1..], b);
      }
    } else {
      SubsequenceDropHead(a, b[1..]);
      if a[1..] != [] {
        SubsequenceOfTail(a[1..], b);
      }
    }
  }

  /** `a.filter(p)`: the elements satisfying `p`, all of them. */
  function Filter<T(==)>(a: seq<T>, p: T -> bool): (r: seq<T>)
    ensures |r| <= |a|
    ensures forall k :: 0 <= k < |r| ==> p(r[k]) && r[k] in a
    ensures forall k :: 0 <= k < |a| && p(a[k]) ==> a[k] in r
  {
    if a == [] then []
    else if p(a[0]) then [a[0]] + Filter(a[1..], p)
    else Filter(a[1..], p)
  }

  /** ... each as often as it occurs in `a`, nothing else ... */
  lemma {:induction false} FilterCounts<T(!new)>(a: seq<T>, p: T -> bool)
    ensures forall y :: multiset(Filter(a, p))[y] == if p(y) then multiset(a)[y] else 0
  {
    if a != [] {
      FilterCounts(a[1..], p);
      assert a == [a[0]] + a[1..];
    }
  }

  /** ... and in their original order. */
  lemma {:induction false} FilterKeepsOrder<T>(a: seq<T>, p: T -> bool)
    ensures IsSubsequence(Filter(a, p), a)
  {
    if a != [] {
      FilterKeepsOrder(a[1..], p);
      if p(a[0]) {
        assert Filter(a, p)[1..] == Filter(a[1..], p);
      } else {
        SubsequenceOfTail(Filter(a[1..], p), a);
      }
    }
  }
}
