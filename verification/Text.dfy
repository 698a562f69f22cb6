/** Sequence and string helpers shared by the component models. */
module Text {

  datatype Option<+T> = None | Some(value: T)

  // ----- concatenation and filtering -----

  lemma Assoc<T>(a: seq<T>, b: seq<T>, c: seq<T>)
    ensures a + (b + c) == (a + b) + c
  {
  }

  lemma SliceOfSlice<T>(s: seq<T>, lo: nat, hi: nat, i: nat, j: nat)
    requires lo <= hi <= |s| && i <= j <= hi - lo
    ensures s[lo..hi][i..j] == s[lo + i..lo + j]
  {
    assert forall k :: 0 <= k < j - i ==> s[lo..hi][i..j][k] == s[lo..hi][i + k] == s[lo + i..lo + j][k];
  }

  function Concat<T>(parts: seq<seq<T>>): seq<T>
  {
    if parts == [] then [] else parts[0] + Concat(parts[1..])
  }

  lemma {:induction false} ConcatAppend<T>(a: seq<seq<T>>, b: seq<seq<T>>)
    ensures Concat(a + b) == Concat(a) + Concat(b)
  {
    if |a| == 0 {
      assert a + b == b;
    } else {
      assert (a + b)[1..] == a[1..] + b;
      ConcatAppend(a[1..], b);
      Assoc(a[0], Concat(a[1..]), Concat(b));
    }
  }

  lemma ConcatOne<T>(parts: seq<seq<T>>, last: seq<T>)
    ensures Concat(parts + [last]) == Concat(parts) + last
  {
    ConcatAppend(parts, [last]);
    assert Concat([last]) == last + Concat([]) == last;
  }

  function Join(parts: seq<string>, separator: string): string
  {
    if parts == [] then ""
    else if |parts| == 1 then parts[0]
    else Join(parts[..|parts| - 1], separator) + separator + parts[|parts| - 1]
  }

  lemma JoinGrows(parts: seq<string>, more: string, separator: string)
    ensures Join(parts + [more], separator) == if parts == [] then more else Join(parts, separator) + separator + more
  {
    assert (parts + [more])[..|parts|] == parts;
  }

  lemma {:induction false} JoinFront(first: string, rest: seq<string>, separator: string)
    requires |rest| > 0
    ensures Join([first] + rest, separator) == first + separator + Join(rest, separator)
  {
    var n := |rest| - 1;
    assert rest == rest[..n] + [rest[n]] && [first] + rest == ([first] + rest[..n]) + [rest[n]];
    hide Join;
    JoinGrows(rest[..n], rest[n], separator);
    JoinGrows([first] + rest[..n], rest[n], separator);
    if n == 0 {
      JoinGrows([], first, separator);
      assert [first] + rest[..n] == [first] && [] + [first] == [first];
    } else {
      JoinFront(first, rest[..n], separator);
    }
  }

  function Filter<T>(s: seq<T>, keep: T -> bool): seq<T>
  {
    if s == [] then []
    else (if keep(s[0]) then [s[0]] else []) + Filter(s[1..], keep)
  }

  lemma FilterCons<T>(s: seq<T>, keep: T -> bool)
    requires |s| > 0
    ensures Filter(s, keep) == (if keep(s[0]) then [s[0]] else []) + Filter(s[1..], keep)
  {
  }

  lemma {:induction false} FilterAppend<T>(a: seq<T>, b: seq<T>, keep: T -> bool)
    ensures Filter(a + b, keep) == Filter(a, keep) + Filter(b, keep)
  {
    if |a| == 0 {
      assert a + b == b;
    } else {
      hide Filter;
      assert (a + b)[1..] == a[1..] + b;
      FilterCons(a, keep);
      FilterCons(a + b, keep);
      FilterAppend(a[1..], b, keep);
      Assoc(if keep(a[0]) then [a[0]] else [], Filter(a[1..], keep), Filter(b, keep));
    }
  }

  lemma {:induction false} FilterAllKept<T>(s: seq<T>, keep: T -> bool)
    requires forall i :: 0 <= i < |s| ==> keep(s[i])
    ensures Filter(s, keep) == s
  {
    if |s| > 0 {
      FilterAllKept(s[1..], keep);
      assert s == [s[0]] + s[1..];
    }
  }

  lemma {:induction false} FilterWithin<T>(s: seq<T>, keep: T -> bool)
    ensures forall x :: x in Filter(s, keep) ==> x in s && keep(x)
  {
    if |s| > 0 {
      FilterWithin(s[1..], keep);
    }
  }

  function Mapped<A, B>(s: seq<A>, f: A -> B): (r: seq<B>)
    ensures |r| == |s| && forall i :: 0 <= i < |r| ==> r[i] == f(s[i])
  {
    seq(|s|, i requires 0 <= i < |s| => f(s[i]))
  }

  lemma MappedAppend<A, B>(a: seq<A>, b: seq<A>, f: A -> B)
    ensures Mapped(a + b, f) == Mapped(a, f) + Mapped(b, f)
  {
  }

  // ----- substring search -----

  /** The pattern occurs in `s` at index `i`. */
  predicate At(s: string, pattern: string, i: int)
  {
    0 <= i <= |s| - |pattern| && s[i..i + |pattern|] == pattern
  }

  /** Index of the first occurrence, or -1. */
  function Find(s: string, pattern: string, from: nat := 0): (r: int)
    requires from <= |s|
    ensures r == -1 || from <= r <= |s| - |pattern|
    ensures r == -1 ==> forall i :: from <= i ==> !At(s, pattern, i)
    ensures r >= 0 ==> At(s, pattern, r) && forall i :: from <= i < r ==> !At(s, pattern, i)
    decreases |s| - from
  {
    if At(s, pattern, from) then from
    else if from == |s| then -1
    else Find(s, pattern, from + 1)
  }

  lemma FindIs(s: string, pattern: string, i: nat)
    requires At(s, pattern, i) && forall j :: 0 <= j < i ==> !At(s, pattern, j)
    ensures Find(s, pattern) == i
  {
    var r := Find(s, pattern);
    assert r == -1 ==> !At(s, pattern, i);
  }

  // ----- trimming -----

  function TrimStart(s: string, drop: char -> bool): string
  {
    if s != [] && drop(s[0]) then TrimStart(s[1..], drop) else s
  }

  function TrimEnd(s: string, drop: char -> bool): string
  {
    if s != [] && drop(s[|s| - 1]) then TrimEnd(s[..|s| - 1], drop) else s
  }

  function Trim(s: string, drop: char -> bool): string
  {
    TrimEnd(TrimStart(s, drop), drop)
  }

  /** Trimming removes only dropped characters, and stops at the first kept one on either side. */
  lemma {:induction false} TrimStartIsSuffix(s: string, drop: char -> bool) returns (k: nat)
    ensures k <= |s| && TrimStart(s, drop) == s[k..]
    ensures forall i :: 0 <= i < k ==> drop(s[i])
    ensures k < |s| ==> !drop(s[k])
  {
    if s != [] && drop(s[0]) {
      var j := TrimStartIsSuffix(s[1..], drop);
      k := j + 1;
      assert s[1..][j..] == s[k..];
      assert forall i :: 1 <= i < k ==> s[i] == s[1..][i - 1];
    } else {
      k := 0;
    }
  }

  lemma {:induction false} TrimEndIsPrefix(s: string, drop: char -> bool) returns (k: nat)
    ensures k <= |s| && TrimEnd(s, drop) == s[..k]
    ensures forall i :: k <= i < |s| ==> drop(s[i])
    ensures 0 < k ==> !drop(s[k - 1])
  {
    if s != [] && drop(s[|s| - 1]) {
      k := TrimEndIsPrefix(s[..|s| - 1], drop);
      assert s[..|s| - 1][..k] == s[..k];
    } else {
      k := |s|;
      assert s[..k] == s;
    }
  }

  lemma TrimShape(s: string, drop: char -> bool) returns (lo: nat, hi: nat)
    ensures lo <= hi <= |s| && Trim(s, drop) == s[lo..hi]
    ensures forall i :: 0 <= i < lo || hi <= i < |s| ==> drop(s[i])
    ensures lo < hi ==> !drop(s[lo]) && !drop(s[hi - 1])
  {
    lo := TrimStartIsSuffix(s, drop);
    var k := TrimEndIsPrefix(s[lo..], drop);
    hi := lo + k;
    assert s[lo..][..k] == s[lo..hi];
    assert forall i :: hi <= i < |s| ==> s[i] == s[lo..][i - lo];
  }

  lemma {:induction false} FilterAllDropped<T>(s: seq<T>, keep: T -> bool)
    requires forall i :: 0 <= i < |s| ==> !keep(s[i])
    ensures Filter(s, keep) == []
  {
    if s != [] {
      FilterAllDropped(s[1..], keep);
    }
  }

  /** What Python's `str.strip` and `str.isspace` take for white space. */
  predicate PySpace(c: char)
  {
    || '\t' <= c <= '\r' || '\U{001C}' <= c <= ' ' || c == '\U{0085}' || c == '\U{00A0}' || c == '\U{1680}'
    || '\U{2000}' <= c <= '\U{200A}' || c == '\U{2028}' || c == '\U{2029}' || c == '\U{202F}' || c == '\U{205F}'
    || c == '\U{3000}'
  }

  function Strip(s: string): string
  {
    Trim(s, PySpace)
  }

  /** The characters for which Python's `str.isspace` holds. */
  lemma WhiteSpace(c: char)
    ensures PySpace(c) <==>
      c as int in {9, 10, 11, 12, 13, 28, 29, 30, 31, 32, 133, 160, 5760, 8192, 8193, 8194, 8195, 8196, 8197, 8198,
                   8199, 8200, 8201, 8202, 8232, 8233, 8239, 8287, 12288}
  {
  }

  /** Trimming removes what is to be dropped on both sides and keeps the text between. */
  lemma TrimBetween(before: string, s: string, after: string, drop: char -> bool)
    requires forall i :: 0 <= i < |before| ==> drop(before[i])
    requires forall i :: 0 <= i < |after| ==> drop(after[i])
    requires |s| > 0 ==> !drop(s[0]) && !drop(s[|s| - 1])
    ensures Trim(before + s + after, drop) == s
  {
    var all := before + s + after;
    assert forall i :: 0 <= i < |before| ==> all[i] == before[i];
    assert forall i :: |before| + |s| <= i < |all| ==> all[i] == after[i - |before| - |s|];
    assert forall i :: |before| <= i < |before| + |s| ==> all[i] == s[i - |before|];
    assert all[|before|..|before| + |s|] == s;
    var lo, hi := TrimShape(all, drop);
  }

  // ----- sizes -----

  lemma {:induction false} SubsetSize<T>(a: set<T>, b: set<T>)
    requires a <= b
    ensures |a| <= |b|
  {
    if a != {} {
      var x :| x in a;
      SubsetSize(a - {x}, b - {x});
    }
  }

  predicate Distinct<T(==)>(s: seq<T>)
  {
    forall i, j :: 0 <= i < j < |s| ==> s[i] != s[j]
  }

  function Elements<T(==)>(s: seq<T>): set<T>
  {
    set x | x in s
  }

  lemma {:induction false} DistinctSize<T>(s: seq<T>)
    requires Distinct(s)
    ensures |Elements(s)| == |s|
  {
    if s != [] {
      var n := |s| - 1;
      DistinctSize(s[..n]);
      assert s == s[..n] + [s[n]];
      assert Elements(s) == Elements(s[..n]) + {s[n]};
    }
  }
}
