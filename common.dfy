// Shared vocabulary of the nine solvers: the Option/Result wrappers, the
// pieces of Rust's string handling the solvers rely on (splitting on a
// character, unsigned-integer parsing, prefixes), and sums, maxima and
// sorting over sequences and sets.

module Wrappers {
  datatype Option<+T> = None | Some(value: T)

  datatype Result<+T, +E> = Ok(value: T) | Err(error: E)
}

module Text {
  /** Largest value of Rust's `u32` and of a 64-bit `usize`. */
  const U32_MAX: nat := 0xFFFF_FFFF
  const USIZE_MAX: nat := 0xFFFF_FFFF_FFFF_FFFF

  predicate IsDigit(c: char) { '0' <= c <= '9' }

  function DigitValue(c: char): (d: nat)
    requires IsDigit(c)
    ensures d < 10
  {
    c as int - '0' as int
  }

  function DigitChar(d: nat): (c: char)
    requires d < 10
    ensures IsDigit(c) && DigitValue(c) == d
  {
    (d + '0' as int) as char
  }

  predicate AllDigits(s: string) { forall i | 0 <= i < |s| :: IsDigit(s[i]) }

  /** The decimal value of a string of digits, most significant first. */
  function DigitsValue(s: string): nat
    requires AllDigits(s)
    decreases |s|
  {
    if s == [] then 0 else DigitsValue(s[..|s| - 1]) * 10 + DigitValue(s[|s| - 1])
  }

  /** What Rust's unsigned `str::parse` reads as digits: an optional leading '+' is skipped. */
  function UnsignedDigits(s: string): string
  {
    if |s| > 0 && s[0] == '+' then s[1..] else s
  }

  /** Rust's `str::parse::<uN>()` succeeds: one or more ASCII digits after an
      optional '+', with a value no larger than the type's maximum. */
  predicate IsUnsigned(s: string, max: nat)
  {
    var d := UnsignedDigits(s);
    |d| > 0 && AllDigits(d) && DigitsValue(d) <= max
  }

  function ParseUnsigned(s: string, max: nat): (n: nat)
    requires IsUnsigned(s, max)
    ensures n <= max
  {
    DigitsValue(UnsignedDigits(s))
  }

  /** Decimal rendering of a natural number, without sign or leading zeros. */
  function NatToString(n: nat): (s: string)
    ensures |s| > 0 && AllDigits(s) && DigitsValue(s) == n
    decreases n
  {
    if n < 10 then [DigitChar(n)]
    else
      var prefix := NatToString(n / 10);
      var s := prefix + [DigitChar(n % 10)];
      assert s[..|s| - 1] == prefix;
      s
  }

  /** A written number holds no blank, so it is a single word. */
  lemma NatToStringNoBlank(n: nat)
    ensures ' ' !in NatToString(n)
  {
    var s := NatToString(n);
    assert forall i | 0 <= i < |s| :: s[i] != ' ' by {
      assert forall i | 0 <= i < |s| :: IsDigit(s[i]);
    }
  }

  lemma NatToStringParses(n: nat, max: nat)
    requires n <= max
    ensures IsUnsigned(NatToString(n), max) && ParseUnsigned(NatToString(n), max) == n
  {
    var s := NatToString(n);
    assert IsDigit(s[0]);
    assert UnsignedDigits(s) == s;
  }

  /** The characters that occur in `w`. */
  function Chars(w: string): (cs: set<char>)
    ensures forall c :: c in cs <==> c in w
  {
    set c | c in w
  }

  lemma CharsConcat(a: string, b: string)
    ensures Chars(a + b) == Chars(a) + Chars(b)
  {
    forall c | c in a + b
      ensures c in a || c in b
    {
      var i :| 0 <= i < |a + b| && (a + b)[i] == c;
      if i < |a| {
        assert a[i] == c;
      } else {
        assert b[i - |a|] == c;
      }
    }
  }

  predicate StartsWith(s: string, prefix: string)
  {
    |prefix| <= |s| && s[..|prefix|] == prefix
  }

  /** Rust's `str::split(sep)` for a one-character separator: every piece,
      empty ones included, in order; never an empty list. */
  function Split(s: string, sep: char): (parts: seq<string>)
    ensures |parts| >= 1
    decreases |s|
  {
    if s == [] then [""]
    else
      var rest := Split(s[1..], sep);
      if s[0] == sep then [""] + rest
      else [[s[0]] + rest[0]] + rest[1..]
  }

  /** The inverse of Split: the pieces glued back with the separator. */
  function Join(parts: seq<string>, sep: char): string
    requires |parts| >= 1
    decreases |parts|
  {
    if |parts| == 1 then parts[0] else parts[0] + [sep] + Join(parts[1..], sep)
  }

  /** Joining puts the separator after the first piece. */
  lemma JoinCons(first: string, rest: seq<string>, sep: char)
    requires |rest| >= 1
    ensures Join([first] + rest, sep) == first + [sep] + Join(rest, sep)
  {
    assert ([first] + rest)[1..] == rest;
  }

  /** Six pieces joined, written out. */
  lemma JoinSix(w0: string, w1: string, w2: string, w3: string, w4: string, w5: string, sep: char)
    ensures Join([w0, w1, w2, w3, w4, w5], sep) ==
      w0 + [sep] + w1 + [sep] + w2 + [sep] + w3 + [sep] + w4 + [sep] + w5
  {
    JoinCons(w4, [w5], sep);
    JoinCons(w3, [w4, w5], sep);
    JoinCons(w2, [w3, w4, w5], sep);
    JoinCons(w1, [w2, w3, w4, w5], sep);
    JoinCons(w0, [w1, w2, w3, w4, w5], sep);
  }

  lemma {:induction false} JoinSplit(s: string, sep: char)
    ensures Join(Split(s, sep), sep) == s
    decreases |s|
  {
    if s != [] {
      var rest := Split(s[1..], sep);
      JoinSplit(s[1..], sep);
      if s[0] == sep {
        assert Split(s, sep)[1..] == rest;
      } else if |rest| == 1 {
        assert Join(Split(s, sep), sep) == [s[0]] + rest[0];
      } else {
        var parts := Split(s, sep);
        assert parts[1..] == rest[1..];
        assert Join(rest, sep) == rest[0] + [sep] + Join(rest[1..], sep);
      }
    }
  }

  /** Split undoes Join when no piece contains the separator. */
  lemma {:induction false} SplitJoin(parts: seq<string>, sep: char)
    requires |parts| >= 1
    requires forall i | 0 <= i < |parts| :: sep !in parts[i]
    ensures Split(Join(parts, sep), sep) == parts
    decreases |parts|
  {
    if |parts| == 1 {
      SplitNoSeparator(parts[0], sep);
    } else {
      SplitJoin(parts[1..], sep);
      SplitAfterPiece(parts[0], sep, Join(parts[1..], sep));
    }
  }

  /** Splitting a string that contains no separator gives the string itself. */
  lemma {:induction false} SplitNoSeparator(a: string, sep: char)
    requires sep !in a
    ensures Split(a, sep) == [a]
    decreases |a|
  {
    if a != [] {
      SplitNoSeparator(a[1..], sep);
      assert [a[0]] + a[1..] == a;
    }
  }

  /** A separator after a separator-free prefix ends the first piece there. */
  lemma {:induction false} SplitAfterPiece(a: string, sep: char, b: string)
    requires sep !in a
    ensures Split(a + [sep] + b, sep) == [a] + Split(b, sep)
    decreases |a|
  {
    if a == [] {
      assert a + [sep] + b == [sep] + b;
      assert ([sep] + b)[1..] == b;
    } else {
      var s := a + [sep] + b;
      assert s[1..] == a[1..] + [sep] + b;
      SplitAfterPiece(a[1..], sep, b);
      assert [a[0]] + a[1..] == a;
    }
  }
}

module Seqs {
  function Sum(s: seq<int>): int
    decreases |s|
  {
    if s == [] then 0 else Sum(s[..|s| - 1]) + s[|s| - 1]
  }

  lemma {:induction false} SumConcat(a: seq<int>, b: seq<int>)
    ensures Sum(a + b) == Sum(a) + Sum(b)
    decreases |b|
  {
    if b == [] {
      assert a + b == a;
    } else {
      assert (a + b)[..|a + b| - 1] == a + b[..|b| - 1];
      SumConcat(a, b[..|b| - 1]);
    }
  }

  lemma {:induction false} SumNonNegative(s: seq<int>)
    requires forall i | 0 <= i < |s| :: s[i] >= 0
    ensures Sum(s) >= 0
    decreases |s|
  {
    if s != [] { SumNonNegative(s[..|s| - 1]); }
  }

  function Reverse<T>(s: seq<T>): (r: seq<T>)
    ensures |r| == |s|
    ensures forall i | 0 <= i < |s| :: r[i] == s[|s| - 1 - i]
    decreases |s|
  {
    if s == [] then [] else [s[|s| - 1]] + Reverse(s[..|s| - 1])
  }

  lemma ReverseReverse<T>(s: seq<T>)
    ensures Reverse(Reverse(s)) == s
  {
  }

  lemma ReverseConcat<T>(a: seq<T>, b: seq<T>)
    ensures Reverse(a + b) == Reverse(b) + Reverse(a)
  {
    var r := Reverse(a + b);
    assert forall i | 0 <= i < |r| :: r[i] == (Reverse(b) + Reverse(a))[i];
  }

  lemma ReverseOne<T>(x: T)
    ensures Reverse([x]) == [x]
  {
  }

  lemma ReverseTwo<T>(x: T, y: T)
    ensures Reverse([x, y]) == [y, x]
  {
  }

  lemma ReverseThree<T>(x: T, y: T, z: T)
    ensures Reverse([x, y, z]) == [z, y, x]
  {
  }

  lemma ReverseFour<T>(w: T, x: T, y: T, z: T)
    ensures Reverse([w, x, y, z]) == [z, y, x, w]
  {
  }

  lemma {:induction false} ReverseMultiset<T>(s: seq<T>)
    ensures multiset(Reverse(s)) == multiset(s)
    decreases |s|
  {
    if s != [] {
      var front := s[..|s| - 1];
      ReverseMultiset(front);
      assert s == front + [s[|s| - 1]];
      ReverseMultisetStep(front, s[|s| - 1]);
    }
  }

  lemma ReverseMultisetStep<T>(front: seq<T>, last: T)
    requires multiset(Reverse(front)) == multiset(front)
    ensures multiset(Reverse(front + [last])) == multiset(front + [last])
  {
    var s := front + [last];
    assert s[..|s| - 1] == front;
    assert Reverse(s) == [last] + Reverse(front);
  }

  lemma SumCons(x: int, s: seq<int>)
    ensures Sum([x] + s) == x + Sum(s)
  {
    SumConcat([x], s);
    assert [x][..0] == [];
  }

  lemma {:induction false} SumReverse(s: seq<int>)
    ensures Sum(Reverse(s)) == Sum(s)
    decreases |s|
  {
    if s != [] {
      SumReverse(s[..|s| - 1]);
      SumCons(s[|s| - 1], Reverse(s[..|s| - 1]));
    }
  }

  predicate Ascending(s: seq<int>)
  {
    forall i, j | 0 <= i < j < |s| :: s[i] <= s[j]
  }

  /** Insertion of x into an ascending sequence. */
  function Insert(x: int, s: seq<int>): (r: seq<int>)
    requires Ascending(s)
    ensures Ascending(r) && multiset(r) == multiset(s) + multiset{x}
    ensures |r| == |s| + 1 && (r[0] == x || (|s| > 0 && r[0] == s[0]))
    decreases |s|
  {
    if s == [] || x <= s[0] then
      ConsAscending(x, s);
      [x] + s
    else
      var tail := Insert(x, s[1..]);
      InsertAfterFirst(x, s, tail);
      [s[0]] + tail
  }

  lemma ConsAscending(a: int, t: seq<int>)
    requires Ascending(t) && (t == [] || a <= t[0])
    ensures Ascending([a] + t)
  {
    var r := [a] + t;
    forall i, j | 0 <= i < j < |r|
      ensures r[i] <= r[j]
    {
      if i > 0 {
        assert r[i] == t[i - 1] && r[j] == t[j - 1];
      } else {
        assert t[0] <= t[j - 1];
      }
    }
  }

  /** The step of `Insert` when x goes after the first element. */
  lemma InsertAfterFirst(x: int, s: seq<int>, tail: seq<int>)
    requires Ascending(s) && s != [] && x > s[0]
    requires Ascending(tail) && multiset(tail) == multiset(s[1..]) + multiset{x}
    requires |tail| == |s| && (tail[0] == x || (|s| > 1 && tail[0] == s[1]))
    ensures Ascending([s[0]] + tail) && multiset([s[0]] + tail) == multiset(s) + multiset{x}
  {
    ConsAscending(s[0], tail);
    assert s == [s[0]] + s[1..];
  }

  /** Rust's `sort` on a vector of integers, as an ascending permutation. */
  function Sort(s: seq<int>): (r: seq<int>)
    ensures Ascending(r) && multiset(r) == multiset(s)
    decreases |s|
  {
    if s == [] then []
    else
      assert s == [s[0]] + s[1..];
      Insert(s[0], Sort(s[1..]))
  }

  lemma SortLength(s: seq<int>)
    ensures |Sort(s)| == |s|
  {
    assert |multiset(Sort(s))| == |multiset(s)|;
  }

  /** Smallest element of a finite non-empty set of integers. */
  function SetMin(s: set<int>): (m: int)
    requires s != {}
    ensures m in s && forall x | x in s :: m <= x
  {
    HasMinimum(s);
    var m :| m in s && forall x | x in s :: m <= x;
    m
  }

  lemma HasMinimum(s: set<int>)
    requires s != {}
    ensures exists m :: m in s && forall x | x in s :: m <= x
  {
    var m := MinOf(s);
  }

  /** The least element of a non-empty finite set, found by removing elements. */
  lemma {:induction false} MinOf(s: set<int>) returns (m: int)
    requires s != {}
    ensures m in s && forall x | x in s :: m <= x
    decreases |s|
  {
    NonEmptyHasElement(s);
    var y :| y in s;
    if s == {y} {
      m := y;
    } else {
      var r := MinOf(s - {y});
      m := if y < r then y else r;
      forall x | x in s
        ensures m <= x
      {
        if x != y {
          assert x in s - {y};
        }
      }
    }
  }

  /** A non-empty set has an element (stated for `:|` to pick one). */
  lemma NonEmptyHasElement(s: set<int>)
    requires s != {}
    ensures exists y :: y in s
  {
    if forall y :: y !in s {
      assert false;
    }
  }

  /** Sum of the elements of a finite set of integers; each element counts once. */
  function SetSum(s: set<int>): int
    decreases |s|
  {
    if s == {} then 0 else var m := SetMin(s); m + SetSum(s - {m})
  }

  /** SetSum does not depend on the order in which elements are taken out. */
  lemma {:induction false} SetSumRemove(s: set<int>, x: int)
    requires x in s
    ensures SetSum(s) == x + SetSum(s - {x})
    decreases |s|
  {
    var m := SetMin(s);
    if x != m {
      SetSumRemove(s - {m}, x);
      SetSumRemove(s - {x}, m);
      assert s - {m} - {x} == s - {x} - {m};
      assert SetMin(s - {x}) == m;
    }
  }

  lemma SetSumInsert(s: set<int>, x: int)
    requires x !in s
    ensures SetSum(s + {x}) == x + SetSum(s)
  {
    SetSumRemove(s + {x}, x);
    assert s + {x} - {x} == s;
  }
}
