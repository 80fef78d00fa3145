/** String helpers that stand for the Python built-ins the scripts use:
    str.strip, str.split, str.join, str.lower, slicing, str(int) and
    pandas' order-preserving unique(). Characters are taken to be ASCII. */
module Text {

  /** Python's str.isspace on the ASCII range: tab, newline, vertical tab,
      form feed, carriage return, the four separator controls and space. */
  predicate IsSpace(c: char) {
    '\t' <= c <= '\r' || '\U{1C}' <= c <= ' '
  }

  predicate IsDigit(c: char) {
    '0' <= c <= '9'
  }

  predicate IsParen(c: char) {
    c == '(' || c == ')'
  }

  predicate AllSpace(s: string) {
    forall i :: 0 <= i < |s| ==> IsSpace(s[i])
  }

  predicate AllDigits(s: string) {
    forall i :: 0 <= i < |s| ==> IsDigit(s[i])
  }

  /** No leading or trailing whitespace. */
  predicate IsTrimmed(s: string) {
    s == [] || (!IsSpace(s[0]) && !IsSpace(s[|s| - 1]))
  }

  // ---------------------------------------------------------------- strip

  /** Drops the longest prefix of characters satisfying `drop`. */
  function TrimLeft(s: string, drop: char -> bool): (r: string)
    ensures |r| <= |s| && r == s[|s| - |r|..]
    ensures forall i :: 0 <= i < |s| - |r| ==> drop(s[i])
    ensures r != [] ==> !drop(r[0])
    ensures (forall i :: 0 <= i < |s| ==> drop(s[i])) ==> r == []
  {
    if s != [] && drop(s[0]) then TrimLeft(s[1..], drop) else s
  }

  /** Drops the longest suffix of characters satisfying `drop`. */
  function TrimRight(s: string, drop: char -> bool): (r: string)
    ensures |r| <= |s| && r == s[..|r|]
    ensures forall i :: |r| <= i < |s| ==> drop(s[i])
    ensures r != [] ==> !drop(r[|r| - 1])
  {
    if s != [] && drop(s[|s| - 1]) then TrimRight(s[..|s| - 1], drop) else s
  }

  /** Python's s.strip(chars): both ends, every character in the set. */
  function Trim(s: string, drop: char -> bool): (r: string)
    ensures |r| <= |s|
    ensures r != [] ==> !drop(r[0]) && !drop(r[|r| - 1])
  {
    TrimRight(TrimLeft(s, drop), drop)
  }

  /** Trim leaves nothing exactly when every character is one it drops. */
  lemma TrimEmpty(s: string, drop: char -> bool)
    ensures Trim(s, drop) == [] <==> forall i :: 0 <= i < |s| ==> drop(s[i])
  {
    var l := TrimLeft(s, drop);
    var off := |s| - |l|;
    if Trim(s, drop) == [] {
      forall i | off <= i < |s| ensures drop(s[i]) {
        assert s[i] == l[i - off];
      }
    }
  }

  /** Trim only removes characters: one absent from the input stays absent. */
  lemma TrimKeepsOut(s: string, drop: char -> bool, c: char)
    requires c !in s
    ensures c !in Trim(s, drop)
  {
    var l := TrimLeft(s, drop);
    var off := |s| - |l|;
    assert Trim(s, drop) == s[off..off + |Trim(s, drop)|];
  }

  /** Python's s.strip() with no argument. */
  function Strip(s: string): (r: string)
    ensures IsTrimmed(r)
    ensures |r| <= |s|
    ensures r == [] <==> AllSpace(s)
  {
    TrimEmpty(s, IsSpace);
    Trim(s, IsSpace)
  }

  lemma {:induction false} TrimLeftNoop(s: string, drop: char -> bool)
    requires s == [] || !drop(s[0])
    ensures TrimLeft(s, drop) == s
  {
  }

  lemma {:induction false} TrimRightNoop(s: string, drop: char -> bool)
    requires s == [] || !drop(s[|s| - 1])
    ensures TrimRight(s, drop) == s
  {
  }

  /** Text whose two ends are kept by `drop` is left unchanged by Trim. */
  lemma TrimNoop(s: string, drop: char -> bool)
    requires s == [] || (!drop(s[0]) && !drop(s[|s| - 1]))
    ensures Trim(s, drop) == s
  {
    TrimLeftNoop(s, drop);
    TrimRightNoop(s, drop);
  }

  /** A prefix made only of dropped characters is removed, and no more. */
  lemma {:induction false} TrimLeftPrefix(a: string, r: string, drop: char -> bool)
    requires forall i :: 0 <= i < |a| ==> drop(a[i])
    requires r == [] || !drop(r[0])
    ensures TrimLeft(a + r, drop) == r
    decreases |a|
  {
    if a == [] {
      assert a + r == r;
      TrimLeftNoop(r, drop);
    } else {
      assert (a + r)[1..] == a[1..] + r;
      TrimLeftPrefix(a[1..], r, drop);
    }
  }

  /** A suffix made only of dropped characters is removed, and no more. */
  lemma {:induction false} TrimRightSuffix(r: string, b: string, drop: char -> bool)
    requires forall i :: 0 <= i < |b| ==> drop(b[i])
    requires r == [] || !drop(r[|r| - 1])
    ensures TrimRight(r + b, drop) == r
    decreases |b|
  {
    if b == [] {
      assert r + b == r;
      TrimRightNoop(r, drop);
    } else {
      assert (r + b)[..|r + b| - 1] == r + b[..|b| - 1];
      TrimRightSuffix(r, b[..|b| - 1], drop);
    }
  }

  /** Trim removes exactly a dropped prefix and a dropped suffix around a
      middle whose two ends are kept. */
  lemma TrimAround(a: string, m: string, b: string, drop: char -> bool)
    requires forall i :: 0 <= i < |a| ==> drop(a[i])
    requires forall i :: 0 <= i < |b| ==> drop(b[i])
    requires m != [] && !drop(m[0]) && !drop(m[|m| - 1])
    ensures Trim(a + m + b, drop) == m
  {
    assert a + m + b == a + (m + b);
    TrimLeftPrefix(a, m + b, drop);
    TrimRightSuffix(m, b, drop);
  }

  /** Stripping text that has no surrounding whitespace changes nothing. */
  lemma StripTrimmed(s: string)
    requires IsTrimmed(s)
    ensures Strip(s) == s
  {
    TrimNoop(s, IsSpace);
  }

  // ---------------------------------------------------------------- join and split

  /** Python's sep.join(items). */
  function Join(items: seq<string>, sep: string): (r: string)
    ensures items == [] ==> r == ""
    ensures |items| == 1 ==> r == items[0]
    decreases |items|
  {
    if items == [] then ""
    else if |items| == 1 then items[0]
    else items[0] + sep + Join(items[1..], sep)
  }

  /** A join of non-empty items is non-empty, and starts and ends as the
      first and last items do. */
  lemma {:induction false} JoinEnds(items: seq<string>, sep: string)
    requires items != [] && forall k :: 0 <= k < |items| ==> items[k] != []
    ensures Join(items, sep) != []
    ensures Join(items, sep)[0] == items[0][0]
    ensures Join(items, sep)[|Join(items, sep)| - 1] == items[|items| - 1][|items[|items| - 1]| - 1]
    decreases |items|
  {
    if |items| > 1 {
      JoinEnds(items[1..], sep);
    }
  }

  /** Joining a list extended by one item adds the separator and that item. */
  lemma {:induction false} JoinSnoc(items: seq<string>, x: string, sep: string)
    requires items != []
    ensures Join(items + [x], sep) == Join(items, sep) + sep + x
    decreases |items|
  {
    if |items| == 1 {
      assert items + [x] == [items[0], x];
    } else {
      assert (items + [x])[1..] == items[1..] + [x];
      JoinSnoc(items[1..], x, sep);
    }
  }

  /** Python's s.split(sep) for a one-character separator: the text between
      separators, always at least one part. */
  function Split(s: string, sep: char): (parts: seq<string>)
    ensures |parts| >= 1
    ensures forall k :: 0 <= k < |parts| ==> sep !in parts[k]
    ensures Join(parts, [sep]) == s
    decreases |s|
  {
    if s == [] then [""]
    else if s[0] == sep then
      var rest := Split(s[1..], sep);
      assert [s[0]] + s[1..] == s;
      [""] + rest
    else
      var rest := Split(s[1..], sep);
      var head := [s[0]] + rest[0];
      var parts := [head] + rest[1..];
      assert sep !in head;
      assert parts[1..] == rest[1..];
      assert Join(parts, [sep]) == [s[0]] + Join(rest, [sep]) by {
        if |rest| > 1 {
          assert Join(parts, [sep]) == head + [sep] + Join(rest[1..], [sep]);
          assert Join(rest, [sep]) == rest[0] + [sep] + Join(rest[1..], [sep]);
        }
      }
      assert [s[0]] + s[1..] == s;
      parts
  }

  /** Text without the separator splits into itself alone. */
  lemma {:induction false} SplitNoSep(s: string, sep: char)
    requires sep !in s
    ensures Split(s, sep) == [s]
    decreases |s|
  {
    if s != [] {
      SplitNoSep(s[1..], sep);
      assert [s[0]] + s[1..] == s;
    }
  }

  /** A separator-free head followed by the separator splits off as one part. */
  lemma {:induction false} SplitCons(a: string, b: string, sep: char)
    requires sep !in a
    ensures Split(a + [sep] + b, sep) == [a] + Split(b, sep)
    decreases |a|
  {
    if a == [] {
      assert (a + [sep] + b)[1..] == b;
    } else {
      assert (a + [sep] + b)[1..] == a[1..] + [sep] + b;
      SplitCons(a[1..], b, sep);
      assert [a[0]] + a[1..] == a;
    }
  }

  /** Split undoes Join for parts that do not contain the separator. */
  lemma {:induction false} SplitJoin(parts: seq<string>, sep: char)
    requires parts != []
    requires forall k :: 0 <= k < |parts| ==> sep !in parts[k]
    ensures Split(Join(parts, [sep]), sep) == parts
    decreases |parts|
  {
    if |parts| == 1 {
      SplitNoSep(parts[0], sep);
    } else {
      SplitJoin(parts[1..], sep);
      SplitCons(parts[0], Join(parts[1..], [sep]), sep);
      assert [parts[0]] + parts[1..] == parts;
    }
  }

  /** The first field of Python's s.split(sep)[0]: the text before the first
      separator, or all of it when there is none. */
  function FirstField(s: string, sep: char): (r: string)
    ensures sep !in r
    ensures |r| <= |s| && r == s[..|r|]
    ensures |r| < |s| ==> s[|r|] == sep
  {
    var parts := Split(s, sep);
    if |parts| > 1 then
      assert s == parts[0] + [sep] + Join(parts[1..], [sep]);
      parts[0]
    else
      parts[0]
  }

  // ---------------------------------------------------------------- case

  function LowerChar(c: char): (r: char)
    ensures !('A' <= r <= 'Z')
    ensures IsSpace(r) == IsSpace(c)
    ensures 'a' <= c <= 'z' ==> r == c
  {
    if 'A' <= c <= 'Z' then (c as int + 32) as char else c
  }

  /** Python's s.lower() on ASCII text. */
  function Lower(s: string): (r: string)
    ensures |r| == |s|
    ensures forall i :: 0 <= i < |s| ==> r[i] == LowerChar(s[i])
    ensures IsTrimmed(s) ==> IsTrimmed(r)
  {
    seq(|s|, i requires 0 <= i < |s| => LowerChar(s[i]))
  }

  /** Lowering text without upper-case letters changes nothing. */
  lemma LowerNoUpper(s: string)
    requires forall i :: 0 <= i < |s| ==> !('A' <= s[i] <= 'Z')
    ensures Lower(s) == s
  {
    assert forall i :: 0 <= i < |s| ==> LowerChar(s[i]) == s[i];
  }

  // ---------------------------------------------------------------- numbers

  function DigitChar(d: nat): (c: char)
    requires d < 10
    ensures IsDigit(c)
  {
    ('0' as int + d) as char
  }

  /** The number a run of decimal digits denotes, as Python's int() reads it. */
  function DigitsValue(s: string): nat
    requires AllDigits(s)
  {
    if s == [] then 0
    else DigitsValue(s[..|s| - 1]) * 10 + (s[|s| - 1] as int - '0' as int)
  }

  /** Python's str() of a non-negative int. */
  function NatToString(n: nat): (r: string)
    ensures r != [] && AllDigits(r)
    ensures DigitsValue(r) == n
  {
    if n < 10 then [DigitChar(n)]
    else
      var r := NatToString(n / 10) + [DigitChar(n % 10)];
      assert r[..|r| - 1] == NatToString(n / 10);
      r
  }

  /** Python's str() of an int: a minus sign before negative numbers. */
  function IntToString(i: int): (r: string)
    ensures r != []
    ensures i >= 0 ==> r == NatToString(i)
    ensures i < 0 ==> r == "-" + NatToString(-i)
  {
    if i < 0 then "-" + NatToString(-i) else NatToString(i)
  }

  // ---------------------------------------------------------------- sequences

  /** Python's s[:n]. */
  function Prefix<T>(s: seq<T>, n: nat): (r: seq<T>)
    ensures |r| == if |s| <= n then |s| else n
    ensures r == s[..|r|]
  {
    if |s| <= n then s else s[..n]
  }

  /** Taking one more item of a sequence appends that item. */
  lemma TakeSnoc<T>(s: seq<T>, n: nat)
    requires n < |s|
    ensures s[..n + 1] == s[..n] + [s[n]]
  {
  }

  predicate StartsWith(s: string, head: string) {
    |head| <= |s| && s[..|head|] == head
  }

  predicate EndsWith(s: string, tail: string) {
    |tail| <= |s| && s[|s| - |tail|..] == tail
  }

  lemma ConcatStartsWith(a: string, b: string)
    ensures StartsWith(a + b, a)
  {
    assert (a + b)[..|a|] == a;
  }

  lemma ConcatEndsWith(a: string, b: string)
    ensures EndsWith(a + b, b)
  {
    assert (a + b)[|a + b| - |b|..] == b;
  }

  lemma EndsWithAfter(a: string, b: string, c: string)
    ensures EndsWith(a + b + c, b + c)
  {
    assert a + b + c == a + (b + c);
    ConcatEndsWith(a, b + c);
  }

  lemma StartsWithExtend(a: string, head: string, b: string)
    requires StartsWith(a, head)
    ensures StartsWith(a + b, head)
  {
    assert (a + b)[..|head|] == a[..|head|];
  }

  /** A join starts with its first item. */
  lemma {:induction false} JoinStartsWith(items: seq<string>, sep: string)
    requires items != []
    ensures StartsWith(Join(items, sep), items[0])
  {
    if |items| > 1 {
      ConcatStartsWith(items[0], sep);
      StartsWithExtend(items[0] + sep, items[0], Join(items[1..], sep));
    }
  }

  /** A character repeated n times ("-" * 60 in Python). */
  function Repeat(c: char, n: nat): (r: string)
    ensures |r| == n
    ensures forall i :: 0 <= i < n ==> r[i] == c
  {
    seq(n, _ => c)
  }

  predicate NoDups<T(==)>(s: seq<T>) {
    forall i, j :: 0 <= i < j < |s| ==> s[i] != s[j]
  }

  /** Index of the first occurrence of x in s. */
  function FirstIndex<T(==)>(s: seq<T>, x: T): (k: nat)
    requires x in s
    ensures k < |s| && s[k] == x
    ensures forall i :: 0 <= i < k ==> s[i] != x
  {
    if s[0] == x then 0 else 1 + FirstIndex(s[1..], x)
  }

  /** pandas' Series.unique(): every value once, in order of first appearance. */
  function Distinct<T(==,!new)>(s: seq<T>): (r: seq<T>)
    ensures NoDups(r)
    ensures forall x :: x in r <==> x in s
    ensures |r| <= |s|
    decreases |s|
  {
    if s == [] then []
    else
      var d := Distinct(s[..|s| - 1]);
      var x := s[|s| - 1];
      assert s == s[..|s| - 1] + [x];
      if x in d then d else d + [x]
  }

  /** The values Distinct keeps appear in the order of their first occurrence. */
  lemma {:induction false} DistinctFirstSeenOrder<T(!new)>(s: seq<T>, i: nat, j: nat)
    requires i < j < |Distinct(s)|
    ensures FirstIndex(s, Distinct(s)[i]) < FirstIndex(s, Distinct(s)[j])
    decreases |s|
  {
    var p := s[..|s| - 1];
    var d := Distinct(p);
    var x := s[|s| - 1];
    assert s == p + [x];
    FirstIndexPrefix(p, x, Distinct(s)[i]);
    if j < |d| {
      DistinctFirstSeenOrder(p, i, j);
      FirstIndexPrefix(p, x, Distinct(s)[j]);
    } else {
      assert Distinct(s)[j] == x && x !in p;
      assert forall k :: 0 <= k < |s| - 1 ==> s[k] == p[k] != x;
    }
  }

  /** Extending a sequence does not move the first occurrence of a present value. */
  lemma {:induction false} FirstIndexPrefix<T>(p: seq<T>, x: T, y: T)
    requires y in p
    ensures FirstIndex(p + [x], y) == FirstIndex(p, y)
  {
    var s := p + [x];
    var k := FirstIndex(p, y);
    assert s[k] == y;
    assert forall i :: 0 <= i < k ==> s[i] == p[i] != y;
  }
}
