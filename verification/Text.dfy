/** Splitting, joining and decimal numbers, as Go's `strings` and `strconv` define them. */
module Text {
  import opened Wrappers

  /** The first position of the separator, or the length when there is none. */
  function Index<T(==)>(s: seq<T>, sep: T): (i: nat)
    ensures i <= |s| && sep !in s[..i]
    ensures i < |s| ==> s[i] == sep
  {
    if s == [] || s[0] == sep then 0 else
      var i := 1 + Index(s[1..], sep);
      assert s[..i] == [s[0]] + s[1..][..i - 1];
      i
  }

  function Split<T(==)>(s: seq<T>, sep: T): (parts: seq<seq<T>>)
    ensures parts != []
    ensures |parts| == 1 <==> sep !in s
    decreases |s|
  {
    var i := Index(s, sep);
    assert i == |s| ==> s[..i] == s;
    if i == |s| then [s] else [s[..i]] + Split(s[i + 1..], sep)
  }

  function Join<T>(parts: seq<seq<T>>, sep: T): seq<T> {
    if parts == [] then [] else if |parts| == 1 then parts[0] else parts[0] + [sep] + Join(parts[1..], sep)
  }

  lemma {:induction false} IndexOf<T>(a: seq<T>, sep: T, b: seq<T>)
    requires sep !in a
    ensures Index(a + [sep] + b, sep) == |a|
  {
    if a != [] {
      assert (a + [sep] + b)[1..] == a[1..] + [sep] + b;
      IndexOf(a[1..], sep, b);
    }
  }

  /** The text before the first separator is the first part. */
  lemma SplitFirst<T>(a: seq<T>, sep: T, b: seq<T>)
    requires sep !in a
    ensures Split(a + [sep] + b, sep) == [a] + Split(b, sep)
  {
    IndexOf(a, sep, b);
    var s := a + [sep] + b;
    assert s[..|a|] == a && s[|a| + 1..] == b;
  }

  lemma SplitWhole<T>(a: seq<T>, sep: T)
    requires sep !in a
    ensures Split(a, sep) == [a]
  {
    var i := Index(a, sep);
    assert i == |a|;
    assert a[..i] == a;
  }

  /** The text after the last separator is the last part, and joining the others gives the text before it. */
  lemma {:induction false} SplitLast<T>(a: seq<T>, sep: T, b: seq<T>)
    requires sep !in b
    ensures |Split(a + [sep] + b, sep)| >= 2
    ensures Split(a + [sep] + b, sep) == Split(a, sep) + [b]
    decreases |a|
  {
    var i := Index(a, sep);
    var s := a + [sep] + b;
    if i == |a| {
      assert a[..i] == a;
      SplitFirst(a, sep, b);
      SplitWhole(b, sep);
    } else {
      var head, tail := a[..i], a[i + 1..];
      assert s == head + [sep] + (tail + [sep] + b);
      SplitFirst(head, sep, tail + [sep] + b);
      SplitLast(tail, sep, b);
    }
  }

  lemma JoinCons<T>(a: seq<T>, rest: seq<seq<T>>, sep: T)
    requires rest != []
    ensures Join([a] + rest, sep) == a + [sep] + Join(rest, sep)
  {
    assert ([a] + rest)[1..] == rest;
  }

  /** Joining undoes splitting. */
  lemma {:induction false} JoinSplit<T>(s: seq<T>, sep: T)
    ensures Join(Split(s, sep), sep) == s
    decreases |s|
  {
    hide Split, Index;
    if sep !in s {
      SplitWhole(s, sep);
    } else {
      var i := Index(s, sep);
      var head, tail := s[..i], s[i + 1..];
      assert s == head + [sep] + tail;
      SplitFirst(head, sep, tail);
      JoinSplit(tail, sep);
      JoinCons(head, Split(tail, sep), sep);
    }
  }

  // ---------- decimal numbers ----------

  const DIGITS := "0123456789"

  predicate IsDigit(c: char) {
    '0' <= c <= '9'
  }

  function DigitValue(c: char): (d: nat)
    requires IsDigit(c)
    ensures d <= 9 && DIGITS[d] == c
  {
    c as int - '0' as int
  }

  predicate AllDigits(s: string) {
    forall i :: 0 <= i < |s| ==> IsDigit(s[i])
  }

  function Digits(n: nat): (s: string)
    ensures s != [] && AllDigits(s)
  {
    if n < 10 then [DIGITS[n]] else Digits(n / 10) + [DIGITS[n % 10]]
  }

  function Value(s: string): nat
    requires AllDigits(s)
  {
    if s == [] then 0 else 10 * Value(s[..|s| - 1]) + DigitValue(s[|s| - 1])
  }

  lemma {:induction false} ValueOfDigits(n: nat)
    ensures Value(Digits(n)) == n
  {
    var s := Digits(n);
    if n < 10 {
      assert s[..0] == [];
      assert DigitValue(s[0]) == n;
    } else {
      ValueOfDigits(n / 10);
      assert s[..|s| - 1] == Digits(n / 10);
      assert DigitValue(s[|s| - 1]) == n % 10;
    }
  }

  /** The `%d` form of an integer. */
  function Decimal(i: int): (s: string)
    ensures s != [] && '_' !in s
  {
    if i < 0 then ['-'] + Digits(-i) else Digits(i)
  }

  const MIN_INT64 := -0x8000_0000_0000_0000
  const MAX_INT64 := 0x7fff_ffff_ffff_ffff

  predicate IsInt64(i: int) {
    MIN_INT64 <= i <= MAX_INT64
  }

  /** 64-bit two's complement addition of one. */
  function Increased(i: int): (r: int)
    requires IsInt64(i)
    ensures IsInt64(r)
  {
    if i == MAX_INT64 then MIN_INT64 else i + 1
  }

  /** An optional sign followed by at least one digit, without a bound on the value. */
  function Signed(s: string): Option<int> {
    var body := if s != [] && (s[0] == '+' || s[0] == '-') then s[1..] else s;
    if body == [] || !AllDigits(body) then None
    else if s[0] == '-' then Some(-1 * Value(body))
    else Some(Value(body))
  }

  /** Base-ten parsing that fails on malformed text and on values outside 64 bits. */
  function ParseInt(s: string): (r: Option<int>)
    ensures r.Some? ==> IsInt64(r.value)
  {
    var v := Signed(s);
    if v.Some? && IsInt64(v.value) then v else None
  }

  /** A sign, if any, and digits. */
  predicate Numeral(s: string, negative: bool, digits: string) {
    && digits != [] && AllDigits(digits)
    && (s == ['-'] + digits || s == ['+'] + digits || s == digits) && (negative <==> s == ['-'] + digits)
  }

  /** Parsing gives a number exactly for numerals within 64 bits, and it is the number written there. */
  lemma ParseExact(s: string)
    ensures forall negative, digits :: Numeral(s, negative, digits) ==>
              var v: int := if negative then 0 - Value(digits) else Value(digits);
              if IsInt64(v) then ParseInt(s) == Some(v) else ParseInt(s).None?
    ensures ParseInt(s).Some? ==> exists negative, digits :: Numeral(s, negative, digits)
  {
    forall negative, digits | Numeral(s, negative, digits)
      ensures Signed(s) == Some(if negative then 0 - Value(digits) else Value(digits))
    {
      assert (['-'] + digits)[1..] == digits && (['+'] + digits)[1..] == digits;
      assert digits[0] != '-' && digits[0] != '+';
    }
    if ParseInt(s).Some? {
      var signed := s != [] && (s[0] == '+' || s[0] == '-');
      var digits := if signed then s[1..] else s;
      assert signed ==> s == [s[0]] + digits;
      assert Numeral(s, signed && s[0] == '-', digits);
    }
  }

  lemma SignedOfDecimal(i: int)
    ensures Signed(Decimal(i)) == Some(i)
  {
    var n := if i < 0 then -i else i;
    ValueOfDigits(n);
    var s := Decimal(i);
    if i < 0 {
      assert s[1..] == Digits(n);
    } else {
      assert IsDigit(s[0]);
    }
  }

  /** Parsing recovers every printed 64-bit number. */
  lemma ParseOfDecimal(i: int)
    requires IsInt64(i)
    ensures ParseInt(Decimal(i)) == Some(i)
  {
    SignedOfDecimal(i);
  }

  lemma DecimalInjective(i: int, j: int)
    requires Decimal(i) == Decimal(j)
    ensures i == j
  {
    SignedOfDecimal(i);
    SignedOfDecimal(j);
  }
}
