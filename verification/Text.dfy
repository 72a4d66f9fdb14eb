/** The parts of Go's `strings` and `strconv` that the endpoint and migration formats rely on. */
module Text {
  import opened Base

  /** `strings.Split(s, sep)` for a one-character separator. */
  function Split(s: string, sep: char): (parts: seq<string>)
    ensures |parts| > 0
  {
    if s == [] then [[]]
    else
      var rest := Split(s[1..], sep);
      if s[0] == sep then [[]] + rest else [[s[0]] + rest[0]] + rest[1..]
  }

  function Join(parts: seq<string>, sep: char): string
    requires |parts| > 0
  {
    if |parts| == 1 then parts[0] else parts[0] + [sep] + Join(parts[1..], sep)
  }

  /** No part holds the separator. */
  predicate Clean(parts: seq<string>, sep: char) {
    forall i :: 0 <= i < |parts| ==> sep !in parts[i]
  }

  lemma {:induction false} PartsAreClean(s: string, sep: char)
    ensures Clean(Split(s, sep), sep)
  {
    if s != [] {
      PartsAreClean(s[1..], sep);
    }
  }

  lemma LongerFirstPart(c: char, rest: seq<string>, sep: char)
    requires rest != []
    ensures Join([[c] + rest[0]] + rest[1..], sep) == [c] + Join(rest, sep)
  {
    var parts := [[c] + rest[0]] + rest[1..];
    if |rest| > 1 {
      assert parts[1..] == rest[1..];
      assert [c] + rest[0] + [sep] + Join(rest[1..], sep) == [c] + (rest[0] + [sep] + Join(rest[1..], sep));
    }
  }

  lemma {:induction false} JoinRestores(s: string, sep: char)
    ensures Join(Split(s, sep), sep) == s
  {
    if s != [] {
      var rest := Split(s[1..], sep);
      JoinRestores(s[1..], sep);
      if s[0] == sep {
        assert ([[]] + rest)[1..] == rest;
      } else {
        LongerFirstPart(s[0], rest, sep);
      }
    }
  }

  /** Splitting never leaves a separator inside a part, and joining the parts restores the text. */
  lemma JoinOfSplit(s: string, sep: char)
    ensures Join(Split(s, sep), sep) == s
    ensures forall p :: p in Split(s, sep) ==> sep !in p
  {
    PartsAreClean(s, sep);
    JoinRestores(s, sep);
  }

  lemma {:induction false} SplitAtSeparator(a: string, b: string, sep: char)
    requires sep !in a
    ensures Split(a + [sep] + b, sep) == [a] + Split(b, sep)
  {
    if a == [] {
      assert (a + [sep] + b)[1..] == b;
    } else {
      SplitAtSeparator(a[1..], b, sep);
      assert (a + [sep] + b)[1..] == a[1..] + [sep] + b;
      assert [a[0]] + a[1..] == a;
    }
  }

  lemma {:induction false} SplitWithoutSeparator(a: string, sep: char)
    requires sep !in a
    ensures Split(a, sep) == [a]
  {
    if a == [] {
    } else {
      SplitWithoutSeparator(a[1..], sep);
      assert [a[0]] + a[1..] == a;
    }
  }

  /** Every extra separator adds a part. */
  lemma {:induction false} SplitLength(a: string, b: string, sep: char)
    ensures |Split(a + [sep] + b, sep)| == |Split(a, sep)| + |Split(b, sep)|
  {
    if a == [] {
      assert (a + [sep] + b)[1..] == b;
    } else {
      SplitLength(a[1..], b, sep);
      assert (a + [sep] + b)[1..] == a[1..] + [sep] + b;
    }
  }

  lemma {:induction false} SplitLengthOfField(a: string, sep: char)
    ensures |Split(a, sep)| == 1 <==> sep !in a
  {
    if a == [] {
    } else {
      SplitLengthOfField(a[1..], sep);
    }
  }

  /** Joined fields split back into themselves exactly when no field contains the separator. */
  lemma {:induction false} SplitOfJoin(parts: seq<string>, sep: char)
    requires |parts| > 0
    ensures |Split(Join(parts, sep), sep)| >= |parts|
    ensures |Split(Join(parts, sep), sep)| == |parts| <==> forall p :: p in parts ==> sep !in p
    ensures Split(Join(parts, sep), sep) == parts <==> forall p :: p in parts ==> sep !in p
  {
    SplitLengthOfField(parts[0], sep);
    if |parts| == 1 {
      if sep !in parts[0] {
        SplitWithoutSeparator(parts[0], sep);
      }
    } else {
      var rest := parts[1..];
      SplitOfJoin(rest, sep);
      SplitLength(parts[0], Join(rest, sep), sep);
      assert parts == [parts[0]] + rest;
      if sep !in parts[0] {
        SplitAtSeparator(parts[0], Join(rest, sep), sep);
      }
    }
  }

  predicate IsDigit(c: char) {
    '0' <= c <= '9'
  }

  function DigitOf(n: nat): char
    requires n < 10
  {
    ('0' as int + n) as char
  }

  /** `%d` of a non-negative number. */
  function Itoa(n: nat): string {
    if n < 10 then [DigitOf(n)] else Itoa(n / 10) + [DigitOf(n % 10)]
  }

  function ParseDigits(s: string): Option<nat> {
    if s == [] then None
    else
      var last := s[|s| - 1];
      if !IsDigit(last) then None
      else
        var d := last as int - '0' as int;
        if |s| == 1 then Some(d)
        else
          match ParseDigits(s[..|s| - 1])
          case None => None
          case Some(high) => Some(high * 10 + d)
  }

  /** `strconv.Atoi` on a 64-bit platform: an optional sign, digits, and a range check. */
  function Atoi(s: string): Option<int> {
    var negative := |s| > 0 && s[0] == '-';
    var digits := if |s| > 0 && (s[0] == '-' || s[0] == '+') then s[1..] else s;
    match ParseDigits(digits)
    case None => None
    case Some(n) =>
      var v: int := if negative then 0 - n else n;
      if -TWO_TO_THE_63 <= v < TWO_TO_THE_63 then Some(v) else None
  }

  lemma {:induction false} DigitsOfItoa(n: nat)
    ensures |Itoa(n)| > 0
    ensures forall c :: c in Itoa(n) ==> IsDigit(c)
    ensures ParseDigits(Itoa(n)) == Some(n)
  {
    if n < 10 {
    } else {
      DigitsOfItoa(n / 10);
      assert Itoa(n)[..|Itoa(n)| - 1] == Itoa(n / 10);
    }
  }

  lemma AtoiOfItoa(n: nat)
    requires n < TWO_TO_THE_63
    ensures Atoi(Itoa(n)) == Some(n)
  {
    DigitsOfItoa(n);
    assert Itoa(n)[0] in Itoa(n);
  }

  /** The digits are decimal, the most significant first. */
  lemma ItoaIsDecimal(n: nat)
    ensures n < 10 ==> Itoa(n) == ["0123456789"[n]]
    ensures n >= 10 ==> Itoa(n) == Itoa(n / 10) + ["0123456789"[n % 10]]
  {
  }

  predicate AllDigits(s: string) {
    forall c :: c in s ==> '0' <= c <= '9'
  }

  lemma AllDigitsOfParts(init: string, last: char)
    ensures AllDigits(init + [last]) <==> AllDigits(init) && '0' <= last <= '9'
  {
    var s := init + [last];
    assert last in s && forall c :: c in init ==> c in s;
  }

  lemma {:induction false} ParseDigitsIff(s: string)
    ensures ParseDigits(s).Some? <==> s != [] && AllDigits(s)
  {
    if s != [] {
      var init := s[..|s| - 1];
      assert s == init + [s[|s| - 1]];
      AllDigitsOfParts(init, s[|s| - 1]);
      ParseDigitsIff(init);
    }
  }

  lemma AtoiOfPlain(n: nat)
    ensures Atoi(Itoa(n)) == if n < 0x8000_0000_0000_0000 then Some(n) else None
  {
    DigitsOfItoa(n);
    assert Itoa(n)[0] in Itoa(n);
  }

  lemma AtoiOfPlus(n: nat)
    ensures Atoi("+" + Itoa(n)) == if n < 0x8000_0000_0000_0000 then Some(n) else None
  {
    DigitsOfItoa(n);
    assert ("+" + Itoa(n))[1..] == Itoa(n);
  }

  lemma AtoiOfMinus(n: nat)
    ensures Atoi("-" + Itoa(n)) == if n <= 0x8000_0000_0000_0000 then Some(0 - n) else None
  {
    DigitsOfItoa(n);
    assert ("-" + Itoa(n))[1..] == Itoa(n);
  }

  /** Signs are read, and what does not fit in 64 bits is not a number. */
  lemma AtoiOfSigned(n: nat)
    ensures Atoi(Itoa(n)) == if n < 0x8000_0000_0000_0000 then Some(n) else None
    ensures Atoi("+" + Itoa(n)) == if n < 0x8000_0000_0000_0000 then Some(n) else None
    ensures Atoi("-" + Itoa(n)) == if n <= 0x8000_0000_0000_0000 then Some(0 - n) else None
  {
    AtoiOfPlain(n);
    AtoiOfPlus(n);
    AtoiOfMinus(n);
  }

  lemma AtoiNeedsDigits(s: string)
    ensures Atoi(s).Some? ==>
              var digits := if s != [] && (s[0] == '-' || s[0] == '+') then s[1..] else s;
              digits != [] && forall c :: c in digits ==> '0' <= c <= '9'
  {
    ParseDigitsIff(if s != [] && (s[0] == '-' || s[0] == '+') then s[1..] else s);
  }
}
