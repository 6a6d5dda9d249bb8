/** String helpers the model needs: ASCII lower-casing (`str.lower`), decimal
    rendering of identifiers in messages, reading integer numerals back, and splitting a storage path at '/'. */
module Text {
  import opened Basics

  function LowerChar(c: char): char {
    if 'A' <= c <= 'Z' then (c as int + 32) as char else c
  }

  /** `str.lower()` restricted to ASCII letters. */
  function Lower(s: string): (r: string)
    ensures |r| == |s|
    ensures forall i :: 0 <= i < |s| ==> r[i] == LowerChar(s[i])
  {
    seq(|s|, i requires 0 <= i < |s| => LowerChar(s[i]))
  }

  function DigitChar(d: nat): char
    requires d < 10
  {
    "0123456789"[d]
  }

  /** The decimal rendering of `n`, as an f-string renders a number. */
  function NatToString(n: nat): (r: string)
    ensures |r| >= 1
    ensures forall i :: 0 <= i < |r| ==> '0' <= r[i] <= '9'
  {
    if n < 10 then [DigitChar(n)] else NatToString(n / 10) + [DigitChar(n % 10)]
  }

  /** A run of ASCII decimal digits, possibly empty. */
  predicate Digits(s: string) {
    forall i :: 0 <= i < |s| ==> '0' <= s[i] <= '9'
  }

  /** The value of a run of decimal digits, most significant first. */
  function DigitsValue(s: string): nat
    requires Digits(s)
  {
    if |s| == 0 then 0 else 10 * DigitsValue(s[..|s| - 1]) + (s[|s| - 1] as int - '0' as int)
  }

  /** The value of an integer numeral as `Decimal(str)` reads it: an optional
      '+' or '-' followed by one or more ASCII digits; `None` for any other
      text. */
  function IntegerNumeral(s: string): (r: Option<int>)
    ensures r.Some? <==> ((|s| >= 1 && Digits(s)) || (|s| >= 2 && s[0] in "+-" && Digits(s[1..])))
    ensures r.Some? && s[0] == '-' ==> r.value <= 0
    ensures r.Some? && s[0] != '-' ==> r.value >= 0
  {
    if |s| >= 1 && Digits(s) then Some(DigitsValue(s))
    else if |s| >= 2 && s[0] == '+' && Digits(s[1..]) then Some(DigitsValue(s[1..]))
    else if |s| >= 2 && s[0] == '-' && Digits(s[1..]) then Some(-(DigitsValue(s[1..]) as int))
    else None
  }

  /** The decimal rendering of an integer, with a '-' for a negative one. */
  function IntToString(n: int): string {
    if n < 0 then "-" + NatToString(-n) else NatToString(n)
  }

  /** The character `DigitChar(d)` stands for the digit `d`. */
  lemma DigitCharValue(d: nat)
    requires d < 10
    ensures '0' <= DigitChar(d) <= '9' && DigitChar(d) as int - '0' as int == d
  {
    assert d == 0 || d == 1 || d == 2 || d == 3 || d == 4 || d == 5 || d == 6 || d == 7 || d == 8 || d == 9;
  }

  /** Appending a digit multiplies the value by ten and adds the digit. */
  lemma DigitsValueAppend(a: string, c: char)
    requires Digits(a) && '0' <= c <= '9'
    ensures Digits(a + [c]) && DigitsValue(a + [c]) == 10 * DigitsValue(a) + (c as int - '0' as int)
  {
    assert (a + [c])[..|a|] == a;
  }

  /** Reading back a rendered natural number gives the number. */
  lemma {:induction false} DigitsValueOfNatToString(n: nat)
    ensures Digits(NatToString(n)) && DigitsValue(NatToString(n)) == n
  {
    DigitCharValue(n % 10);
    if n >= 10 {
      DigitsValueOfNatToString(n / 10);
      DigitsValueAppend(NatToString(n / 10), DigitChar(n % 10));
    } else {
      assert NatToString(n) == [] + [DigitChar(n)];
      DigitsValueAppend([], DigitChar(n));
    }
  }

  /** A numeral made of digits only is read as their value. */
  lemma IntegerNumeralOfDigits(t: string)
    requires |t| >= 1 && Digits(t)
    ensures IntegerNumeral(t) == Some(DigitsValue(t) as int)
  {
  }

  /** A '-' before a run of digits negates their value. */
  lemma IntegerNumeralOfNegated(t: string)
    requires |t| >= 1 && Digits(t)
    ensures IntegerNumeral("-" + t) == Some(-(DigitsValue(t) as int))
  {
    var s := "-" + t;
    assert s[1..] == t;
    assert !Digits(s) by {
      assert s[0] == '-';
    }
  }

  /** Every rendered integer is a numeral whose value is that integer. */
  lemma IntegerNumeralOfIntToString(n: int)
    ensures IntegerNumeral(IntToString(n)) == Some(n)
  {
    var m: nat := if n < 0 then -n else n;
    var t := NatToString(m);
    DigitsValueOfNatToString(m);
    if n < 0 {
      assert IntToString(n) == "-" + t;
      IntegerNumeralOfNegated(t);
    } else {
      assert IntToString(n) == t;
      IntegerNumeralOfDigits(t);
    }
  }

  /** The pieces of `s` between occurrences of `sep`, like `s.split(sep)`. */
  function Split(s: string, sep: char): (r: seq<string>)
    ensures |r| >= 1
  {
    if |s| == 0 then [""]
    else
      var rest := Split(s[1..], sep);
      if s[0] == sep then [""] + rest else [[s[0]] + rest[0]] + rest[1..]
  }

  /** A piece without separator splits to itself. */
  lemma {:induction false} SplitPlain(a: string, sep: char)
    requires sep !in a
    ensures Split(a, sep) == [a]
  {
    if |a| > 0 {
      SplitPlain(a[1..], sep);
      assert [a[0]] + a[1..] == a;
    }
  }

  /** Splitting `a + sep + b` yields `a` followed by the pieces of `b`. */
  lemma {:induction false} SplitJoin(a: string, sep: char, b: string)
    requires sep !in a
    ensures Split(a + [sep] + b, sep) == [a] + Split(b, sep)
  {
    if |a| == 0 {
      assert a + [sep] + b == [sep] + b;
      assert ([sep] + b)[1..] == b;
    } else {
      SplitJoin(a[1..], sep, b);
      assert (a + [sep] + b)[1..] == a[1..] + [sep] + b;
      assert [a[0]] + a[1..] == a;
    }
  }

  /** `"{s0}/{s1}/.../{last}"`: the segments joined by '/', then the last part. */
  function JoinPath(segments: seq<string>, last: string): string {
    if segments == [] then last else segments[0] + "/" + JoinPath(segments[1..], last)
  }

  /** Splitting a joined path at '/' gives back its segments, when none of them
      holds a '/', followed by the pieces of the last part. */
  lemma {:induction false} SplitJoinPath(segments: seq<string>, last: string)
    requires forall i :: 0 <= i < |segments| ==> '/' !in segments[i]
    ensures Split(JoinPath(segments, last), '/') == segments + Split(last, '/')
  {
    if segments != [] {
      var a, rest := segments[0], segments[1..];
      var b := JoinPath(rest, last);
      assert forall i :: 0 <= i < |rest| ==> rest[i] == segments[i + 1];
      SplitJoinPath(rest, last);
      assert JoinPath(segments, last) == a + ['/'] + b;
      calc {
        Split(JoinPath(segments, last), '/');
        Split(a + ['/'] + b, '/');
        { SplitJoin(a, '/', b); }
        [a] + Split(b, '/');
        [a] + (rest + Split(last, '/'));
        { assert segments == [a] + rest; }
        segments + Split(last, '/');
      }
    }
  }

  /** A decimal rendering holds no '/'. */
  lemma NatToStringNoSlash(n: nat)
    ensures '/' !in NatToString(n)
  {
    var s := NatToString(n);
    forall i | 0 <= i < |s| ensures s[i] != '/' {
      assert '0' <= s[i] <= '9';
    }
  }
}
