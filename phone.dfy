/**
 * UK mobile number normalisation and validation (lib/utils.ts).
 *
 * Both operations first keep only the decimal digits of their input, then
 * recognise four shapes by length and prefix: 13 or 12 digits starting with
 * the country code `44` followed by `7`, 11 digits starting with the trunk
 * prefix `07`, and 10 digits starting with `7`. The formatter rewrites a
 * recognised number as `07xxx xxx xxx` (or `07xxx xxx xxxx`) and returns any
 * other input unchanged.
 */
module PhoneFormat {
  import opened Wrappers

  predicate IsDigit(c: char) {
    '0' <= c <= '9'
  }

  predicate AllDigits(s: string) {
    forall i :: 0 <= i < |s| ==> IsDigit(s[i])
  }

  /** `s.replace(/\D/g, '')`: the decimal digits of `s`, in their order. */
  function Digits(s: string): (d: string)
    ensures |d| <= |s|
  {
    if s == [] then []
    else if IsDigit(s[0]) then [s[0]] + Digits(s[1..])
    else Digits(s[1..])
  }

  /** `formatPhoneNumber`: the recognised shapes are tried as 13, 12, 11 then 10 digits. */
  function Format(phone: string): (r: string)
    ensures !IsValid(phone) ==> r == phone
  {
    if phone == "" then ""
    else
      var cleaned := Digits(phone);
      if |cleaned| == 13 && "447" <= cleaned then
        "0" + cleaned[2..6] + " " + cleaned[6..9] + " " + cleaned[9..13]
      else if |cleaned| == 12 && "447" <= cleaned then
        "0" + cleaned[2..6] + " " + cleaned[6..9] + " " + cleaned[9..12]
      else if |cleaned| == 11 && "07" <= cleaned then
        cleaned[0..5] + " " + cleaned[5..8] + " " + cleaned[8..11]
      else if |cleaned| == 10 && "7" <= cleaned then
        "0" + cleaned[0..4] + " " + cleaned[4..7] + " " + cleaned[7..10]
      else
        phone
  }

  /** `isValidPhoneNumber`: the same shapes, tried as 11, 12, 13 then 10 digits. */
  function IsValid(phone: string): (ok: bool)
    ensures ok <==> NationalNumber(Digits(phone)).Some?
  {
    if phone == "" then false
    else
      var cleaned := Digits(phone);
      (|cleaned| == 11 && "07" <= cleaned) ||
      (|cleaned| == 12 && "447" <= cleaned) ||
      (|cleaned| == 13 && "447" <= cleaned) ||
      (|cleaned| == 10 && "7" <= cleaned)
  }

  /**
   * Reference reading of a digit string as a UK mobile number: the
   * significant digits that follow the country code 44 or the trunk prefix 0
   * (or the whole string when neither is written). They must begin with 7 and
   * number ten, or eleven after 44.
   */
  function NationalNumber(d: string): Option<string> {
    if |d| >= 3 && d[..2] == "44" && (|d| - 2 == 10 || |d| - 2 == 11) && d[2] == '7' then Some(d[2..])
    else if |d| == 11 && d[0] == '0' && d[1] == '7' then Some(d[1..])
    else if |d| == 10 && d[0] == '7' then Some(d)
    else None
  }

  /** The display layout of significant digits `n`: `0` + 4 + space + 3 + space + rest. */
  function Layout(n: string): string
    requires |n| >= 7
  {
    "0" + n[..4] + " " + n[4..7] + " " + n[7..]
  }

  lemma EmptyInput()
    ensures Format("") == "" && !IsValid("")
  {
  }

  lemma {:induction false} DigitsAppend(a: string, b: string)
    ensures Digits(a + b) == Digits(a) + Digits(b)
  {
    if a == [] {
      assert a + b == b;
    } else {
      assert (a + b)[0] == a[0];
      assert (a + b)[1..] == a[1..] + b;
      DigitsAppend(a[1..], b);
    }
  }

  /** A character other than `0`-`9` is dropped. */
  lemma DigitsDropsNonDigit(c: char)
    requires !IsDigit(c)
    ensures Digits([c]) == []
  {
  }

  lemma {:induction false} DigitsAreDigits(s: string)
    ensures AllDigits(Digits(s))
  {
    if s != [] {
      DigitsAreDigits(s[1..]);
    }
  }

  lemma {:induction false} DigitsOfDigits(s: string)
    requires AllDigits(s)
    ensures Digits(s) == s
  {
    if s != [] {
      DigitsOfDigits(s[1..]);
    }
  }

  /** The layout of a tail of `d`, written with slices of `d` itself. */
  lemma LayoutOfTail(d: string, o: int)
    requires 0 <= o && o + 7 <= |d|
    ensures Layout(d[o..]) == "0" + d[o..o + 4] + " " + d[o + 4..o + 7] + " " + d[o + 7..]
  {
    var n := d[o..];
    assert n[..4] == d[o..o + 4];
    assert n[4..7] == d[o + 4..o + 7];
    assert n[7..] == d[o + 7..];
  }

  /** A recognised number is formatted as the layout of its significant digits. */
  lemma FormatIsLayout(p: string)
    requires IsValid(p)
    ensures var n := NationalNumber(Digits(p)).value;
      (|n| == 10 || |n| == 11) && n[0] == '7' && AllDigits(n) &&
      n == Digits(p)[|Digits(p)| - |n|..] &&
      Format(p) == Layout(n)
  {
    var d := Digits(p);
    DigitsAreDigits(p);
    if |d| >= 12 {
      assert NationalNumber(d) == Some(d[2..]);
      LayoutOfTail(d, 2);
      assert d[9..|d|] == d[9..];
    } else if |d| == 11 {
      assert NationalNumber(d) == Some(d[1..]);
      LayoutOfTail(d, 1);
      assert d[0..5] == "0" + d[1..5] by {
        assert d[0] == '0';
      }
      assert d[8..11] == d[8..];
    } else {
      assert NationalNumber(d) == Some(d[0..]);
      LayoutOfTail(d, 0);
      assert d[7..10] == d[7..];
    }
  }

  /** Appending a space adds no digit. */
  lemma DigitsSpace(x: string)
    ensures Digits(x + " ") == Digits(x)
  {
    DigitsAppend(x, " ");
    assert Digits(" ") == [];
  }

  /** Appending digits adds them all. */
  lemma DigitsExtend(x: string, a: string)
    requires AllDigits(a)
    ensures Digits(x + a) == Digits(x) + a
  {
    DigitsAppend(x, a);
    DigitsOfDigits(a);
  }

  lemma GroupsDigits(a: string, b: string, c: string)
    requires AllDigits(a) && AllDigits(b) && AllDigits(c)
    ensures Digits("0" + a + " " + b + " " + c) == "0" + a + b + c
  {
    var x1 := "0" + a;
    assert Digits(x1) == "0" + a by {
      DigitsOfDigits("0");
      DigitsExtend("0", a);
    }
    var x3 := x1 + " " + b;
    assert Digits(x3) == "0" + a + b by {
      DigitsSpace(x1);
      DigitsExtend(x1 + " ", b);
    }
    assert Digits(x3 + " " + c) == "0" + a + b + c by {
      DigitsSpace(x3);
      DigitsExtend(x3 + " ", c);
    }
  }

  /** The digits of a layout are `0` followed by the significant digits. */
  lemma LayoutDigits(n: string)
    requires |n| >= 7 && AllDigits(n)
    ensures Digits(Layout(n)) == "0" + n
  {
    GroupsDigits(n[..4], n[4..7], n[7..]);
    assert n[..4] + n[4..7] + n[7..] == n;
  }

  /** Position by position, a layout is `0`, four digits, a space, three digits, a space, the rest. */
  lemma LayoutAt(n: string, i: int)
    requires |n| >= 7 && 0 <= i < |n| + 3
    ensures |Layout(n)| == |n| + 3
    ensures Layout(n)[i] == if i == 0 then '0' else if i < 5 then n[i - 1]
      else if i == 5 || i == 9 then ' ' else if i < 9 then n[i - 2] else n[i - 3]
  {
  }

  /**
   * A recognised number comes out beginning with `07`, with spaces exactly at
   * positions 5 and 9, digits everywhere else, and its digits are `0`
   * followed by the input's digits after the country or trunk prefix.
   */
  lemma ValidFormatShape(p: string)
    requires IsValid(p)
    ensures var r := Format(p);
      var n := NationalNumber(Digits(p)).value;
      |r| == |n| + 3 && r[..2] == "07" &&
      (forall i :: 0 <= i < |r| ==> (r[i] == ' ' <==> i == 5 || i == 9)) &&
      (forall i :: 0 <= i < |r| && i != 5 && i != 9 ==> IsDigit(r[i])) &&
      Digits(r) == "0" + n && n == Digits(p)[|Digits(p)| - |n|..]
  {
    FormatIsLayout(p);
    var n := NationalNumber(Digits(p)).value;
    var r := Format(p);
    LayoutDigits(n);
    forall i | 0 <= i < |r|
      ensures r[i] == ' ' <==> i == 5 || i == 9
      ensures i != 5 && i != 9 ==> IsDigit(r[i])
    {
      LayoutAt(n, i);
    }
    LayoutAt(n, 0);
    LayoutAt(n, 1);
  }

  /** Both operations see only the digits of their input. */
  lemma DependsOnlyOnDigits(p: string, q: string)
    requires Digits(p) == Digits(q)
    ensures IsValid(p) == IsValid(q)
    ensures IsValid(p) ==> Format(p) == Format(q)
  {
  }

  /** Formatting an already formatted number changes nothing. */
  lemma {:induction false} FormatIdempotent(p: string)
    ensures Format(Format(p)) == Format(p)
  {
    if IsValid(p) {
      ValidFormatShape(p);
      var n := NationalNumber(Digits(p)).value;
      var r := Format(p);
      var d := Digits(r);
      assert d == "0" + n;
      if |n| == 11 {
        assert d[0] == '0';
        assert Format(r) == r;
      } else {
        FormatIsLayout(p);
        assert |d| == 11 && d[..2] == "07";
        assert d[0..5] == "0" + n[..4] && d[5..8] == n[4..7] && d[8..11] == n[7..];
      }
    }
  }

  /**
   * A recognised number stays recognised after formatting, except in the
   * 13-digit `447` shape: its 4-digit last group leaves twelve digits
   * starting with `07`, which no shape accepts.
   */
  lemma FormatKeepsValidity(p: string)
    requires IsValid(p)
    ensures IsValid(Format(p)) <==> |Digits(p)| != 13
  {
    ValidFormatShape(p);
    var n := NationalNumber(Digits(p)).value;
    var d := Digits(Format(p));
    assert d == "0" + n;
    assert |n| == 11 <==> |Digits(p)| == 13;
    if |n| == 10 {
      assert d[0] == '0' && d[1] == '7';
    }
  }
}
