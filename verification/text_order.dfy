/** The order ids are listed in: character by character, a shorter text before the longer ones it begins. */
module TextOrder {
  import opened Decimals
  import opened Wrappers

  predicate Less(a: string, b: string) {
    b != "" && (a == "" || a[0] < b[0] || (a[0] == b[0] && Less(a[1..], b[1..])))
  }

  lemma {:induction false} NotBelowItself(a: string)
    ensures !Less(a, a)
  {
    if a != "" { NotBelowItself(a[1..]); }
  }

  lemma {:induction false} OneOrTheOther(a: string, b: string)
    ensures a == b || Less(a, b) || Less(b, a)
    ensures !(Less(a, b) && Less(b, a))
  {
    if a != "" && b != "" && a[0] == b[0] {
      OneOrTheOther(a[1..], b[1..]);
      assert a == [a[0]] + a[1..] && b == [b[0]] + b[1..];
    }
  }

  lemma {:induction false} Transitive(a: string, b: string, c: string)
    requires Less(a, b) && Less(b, c)
    ensures Less(a, c)
  {
    if a != "" && a[0] == b[0] == c[0] { Transitive(a[1..], b[1..], c[1..]); }
  }

  lemma {:induction false} SameStart(start: string, a: string, b: string)
    ensures Less(start + a, start + b) <==> Less(a, b)
  {
    if start == "" {
      assert start + a == a && start + b == b;
    } else {
      SameStart(start[1..], a, b);
      assert (start + a)[1..] == start[1..] + a && (start + b)[1..] == start[1..] + b;
    }
  }

  // ---------------------------------------------------------------- a prefix as a range

  // The character after `c`, where there is one: none after the last code point, and the one after
  // U+D7FF is a surrogate, which no text can be stored with.
  function After(c: char): (next: Option<char>)
    ensures next.Some? ==> next.value as int == c as int + 1
  {
    var n := c as int + 1;
    if n < 0xD800 || 0xE000 <= n < 0x11_0000 then Some(n as char) else None
  }

  // Just past every text that begins with `prefix`.
  function UpperBound(prefix: string): Option<string>
    requires prefix != ""
  {
    var next :- After(prefix[|prefix| - 1]);
    Some(prefix[..|prefix| - 1] + [next])
  }

  predicate InRange(id: string, lo: string, hi: string) { !Less(id, lo) && Less(id, hi) }

  // The range scan finds exactly the texts that begin with the prefix.
  lemma {:induction false} RangeIsPrefix(prefix: string, id: string)
    requires prefix != "" && UpperBound(prefix).Some?
    ensures InRange(id, prefix, UpperBound(prefix).value) <==> prefix <= id
  {
    var hi := UpperBound(prefix).value;
    if id == "" {
    } else if |prefix| == 1 {
      assert prefix[..0] == "" && hi == [hi[0]] && hi[1..] == "" && prefix[1..] == "";
      assert id[0] as int < hi[0] as int <==> id[0] as int <= prefix[0] as int;
      assert !Less(id[1..], "");
    } else {
      var rest := prefix[1..];
      assert prefix[|prefix| - 1] == rest[|rest| - 1];
      assert hi == [prefix[0]] + UpperBound(rest).value;
      assert hi[1..] == UpperBound(rest).value;
      RangeIsPrefix(rest, id[1..]);
      assert prefix == [prefix[0]] + rest && id == [id[0]] + id[1..];
      assert prefix <= id <==> prefix[0] == id[0] && rest <= id[1..];
    }
  }

  ghost predicate ComesNext(c: char, d: char) { d as int == c as int + 1 }

  ghost predicate HasNext(c: char) { exists d :: ComesNext(c, d) }

  // It cannot be asked for a prefix whose last character none comes next to, which is exactly one that ends
  // in one of these two.
  lemma {:induction false} NoRangeFor(prefix: string)
    requires prefix != ""
    ensures UpperBound(prefix).None? <==> !HasNext(prefix[|prefix| - 1])
    ensures UpperBound(prefix).None? <==>
        prefix[|prefix| - 1] as int == 0xD7FF || prefix[|prefix| - 1] as int == 0x10_FFFF
  {
    var next := After(prefix[|prefix| - 1]);
    if next.Some? { assert ComesNext(prefix[|prefix| - 1], next.value); }
  }

  // ---------------------------------------------------------------- zero-padded numbers

  function Zeros(n: nat): string {
    if n == 0 then "" else "0" + Zeros(n - 1)
  }

  const WIDTH: nat := 6

  // {n:06d}
  function Padded(n: nat): string {
    var text := Decimal(n);
    if |text| >= WIDTH then text else Zeros(WIDTH - |text|) + text
  }

  function Power(w: nat): nat {
    if w == 0 then 1 else 10 * Power(w - 1)
  }

  // The last `w` digits of `n`.
  function Fixed(n: nat, w: nat): (text: string)
    ensures |text| == w
  {
    if w == 0 then "" else Fixed(n / 10, w - 1) + [Digit(n % 10)]
  }

  lemma {:induction false} FixedZero(w: nat)
    ensures Fixed(0, w) == Zeros(w)
  {
    if w > 0 {
      FixedZero(w - 1);
      ZerosEnd(w - 1);
    }
  }

  lemma {:induction false} ZerosEnd(w: nat)
    ensures Zeros(w) + "0" == Zeros(w + 1)
  {
    if w > 0 {
      ZerosEnd(w - 1);
      assert ("0" + Zeros(w - 1)) + "0" == "0" + (Zeros(w - 1) + "0");
    }
  }

  lemma {:induction false} ZerosCount(w: nat)
    ensures |Zeros(w)| == w
  {
    if w > 0 { ZerosCount(w - 1); }
  }

  lemma {:induction false} FixedIsPadded(n: nat, w: nat)
    requires n < Power(w) && w > 0
    ensures |Decimal(n)| <= w && Fixed(n, w) == Zeros(w - |Decimal(n)|) + Decimal(n)
  {
    if n < 10 {
      FixedZero(w - 1);
      assert n / 10 == 0 && n % 10 == n;
    } else {
      assert n / 10 < Power(w - 1);
      assert Power(1) == 10;
      FixedIsPadded(n / 10, w - 1);
      var zeros, front := Zeros(w - |Decimal(n)|), Decimal(n / 10);
      assert (zeros + front) + [Digit(n % 10)] == zeros + (front + [Digit(n % 10)]);
    }
  }

  lemma {:induction false} DigitsAscend(a: nat, b: nat)
    requires a < b < 10
    ensures Digit(a) < Digit(b)
  {
  }

  lemma {:induction false} LongerTexts(a: string, x: string, b: string, y: string)
    requires |a| == |b| && Less(a, b)
    ensures Less(a + x, b + y)
  {
    if a[0] == b[0] {
      LongerTexts(a[1..], x, b[1..], y);
      assert (a + x)[1..] == a[1..] + x && (b + y)[1..] == b[1..] + y;
    }
  }

  lemma {:induction false} FixedAscends(i: nat, j: nat, w: nat)
    requires i < j < Power(w)
    ensures Less(Fixed(i, w), Fixed(j, w))
  {
    var a, b, x, y := Fixed(i / 10, w - 1), Fixed(j / 10, w - 1), [Digit(i % 10)], [Digit(j % 10)];
    if i / 10 < j / 10 {
      FixedAscends(i / 10, j / 10, w - 1);
      LongerTexts(a, x, b, y);
    } else {
      assert i / 10 == j / 10 && i % 10 < j % 10;
      DigitsAscend(i % 10, j % 10);
      SameStart(a, x, y);
    }
  }

  const PADDED_UP_TO: nat := 1_000_000

  lemma {:induction false} SixDigits()
    ensures Power(WIDTH) == PADDED_UP_TO
  {
    assert Power(0) == 1 && Power(1) == 10 && Power(2) == 100;
    assert Power(3) == 1000 && Power(4) == 10000 && Power(5) == 100000;
  }

  lemma {:induction false} PaddedAscends(i: nat, j: nat)
    requires i < j < PADDED_UP_TO
    ensures Less(Padded(i), Padded(j))
  {
    SixDigits();
    FixedIsPadded(i, WIDTH);
    FixedIsPadded(j, WIDTH);
    PaddedIsFixed(i);
    PaddedIsFixed(j);
    FixedAscends(i, j, WIDTH);
  }

  lemma {:induction false} PaddedIsFixed(n: nat)
    requires n < PADDED_UP_TO
    ensures Padded(n) == Fixed(n, WIDTH)
  {
    SixDigits();
    FixedIsPadded(n, WIDTH);
    if |Decimal(n)| == WIDTH { assert Zeros(0) + Decimal(n) == Decimal(n); }
  }

  // Past six digits the order of the texts is no longer the order of the numbers.
  lemma {:induction false} AMillionComesTooEarly()
    ensures Less(Padded(PADDED_UP_TO), Padded(PADDED_UP_TO - 1))
  {
    var million, before := Decimal(1_000_000), Decimal(999_999);
    assert Decimal(10)[0] == '1' && Decimal(100)[0] == '1' && |Decimal(100)| == 3;
    assert Decimal(1000)[0] == '1' && Decimal(10000)[0] == '1' && |Decimal(10000)| == 5;
    assert Decimal(100000)[0] == '1' && million[0] == '1' && |million| == 7;
    assert Decimal(99)[0] == '9' && Decimal(999)[0] == '9' && |Decimal(999)| == 3;
    assert Decimal(9999)[0] == '9' && Decimal(99999)[0] == '9' && |Decimal(99999)| == 5;
    assert before[0] == '9' && |before| == 6;
  }

  // Padding loses nothing.
  lemma {:induction false} PaddedDiffer(a: nat, b: nat)
    requires Padded(a) == Padded(b)
    ensures a == b
  {
    PaddedReads(a);
    PaddedReads(b);
  }

  // The number a run of digits stands for.
  function Reading(text: string): nat {
    if text == "" then 0
    else 10 * Reading(text[..|text| - 1]) + DigitValue(text[|text| - 1])
  }

  function DigitValue(c: char): nat {
    if '0' <= c <= '9' then c as int - '0' as int else 0
  }

  lemma {:induction false} DecimalReads(n: nat)
    ensures Reading(Decimal(n)) == n
  {
    if n < 10 {
      assert Decimal(n)[..0] == "";
    } else {
      DecimalReads(n / 10);
      assert Decimal(n)[..|Decimal(n)| - 1] == Decimal(n / 10);
    }
  }

  lemma {:induction false} ZerosReadAway(n: nat, text: string)
    ensures Reading(Zeros(n) + text) == Reading(text)
  {
    if text == "" {
      if n > 0 {
        ZerosEnd(n - 1);
        assert (Zeros(n) + "")[..n - 1] == Zeros(n - 1) + "" by { ZerosCount(n - 1); ZerosCount(n); }
        ZerosReadAway(n - 1, "");
      }
    } else {
      var whole := Zeros(n) + text;
      assert whole[..|whole| - 1] == Zeros(n) + text[..|text| - 1];
      ZerosReadAway(n, text[..|text| - 1]);
    }
  }

  lemma {:induction false} PaddedReads(n: nat)
    ensures Reading(Padded(n)) == n
  {
    DecimalReads(n);
    if |Decimal(n)| < WIDTH { ZerosReadAway(WIDTH - |Decimal(n)|, Decimal(n)); }
  }
}
