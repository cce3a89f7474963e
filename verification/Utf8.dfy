/** Text as bytes, each character of a string standing for one: which bytes are UTF-8, and what runes they hold. */
module Utf8 {
  import opened Wrappers

  /** The first rune of a text, and the bytes it takes; nothing where the bytes are not UTF-8. */
  datatype Rune = Rune(code: nat, size: nat)

  predicate Continues(s: string, i: nat)
  {
    i < |s| && 0x80 <= s[i] as nat < 0xC0
  }

  function Low(c: char): nat
  {
    c as nat % 64
  }

  /** Code points a text may hold: surrogates are none. */
  predicate Scalar(code: nat)
  {
    code < 0xD800 || 0xE000 <= code < 0x11_0000
  }

  /** The shortest form of a code point decides its length, so that longer forms of it are refused. */
  function FirstRune(s: string): (r: Option<Rune>)
    ensures r.Some? ==> 1 <= r.value.size <= |s|
  {
    if s == "" then None
    else
      var b := s[0] as nat;
      if b < 0x80 then Some(Rune(b, 1))
      else if 0xC0 <= b < 0xE0 && Continues(s, 1) then Checked(b % 32 * 64 + Low(s[1]), 2, 0x80)
      else if 0xE0 <= b < 0xF0 && Continues(s, 1) && Continues(s, 2) then
        Checked((b % 16 * 64 + Low(s[1])) * 64 + Low(s[2]), 3, 0x800)
      else if 0xF0 <= b < 0xF8 && Continues(s, 1) && Continues(s, 2) && Continues(s, 3) then
        Checked(((b % 8 * 64 + Low(s[1])) * 64 + Low(s[2])) * 64 + Low(s[3]), 4, 0x1_0000)
      else None
  }

  function Checked(code: nat, size: nat, least: nat): Option<Rune>
  {
    if least <= code && Scalar(code) then Some(Rune(code, size)) else None
  }

  /** The bytes of a code point. */
  function Encode(code: nat): (s: string)
    requires Scalar(code)
    ensures 1 <= |s| <= 4
  {
    if code < 0x80 then [code as char]
    else if code < 0x800 then [Lead(0xC0, code / 64), Cont(code % 64)]
    else if code < 0x1_0000 then [Lead(0xE0, code / 0x1000), Cont(code / 64 % 64), Cont(code % 64)]
    else [Lead(0xF0, code / 0x4_0000), Cont(code / 0x1000 % 64), Cont(code / 64 % 64), Cont(code % 64)]
  }

  function Lead(mark: nat, high: nat): char
    requires mark + high < 256
  {
    (mark + high) as char
  }

  function Cont(low: nat): char
    requires low < 64
  {
    (0x80 + low) as char
  }

  lemma ContIsRead(s: string, i: nat, low: nat)
    requires low < 64 && i < |s| && s[i] == Cont(low)
    ensures Continues(s, i) && Low(s[i]) == low
  {}

  lemma TwoAreRead(h: nat, l: nat, rest: string)
    requires h < 32 && l < 64
    ensures FirstRune([Lead(0xC0, h), Cont(l)] + rest) == Checked(h * 64 + l, 2, 0x80)
  {
    var s := [Lead(0xC0, h), Cont(l)] + rest;
    assert s[0] == Lead(0xC0, h) && (0xC0 + h) % 32 == h;
    ContIsRead(s, 1, l);
    hide Low, Cont, Continues, Checked;
  }

  lemma ThreeAreRead(h: nat, m: nat, l: nat, rest: string)
    requires h < 16 && m < 64 && l < 64
    ensures FirstRune([Lead(0xE0, h), Cont(m), Cont(l)] + rest) == Checked((h * 64 + m) * 64 + l, 3, 0x800)
  {
    var s := [Lead(0xE0, h), Cont(m), Cont(l)] + rest;
    assert s[0] == Lead(0xE0, h) && (0xE0 + h) % 16 == h;
    ContIsRead(s, 1, m);
    ContIsRead(s, 2, l);
    hide Low, Cont, Continues, Checked;
  }

  lemma FourAreRead(h: nat, m: nat, k: nat, l: nat, rest: string)
    requires h < 8 && m < 64 && k < 64 && l < 64
    ensures FirstRune([Lead(0xF0, h), Cont(m), Cont(k), Cont(l)] + rest) ==
      Checked(((h * 64 + m) * 64 + k) * 64 + l, 4, 0x1_0000)
  {
    var s := [Lead(0xF0, h), Cont(m), Cont(k), Cont(l)] + rest;
    assert s[0] == Lead(0xF0, h) && (0xF0 + h) % 8 == h;
    ContIsRead(s, 1, m);
    ContIsRead(s, 2, k);
    ContIsRead(s, 3, l);
    hide Low, Cont, Continues, Checked;
  }

  /** A number is put together from its digits to the base 64. */
  lemma Rejoined(code: nat)
    ensures code / 64 * 64 + code % 64 == code
    ensures code / 0x1000 == code / 64 / 64 && code / 0x4_0000 == code / 64 / 64 / 64
  {}

  lemma ThreeRejoined(code: nat)
    ensures (code / 0x1000 * 64 + code / 64 % 64) * 64 + code % 64 == code
  {
    Rejoined(code);
    Rejoined(code / 64);
  }

  lemma FourRejoined(code: nat)
    ensures ((code / 0x4_0000 * 64 + code / 0x1000 % 64) * 64 + code / 64 % 64) * 64 + code % 64 == code
  {
    Rejoined(code);
    ThreeRejoined(code / 64);
    Rejoined(code / 64);
  }

  /** Every code point is read back from its bytes, whatever follows. */
  lemma EncodedIsRead(code: nat, rest: string)
    requires Scalar(code)
    ensures FirstRune(Encode(code) + rest) == Some(Rune(code, |Encode(code)|))
  {
    if 0x80 <= code < 0x800 {
      hide FirstRune, Scalar, Lead, Cont;
      Rejoined(code);
      TwoAreRead(code / 64, code % 64, rest);
    } else if 0x800 <= code < 0x1_0000 {
      hide FirstRune, Scalar, Lead, Cont;
      ThreeRejoined(code);
      ThreeAreRead(code / 0x1000, code / 64 % 64, code % 64, rest);
    } else if 0x1_0000 <= code {
      FourEncoded(code, rest);
    }
  }

  lemma FourEncoded(code: nat, rest: string)
    requires Scalar(code) && 0x1_0000 <= code
    ensures FirstRune(Encode(code) + rest) == Some(Rune(code, |Encode(code)|))
  {
    var h, m, k, l := code / 0x4_0000, code / 0x1000 % 64, code / 64 % 64, code % 64;
    FourRejoined(code);
    FourAreRead(h, m, k, l, rest);
    assert Encode(code) == [Lead(0xF0, h), Cont(m), Cont(k), Cont(l)];
    hide *;
  }

  lemma Digits(high: nat, low: nat)
    requires low < 64
    ensures (high * 64 + low) / 64 == high && (high * 64 + low) % 64 == low
  {}

  lemma LowOf(s: string, i: nat)
    requires Continues(s, i)
    ensures s[i] == Cont(Low(s[i]))
  {}

  /** What is read is its shortest form: no rune has a second spelling. */
  lemma ReadIsEncoded(s: string)
    requires FirstRune(s).Some?
    ensures var r := FirstRune(s).value; Scalar(r.code) && r.size <= |s| && Encode(r.code) == s[..r.size]
  {
    var r := FirstRune(s).value;
    if r.size == 2 {
      LowOf(s, 1);
      Digits(s[0] as nat % 32, Low(s[1]));
      assert s[..2] == [s[0], s[1]];
    } else if r.size == 3 {
      ThreeAreEncoded(s);
    } else if r.size == 4 {
      FourAreEncoded(s);
    }
  }

  lemma ThreeAreEncoded(s: string)
    requires FirstRune(s).Some? && FirstRune(s).value.size == 3
    ensures var r := FirstRune(s).value; Scalar(r.code) && 3 <= |s| && Encode(r.code) == s[..3]
  {
    var h, m, l := s[0] as nat % 16, Low(s[1]), Low(s[2]);
    assert s[0] == Lead(0xE0, h) && FirstRune(s).value.code == (h * 64 + m) * 64 + l;
    LowOf(s, 1);
    LowOf(s, 2);
    assert s[..3] == [s[0], s[1], s[2]];
    hide FirstRune, Lead, Cont, Low;
    ThreeDigits(h, m, l);
  }

  lemma FourAreEncoded(s: string)
    requires FirstRune(s).Some? && FirstRune(s).value.size == 4
    ensures var r := FirstRune(s).value; Scalar(r.code) && 4 <= |s| && Encode(r.code) == s[..4]
  {
    var h, m, k, l := s[0] as nat % 8, Low(s[1]), Low(s[2]), Low(s[3]);
    assert s[0] == Lead(0xF0, h) && FirstRune(s).value.code == ((h * 64 + m) * 64 + k) * 64 + l;
    LowOf(s, 1);
    LowOf(s, 2);
    LowOf(s, 3);
    assert s[..4] == [s[0], s[1], s[2], s[3]];
    hide FirstRune, Lead, Cont, Low;
    FourDigits(h, m, k, l);
  }

  lemma ThreeDigits(h: nat, m: nat, l: nat)
    requires m < 64 && l < 64
    ensures var c := (h * 64 + m) * 64 + l; c / 0x1000 == h && c / 64 % 64 == m && c % 64 == l
  {
    Digits(h * 64 + m, l);
    Digits(h, m);
  }

  lemma FourDigits(h: nat, m: nat, k: nat, l: nat)
    requires m < 64 && k < 64 && l < 64
    ensures var c := ((h * 64 + m) * 64 + k) * 64 + l;
      c / 0x4_0000 == h && c / 0x1000 % 64 == m && c / 64 % 64 == k && c % 64 == l
  {
    ThreeDigits(h * 64 + m, k, l);
    Digits(h, m);
  }

  /** Control characters are those below the space, the deletion and the thirty-two behind it. */
  predicate Control(code: nat)
  {
    code < 0x20 || 0x7F <= code < 0xA0
  }

  /** UTF-8 without control characters. */
  predicate PlainText(s: string)
  {
    s == "" ||
    (FirstRune(s).Some? && !Control(FirstRune(s).value.code) && PlainText(s[FirstRune(s).value.size..]))
  }

  /** Printable characters of one byte are plain text. */
  lemma {:induction false} AsciiIsPlain(s: string)
    requires forall c | c in s :: ' ' <= c < '\U{7f}'
    ensures PlainText(s)
  {
    if s != "" {
      assert s[0] in s;
      assert forall c | c in s[1..] :: c in s;
      AsciiIsPlain(s[1..]);
    }
  }
}
