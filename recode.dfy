/** The "encoding fix" the collector applies to a note's text
    (noteschecker.py:108-111): `raw.encode('latin1').decode('utf-8')`.

    A text whose characters all lie below U+0100 is read as bytes, one per
    character, and those bytes are decoded as strict UTF-8. A character at or
    above U+0100 makes the encoding raise `UnicodeEncodeError`, which the
    collector catches and answers with the raw text. A byte sequence that is
    not UTF-8 makes the decoding raise `UnicodeDecodeError`, which that
    `except` does not catch. */
module Recode {
  import opened Wrappers

  /** `s.encode('latin1')` succeeds: every character is below U+0100. */
  predicate Latin1Encodable(s: string)
  {
    forall i :: 0 <= i < |s| ==> s[i] as int < 0x100
  }

  predicate IsAscii(s: string)
  {
    forall i :: 0 <= i < |s| ==> s[i] as int < 0x80
  }

  /** A UTF-8 continuation byte, `10xxxxxx`. */
  predicate IsCont(b: char)
  {
    0x80 <= b as int <= 0xBF
  }

  /** The second byte of a three-byte sequence: no overlong form after
      `E0`, no surrogate after `ED`. */
  predicate SecondOf3(lead: int, b: char)
  {
    if lead == 0xE0 then 0xA0 <= b as int <= 0xBF
    else if lead == 0xED then 0x80 <= b as int <= 0x9F
    else IsCont(b)
  }

  /** The second byte of a four-byte sequence: no overlong form after `F0`,
      nothing above U+10FFFF after `F4`. */
  predicate SecondOf4(lead: int, b: char)
  {
    if lead == 0xF0 then 0x90 <= b as int <= 0xBF
    else if lead == 0xF4 then 0x80 <= b as int <= 0x8F
    else IsCont(b)
  }

  function Prepend(c: char, r: Option<string>): Option<string>
  {
    match r
    case None => None
    case Some(t) => Some([c] + t)
  }

  /** `bytes.decode('utf-8')` in strict mode, over bytes given as the
      characters U+0000 to U+00FF; `None` is the `UnicodeDecodeError`. */
  function DecodeUtf8(b: string): Option<string>
    decreases |b|
  {
    if b == [] then Some([])
    else
      var b0 := b[0] as int;
      if b0 < 0x80 then Prepend(b[0], DecodeUtf8(b[1..]))
      else if 0xC2 <= b0 <= 0xDF && |b| >= 2 && IsCont(b[1]) then
        var cp := (b0 - 0xC0) * 0x40 + (b[1] as int - 0x80);
        Prepend(cp as char, DecodeUtf8(b[2..]))
      else if 0xE0 <= b0 <= 0xEF && |b| >= 3 && SecondOf3(b0, b[1]) && IsCont(b[2]) then
        var cp := (b0 - 0xE0) * 0x1000 + (b[1] as int - 0x80) * 0x40 + (b[2] as int - 0x80);
        Prepend(cp as char, DecodeUtf8(b[3..]))
      else if 0xF0 <= b0 <= 0xF4 && |b| >= 4 && SecondOf4(b0, b[1]) && IsCont(b[2]) && IsCont(b[3]) then
        var cp := (b0 - 0xF0) * 0x40000 + (b[1] as int - 0x80) * 0x1000
                  + (b[2] as int - 0x80) * 0x40 + (b[3] as int - 0x80);
        Prepend(cp as char, DecodeUtf8(b[4..]))
      else None
  }

  /** The notes text after the fix, before `strip()`: the decoded text, or
      the raw text when it cannot be encoded as Latin-1; `None` when the
      decoding raises. */
  function RecodeNotes(raw: string): (r: Option<string>)
    ensures !Latin1Encodable(raw) ==> r == Some(raw)
  {
    if Latin1Encodable(raw) then DecodeUtf8(raw) else Some(raw)
  }

  /** An ASCII prefix decodes to itself in front of whatever follows. */
  lemma {:induction false} AsciiPrefix(x: string, z: string)
    requires IsAscii(x)
    ensures DecodeUtf8(z).None? ==> DecodeUtf8(x + z).None?
    ensures DecodeUtf8(z).Some? ==> DecodeUtf8(x + z) == Some(x + DecodeUtf8(z).value)
    decreases |x|
  {
    if x == [] {
      assert x + z == z;
      if DecodeUtf8(z).Some? {
        assert x + DecodeUtf8(z).value == DecodeUtf8(z).value;
      }
    } else {
      var s := x + z;
      assert s[0] == x[0] && s[0] as int < 0x80;
      assert s[1..] == x[1..] + z;
      assert DecodeUtf8(s) == Prepend(x[0], DecodeUtf8(x[1..] + z));
      AsciiPrefix(x[1..], z);
      if DecodeUtf8(z).Some? {
        assert [x[0]] + (x[1..] + DecodeUtf8(z).value) == x + DecodeUtf8(z).value;
      }
    }
  }

  /** Plain ASCII notes pass through the fix unchanged. */
  lemma AsciiRecodes(raw: string)
    requires IsAscii(raw)
    ensures RecodeNotes(raw) == Some(raw)
  {
    AsciiPrefix(raw, []);
    assert raw + [] == raw;
  }

  /** A non-ASCII Latin-1 character between ASCII text, such as the `è` of
      `"Très bien"` or a lone no-break space, is not UTF-8: the decoding
      raises and the lesson is skipped. */
  lemma LoneLatin1Fails(x: string, c: char, y: string)
    requires IsAscii(x) && IsAscii(y) && 0x80 <= c as int < 0x100
    ensures RecodeNotes(x + [c] + y) == None
  {
    var s := x + [c] + y;
    assert Latin1Encodable(s) by {
      forall i | 0 <= i < |s|
        ensures s[i] as int < 0x100
      {
        if i < |x| {
          assert s[i] == x[i];
        } else if i > |x| {
          assert s[i] == y[i - |x| - 1];
        }
      }
    }
    var z := [c] + y;
    assert s == x + z;
    AsciiPrefix(x, z);
    assert z[0] == c;
    assert |z| >= 2 ==> z[1] == y[0];
  }

  // ---- the encoding the fix undoes ---------------------------------------

  /** `c.encode('utf-8')`, as one character per byte. */
  function EncodeChar(c: char): (b: string)
    ensures 1 <= |b| <= 4 && Latin1Encodable(b)
  {
    var cp := c as int;
    if cp < 0x80 then [c]
    else if cp < 0x800 then
      [(0xC0 + cp / 0x40) as char, (0x80 + cp % 0x40) as char]
    else if cp < 0x10000 then
      [(0xE0 + cp / 0x1000) as char, (0x80 + cp / 0x40 % 0x40) as char, (0x80 + cp % 0x40) as char]
    else
      [(0xF0 + cp / 0x40000) as char, (0x80 + cp / 0x1000 % 0x40) as char,
       (0x80 + cp / 0x40 % 0x40) as char, (0x80 + cp % 0x40) as char]
  }

  /** `s.encode('utf-8').decode('latin1')`: the text as it appears when
      UTF-8 bytes are shown as Latin-1 characters. */
  function EncodeUtf8(s: string): (b: string)
    ensures Latin1Encodable(b)
  {
    if s == [] then [] else EncodeChar(s[0]) + EncodeUtf8(s[1..])
  }

  /** One encoded character decodes back to itself. */
  lemma DecodeEncodeChar(c: char, rest: string)
    ensures DecodeUtf8(EncodeChar(c) + rest) == Prepend(c, DecodeUtf8(rest))
  {
    var cp := c as int;
    if cp < 0x80 {
      assert (EncodeChar(c) + rest)[1..] == rest;
    } else if cp < 0x800 {
      DecodeTwo(c, rest);
    } else if cp < 0x10000 {
      DecodeThree(c, rest);
    } else {
      DecodeFour(c, rest);
    }
  }

  lemma DecodeTwo(c: char, rest: string)
    requires 0x80 <= c as int < 0x800
    ensures DecodeUtf8(EncodeChar(c) + rest) == Prepend(c, DecodeUtf8(rest))
  {
    var cp := c as int;
    var hi, lo := cp / 0x40, cp % 0x40;
    assert cp == hi * 0x40 + lo && 2 <= hi < 0x20;
    var b := EncodeChar(c) + rest;
    assert b[0] as int == 0xC0 + hi && b[1] as int == 0x80 + lo && b[2..] == rest;
  }

  lemma DecodeThree(c: char, rest: string)
    requires 0x800 <= c as int < 0x10000
    ensures DecodeUtf8(EncodeChar(c) + rest) == Prepend(c, DecodeUtf8(rest))
  {
    var cp := c as int;
    var hi, q := cp / 0x1000, cp % 0x1000;
    var mid, lo := q / 0x40, q % 0x40;
    assert cp == hi * 0x1000 + q && q == mid * 0x40 + lo;
    assert cp / 0x40 % 0x40 == mid by {
      assert cp / 0x40 == hi * 0x40 + mid;
    }
    assert cp % 0x40 == lo;
    assert hi == 0 ==> mid >= 0x20;
    assert hi == 0xD ==> mid < 0x20;
    var b := EncodeChar(c) + rest;
    assert b[0] as int == 0xE0 + hi && b[1] as int == 0x80 + mid && b[2] as int == 0x80 + lo;
    assert b[3..] == rest;
  }

  lemma DecodeFour(c: char, rest: string)
    requires 0x10000 <= c as int
    ensures DecodeUtf8(EncodeChar(c) + rest) == Prepend(c, DecodeUtf8(rest))
  {
    var cp := c as int;
    var top, r1 := cp / 0x40000, cp % 0x40000;
    var hi, r2 := r1 / 0x1000, r1 % 0x1000;
    var mid, lo := r2 / 0x40, r2 % 0x40;
    assert cp == top * 0x40000 + r1 && r1 == hi * 0x1000 + r2 && r2 == mid * 0x40 + lo;
    assert cp / 0x1000 % 0x40 == hi by {
      assert cp / 0x1000 == top * 0x40 + hi;
    }
    assert cp / 0x40 % 0x40 == mid by {
      assert cp / 0x40 == top * 0x1000 + hi * 0x40 + mid;
    }
    assert cp % 0x40 == lo;
    assert top == 0 ==> hi >= 0x10;
    assert top == 4 ==> hi < 0x10;
    var b := EncodeChar(c) + rest;
    assert b[0] as int == 0xF0 + top && b[1] as int == 0x80 + hi;
    assert b[2] as int == 0x80 + mid && b[3] as int == 0x80 + lo;
    assert b[4..] == rest;
  }

  /** What the fix is for: text whose UTF-8 bytes were read as Latin-1 is
      given back as it was written. */
  lemma {:induction false} RecodeRepairs(s: string)
    ensures RecodeNotes(EncodeUtf8(s)) == Some(s)
  {
    DecodeEncode(s);
  }

  lemma {:induction false} DecodeEncode(s: string)
    ensures DecodeUtf8(EncodeUtf8(s)) == Some(s)
  {
    if s != [] {
      DecodeEncode(s[1..]);
      DecodeEncodeChar(s[0], EncodeUtf8(s[1..]));
      assert [s[0]] + s[1..] == s;
    }
  }

  // ---- the fix as its comment intends it ---------------------------------

  /** The re-decoding with the `UnicodeDecodeError` caught as well, falling
      back to the raw text as the `UnicodeEncodeError` branch does. */
  function RecodeNotesCaught(raw: string): (r: string)
    ensures RecodeNotes(raw).Some? ==> r == RecodeNotes(raw).value
  {
    match RecodeNotes(raw)
    case None => raw
    case Some(t) => t
  }

  /** With the decoding error caught, a lone Latin-1 character between
      ASCII text keeps the note as it was read instead of losing the lesson. */
  lemma CaughtKeepsLatin1(x: string, c: char, y: string)
    requires IsAscii(x) && IsAscii(y) && 0x80 <= c as int < 0x100
    ensures RecodeNotesCaught(x + [c] + y) == x + [c] + y
  {
    LoneLatin1Fails(x, c, y);
  }

  /** The corrected fix still repairs text whose UTF-8 bytes were read as
      Latin-1. */
  lemma CaughtRepairs(s: string)
    ensures RecodeNotesCaught(EncodeUtf8(s)) == s
  {
    RecodeRepairs(s);
  }
}
