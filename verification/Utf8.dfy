/** The length that Rust's `str::len` counts, against the UTF-8 encoding of RFC 3629. */
module Utf8 {
  import opened Common

  function CharLength(c: char): nat {
    var code := c as int;
    if code < 0x80 then 1 else if code < 0x800 then 2 else if code < 0x1_0000 then 3 else 4
  }

  /** Bytes of the UTF-8 encoding. */
  function Utf8Length(s: string): nat {
    if s == [] then 0 else CharLength(s[0]) + Utf8Length(s[1..])
  }

  // ----- The encoding and its reader -----

  /** The continuation byte that holds the lowest six bits. */
  function Tail(bits: nat): nat {
    0x80 + bits % 0x40
  }

  function EncodeChar(c: char): seq<nat> {
    var code := c as int;
    if code <= 0x7F then [code]
    else if code <= 0x7FF then [0xC0 + code / 0x40, Tail(code)]
    else if code <= 0xFFFF then [0xE0 + code / 0x1000, Tail(code / 0x40), Tail(code)]
    else [0xF0 + code / 0x4_0000, Tail(code / 0x1000), Tail(code / 0x40), Tail(code)]
  }

  function Encode(s: string): seq<nat> {
    if s == [] then [] else EncodeChar(s[0]) + Encode(s[1..])
  }

  /** How many bytes the character has whose first byte this is. */
  function LengthByLead(lead: nat): nat {
    if lead < 0x80 then 1 else if lead < 0xE0 then 2 else if lead < 0xF0 then 3 else 4
  }

  /** The number in a character's bytes: the lead byte's bits, then six bits of each other byte. */
  function CodeOf(bytes: seq<nat>): nat
    requires bytes != [] && |bytes| == LengthByLead(bytes[0])
  {
    if |bytes| == 1 then bytes[0]
    else if |bytes| == 2 then bytes[0] % 0x20 * 0x40 + bytes[1] % 0x40
    else if |bytes| == 3 then bytes[0] % 0x10 * 0x1000 + bytes[1] % 0x40 * 0x40 + bytes[2] % 0x40
    else bytes[0] % 0x08 * 0x4_0000 + bytes[1] % 0x40 * 0x1000 + bytes[2] % 0x40 * 0x40 + bytes[3] % 0x40
  }

  /** The codes of the characters, read one after the other by their lead bytes. */
  function Codes(bytes: seq<nat>): seq<nat> {
    if bytes == [] || |bytes| < LengthByLead(bytes[0]) then []
    else
      var n := LengthByLead(bytes[0]);
      [CodeOf(bytes[..n])] + Codes(bytes[n..])
  }

  lemma {:induction false} TailBits(bits: nat)
    ensures Tail(bits) % 0x40 == bits % 0x40 && Tail(bits) < 0x100
  {
  }

  /** Six bits at a time: the quotients of the encoder are iterated divisions by 0x40. */
  lemma {:induction false} Sextets(code: nat)
    ensures code == code / 0x40 * 0x40 + code % 0x40
    ensures code == code / 0x1000 * 0x1000 + code / 0x40 % 0x40 * 0x40 + code % 0x40
    ensures code == code / 0x4_0000 * 0x4_0000 + code / 0x1000 % 0x40 * 0x1000 + code / 0x40 % 0x40 * 0x40 + code % 0x40
  {
    assert code / 0x40 / 0x40 == code / 0x1000;
    assert code / 0x1000 / 0x40 == code / 0x4_0000;
  }

  lemma {:induction false} Leads(q: nat)
    ensures q < 0x20 ==> (0xC0 + q) % 0x20 == q
    ensures q < 0x10 ==> (0xE0 + q) % 0x10 == q
    ensures q < 0x08 ==> (0xF0 + q) % 0x08 == q
  {
  }

  lemma {:induction false} EncodeCharReads(c: char)
    ensures |EncodeChar(c)| == CharLength(c) && LengthByLead(EncodeChar(c)[0]) == CharLength(c)
    ensures CodeOf(EncodeChar(c)) == c as int
    ensures forall b :: b in EncodeChar(c) ==> b < 0x100
  {
    var code := c as int;
    Sextets(code);
    TailBits(code);
    TailBits(code / 0x40);
    TailBits(code / 0x1000);
    if 0x7F < code <= 0x7FF {
      Leads(code / 0x40);
    } else if 0x7FF < code <= 0xFFFF {
      Leads(code / 0x1000);
    } else if 0xFFFF < code {
      Leads(code / 0x4_0000);
    }
  }

  /** The counted length is that of the encoding, which reads back as the same characters. */
  lemma {:induction false} LengthOfEncoding(s: string)
    ensures |Encode(s)| == Utf8Length(s)
    ensures forall b :: b in Encode(s) ==> b < 0x100
    ensures Codes(Encode(s)) == seq(|s|, k requires 0 <= k < |s| => s[k] as int)
  {
    if s != [] {
      LengthOfEncoding(s[1..]);
      EncodeCharReads(s[0]);
      var head, bytes, n := EncodeChar(s[0]), Encode(s), CharLength(s[0]);
      assert bytes[..n] == head && bytes[n..] == Encode(s[1..]);
    }
  }
}
