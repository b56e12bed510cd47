/** The lengths of strings: bytes of their UTF-8 form (section 3 of RFC 3629) in the hub, UTF-16 code units (section 2.1
    of RFC 2781) in the browser. */
module Encodings {
  import opened Text
  import opened DotenvSyntax

  // ---- UTF-8 -----------------------------------------------------------------------------------------------------

  function Tail(n: nat): (b: nat)
    ensures 0x80 <= b < 0xC0
  {
    0x80 + n % 64
  }

  function Utf8(c: char): (bytes: seq<nat>)
    ensures forall b | b in bytes :: b < 256
  {
    var n := c as nat;
    if n < 0x80 then [n]
    else if n < 0x800 then [0xC0 + n / 64, Tail(n)]
    else if n < 0x1_0000 then [0xE0 + n / 4096, Tail(n / 64), Tail(n)]
    else [0xF0 + n / 262144, Tail(n / 4096), Tail(n / 64), Tail(n)]
  }

  /** How many bytes a lead byte announces. */
  function Announced(lead: nat): nat {
    if lead < 0x80 then 1 else if lead < 0xE0 then 2 else if lead < 0xF0 then 3 else 4
  }

  /** The number of the character that starts the bytes. */
  function Decoded(bytes: seq<nat>): Option<nat> {
    if bytes == [] || |bytes| < Announced(bytes[0]) || bytes[0] >= 0xF8 then None
    else
      var lead := bytes[0];
      match Announced(lead)
      case 1 => Some(lead)
      case 2 => if lead < 0xC0 || bytes[1] < 0x80 then None else Some((lead - 0xC0) * 64 + (bytes[1] - 0x80))
      case 3 =>
        if bytes[1] < 0x80 || bytes[2] < 0x80 then None
        else Some((lead - 0xE0) * 4096 + (bytes[1] - 0x80) * 64 + (bytes[2] - 0x80))
      case _ =>
        if bytes[1] < 0x80 || bytes[2] < 0x80 || bytes[3] < 0x80 then None
        else Some((lead - 0xF0) * 262144 + (bytes[1] - 0x80) * 4096 + (bytes[2] - 0x80) * 64 + (bytes[3] - 0x80))
  }

  lemma Groups(n: nat)
    ensures n == n / 64 * 64 + n % 64 && n / 64 == n / 4096 * 64 + n / 64 % 64
    ensures n / 4096 == n / 262144 * 64 + n / 4096 % 64
  {
    assert n / 4096 == n / 64 / 64 && n / 262144 == n / 4096 / 64;
  }

  /** The bytes of a character are as many as counted, announce that, and give the character back, whatever follows. */
  lemma Utf8IsRead(c: char, more: seq<nat>)
    ensures |Utf8(c)| == Utf8Len(c) == Announced(Utf8(c)[0])
    ensures Decoded(Utf8(c) + more) == Some(c as nat)
  {
    Groups(c as nat);
    var bytes := Utf8(c) + more;
    assert forall k | 0 <= k < |Utf8(c)| :: bytes[k] == Utf8(c)[k];
  }

  function Utf8All(s: string): seq<nat> { if s == [] then [] else Utf8(s[0]) + Utf8All(s[1..]) }

  /** What the hub counts are the bytes of the UTF-8 form. */
  lemma {:induction false} ByteLenIs(s: string)
    ensures |Utf8All(s)| == ByteLen(s)
  {
    if s != [] {
      Utf8IsRead(s[0], []);
      ByteLenIs(s[1..]);
    }
  }

  // ---- UTF-16 ----------------------------------------------------------------------------------------------------

  function Utf16(c: char): (units: seq<nat>)
    ensures forall u | u in units :: u < 0x1_0000
  {
    var n := c as nat;
    if n < 0x1_0000 then [n] else [0xD800 + (n - 0x1_0000) / 0x400, 0xDC00 + (n - 0x1_0000) % 0x400]
  }

  function FromUnits(units: seq<nat>): Option<nat> {
    if units == [] then None
    else if !(0xD800 <= units[0] < 0xDC00) then Some(units[0])
    else if |units| < 2 || units[1] < 0xDC00 then None
    else Some(0x1_0000 + (units[0] - 0xD800) * 0x400 + (units[1] - 0xDC00))
  }

  /** A character is one unit, or a pair of surrogates, and they give it back, whatever follows. */
  lemma Utf16IsRead(c: char, more: seq<nat>)
    ensures FromUnits(Utf16(c) + more) == Some(c as nat)
  {
    var n := c as nat;
    var units := Utf16(c) + more;
    assert forall k | 0 <= k < |Utf16(c)| :: units[k] == Utf16(c)[k];
    if n >= 0x1_0000 { assert n - 0x1_0000 == (n - 0x1_0000) / 0x400 * 0x400 + (n - 0x1_0000) % 0x400; }
  }

  function Utf16All(s: string): seq<nat> { if s == [] then [] else Utf16(s[0]) + Utf16All(s[1..]) }

  /** What the browser counts are UTF-16 code units. */
  lemma {:induction false} UnitLenIs(s: string)
    ensures |Utf16All(s)| == UnitLen(s)
  {
    if s != [] { UnitLenIs(s[1..]); }
  }
}
