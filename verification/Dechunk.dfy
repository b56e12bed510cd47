/** Reading a body in the chunked transfer coding (section 7.1 of RFC 9112). */
module Dechunk {
  import opened Text
  import opened DotenvSyntax

  /** A byte is the character with its number. */
  type Bytes = string

  const CRLF := "\r\n"

  /** The first CR LF at `from` or later, or the end. */
  function LineEndFrom(b: Bytes, from: nat): (n: nat)
    requires from <= |b|
    ensures from <= n <= |b|
    ensures n < |b| ==> n + 1 < |b| && b[n] == '\r' && b[n + 1] == '\n'
    ensures forall k | from <= k < n && k + 1 < |b| :: b[k] == '\r' ==> b[k + 1] != '\n'
    decreases |b| - from
  {
    if from == |b| || (from + 1 < |b| && b[from] == '\r' && b[from + 1] == '\n') then from else LineEndFrom(b, from + 1)
  }

  // ---- the size line ---------------------------------------------------------------------------------------------

  predicate HexDigit(c: char) { '0' <= c <= '9' || 'a' <= c <= 'f' || 'A' <= c <= 'F' }

  function DigitValue(c: char): nat
    requires HexDigit(c)
  {
    if c <= '9' then c as nat - '0' as nat
    else if c <= 'F' then c as nat - 'A' as nat + 10
    else c as nat - 'a' as nat + 10
  }

  predicate HexNumber(s: string) { s != [] && forall c | c in s :: HexDigit(c) }

  function HexValue(s: string): nat
    requires forall c | c in s :: HexDigit(c)
    decreases |s|
  {
    if s == [] then 0 else 16 * HexValue(s[..|s| - 1]) + DigitValue(s[|s| - 1])
  }

  /** The size a line stands for: hexadecimal digits, with a plus sign or not and white space around or not; anything
      else, and a number that does not fit, counts as 0. */
  function SizeOf(line: string, max: nat): nat {
    var t := Trim(HubSpace, line);
    var digits := if t != [] && t[0] == '+' then t[1..] else t;
    if HexNumber(digits) && HexValue(digits) <= max then HexValue(digits) else 0
  }

  /** How the size of a line of bytes is read; `lossy` turns the bytes into text. */
  function Reader(lossy: Bytes -> string, max: nat): Bytes -> nat { line => SizeOf(lossy(line), max) }

  // ---- the body --------------------------------------------------------------------------------------------------

  /** `data` and then what follows, if that can be had. */
  function Then(data: Bytes, more: Option<Bytes>): Option<Bytes> {
    match more
    case None => None
    case Some(d) => Some(data + d)
  }

  lemma ThenThen(a: Bytes, b: Bytes, more: Option<Bytes>)
    ensures Then(a, Then(b, more)) == Then(a + b, more) && Then([], more) == more && Then(a, Some([])) == Some(a)
  {
    if more.Some? {
      assert a + (b + more.value) == a + b + more.value && [] + more.value == more.value;
    }
    assert a + [] == a;
  }

  /** One turn of the loop: it is the last one, or an offset overflows, or the data of a chunk were taken and the
      loop goes on at `next`. */
  datatype Turn = Last(data: Bytes) | Overflow | More(data: Bytes, next: nat)

  /** The turn at offset `i`. `read` reads a size line, and `max` is the largest offset. */
  function TurnAt(b: Bytes, i: nat, read: Bytes -> nat, max: nat): (t: Turn)
    requires i <= |b|
    ensures t.More? ==> i < t.next < |b|
  {
    var n := LineEndFrom(b, i);
    if n == |b| then Last([])
    else
      var j, size := n + 2, read(b[i..n]);
      if size == 0 then Last([])
      else if j + size > max then Overflow
      else if j + size > |b| then Last([])
      else if j + size + 2 >= |b| then Last(b[j..j + size])
      else More(b[j..j + size], j + size + 2)
  }

  /** The decoded body from offset `i` on, or nothing when an offset overflows: then the program stops. */
  function Decoded(b: Bytes, i: nat, read: Bytes -> nat, max: nat): Option<Bytes>
    requires i <= |b|
    decreases |b| - i
  {
    match TurnAt(b, i, read, max)
    case Last(data) => Some(data)
    case Overflow => None
    case More(data, next) => Then(data, Decoded(b, next, read, max))
  }

  method OneTurn(b: Bytes, i: nat, read: Bytes -> nat, max: nat) returns (t: Turn)
    requires i <= |b|
    ensures t == TurnAt(b, i, read, max)
  {
    var n := LineEndFrom(b, i);
    if n == |b| { return Last([]); }
    var size, j := read(b[i..n]), n + 2;
    if size == 0 { return Last([]); }
    if j + size > max { return Overflow; }
    if j + size > |b| { return Last([]); }
    if j + size + 2 >= |b| { return Last(b[j..j + size]); }
    return More(b[j..j + size], j + size + 2);
  }

  /** `None` stands for the stop at an offset that overflows. */
  method Dechunked(b: Bytes, read: Bytes -> nat, max: nat) returns (r: Option<Bytes>)
    ensures r == Decoded(b, 0, read, max)
  {
    var out: Bytes, i := [], 0;
    var t := OneTurn(b, 0, read, max);
    ghost var all := Decoded(b, 0, read, max);
    ThenThen([], [], all);
    while t.More?
      invariant 0 <= i <= |b| && t == TurnAt(b, i, read, max)
      invariant Then(out, Decoded(b, i, read, max)) == all
      decreases |b| - i
    {
      ThenThen(out, t.data, Decoded(b, t.next, read, max));
      out, i := out + t.data, t.next;
      t := OneTurn(b, i, read, max);
    }
    r := if t.Last? then Some(out + t.data) else None;
  }

  // ---- the coding ------------------------------------------------------------------------------------------------

  /** Decoding leaves ASCII text as it is. */
  ghost predicate KeepsAscii(lossy: Bytes -> string) {
    forall s: string | (forall c | c in s :: c < '\U{80}') :: lossy(s) == s
  }

  /** A chunk without extensions: its size in any hexadecimal digits, and its data. */
  datatype Chunk = Chunk(size: string, data: Bytes)

  predicate GoodChunk(c: Chunk) { c.data != [] && HexNumber(c.size) && HexValue(c.size) == |c.data| }

  /** Its size line is read as the size. */
  predicate Fits(c: Chunk, read: Bytes -> nat) {
    c.data != [] && '\r' !in c.size && read(c.size) == |c.data|
  }

  function SizeLine(c: Chunk): (l: Bytes)
    ensures |l| == |c.size| + 2
  {
    c.size + CRLF
  }

  function Encoded(chunks: seq<Chunk>): Bytes
    decreases |chunks|
  {
    if chunks == [] then [] else SizeLine(chunks[0]) + chunks[0].data + CRLF + Encoded(chunks[1..])
  }

  function DataOf(chunks: seq<Chunk>): Bytes
    decreases |chunks|
  {
    if chunks == [] then [] else chunks[0].data + DataOf(chunks[1..])
  }

  // ---- round trip ------------------------------------------------------------------------------------------------

  lemma SizeReads(s: string, max: nat)
    requires HexNumber(s) && HexValue(s) <= max
    ensures SizeOf(s, max) == HexValue(s)
  {
    assert HexDigit(s[0]) && HexDigit(s[|s| - 1]);
    TrimmedIsFixed(HubSpace, s);
  }

  lemma GoodFits(c: Chunk, lossy: Bytes -> string, max: nat)
    requires GoodChunk(c) && |c.data| <= max && KeepsAscii(lossy)
    ensures Fits(c, Reader(lossy, max))
  {
    SizeReads(c.size, max);
    assert lossy(c.size) == c.size;
    assert forall k | 0 <= k < |c.size| :: HexDigit(c.size[k]);
  }

  lemma AllFit(chunks: seq<Chunk>, lossy: Bytes -> string, max: nat)
    requires (forall c | c in chunks :: GoodChunk(c)) && |Encoded(chunks)| <= max && KeepsAscii(lossy)
    ensures forall c | c in chunks :: Fits(c, Reader(lossy, max))
  {
    forall c | c in chunks ensures Fits(c, Reader(lossy, max)) {
      NoLonger(chunks, c);
      GoodFits(c, lossy, max);
    }
  }

  lemma {:induction false} NoLonger(chunks: seq<Chunk>, c: Chunk)
    requires c in chunks
    ensures |c.data| <= |Encoded(chunks)|
    decreases |chunks|
  {
    if chunks[0] != c { NoLonger(chunks[1..], c); }
  }

  /** `s` stands at offset `i`. */
  predicate At(b: Bytes, i: nat, s: Bytes) { i + |s| <= |b| && b[i..i + |s|] == s }

  lemma AtBoth(b: Bytes, i: nat, s: Bytes, t: Bytes)
    ensures At(b, i, s + t) <==> At(b, i, s) && At(b, i + |s|, t)
  {
    if i + |s| + |t| <= |b| {
      var st := b[i..i + |s| + |t|];
      assert st == b[i..i + |s|] + b[i + |s|..i + |s| + |t|];
      if st == s + t { assert st[..|s|] == s && st[|s|..] == t; }
    }
  }

  lemma LineEndsAt(b: Bytes, i: nat, line: Bytes)
    requires '\r' !in line && At(b, i, line + CRLF)
    ensures i <= |b| && LineEndFrom(b, i) == i + |line| < |b| && b[i..i + |line|] == line
  {
    AtBoth(b, i, line, CRLF);
    assert b[i + |line|..i + |line| + 2] == CRLF;
    assert b[i + |line|] == '\r' && b[i + |line| + 1] == '\n';
    assert forall k | i <= k < i + |line| :: b[k] == line[k - i];
  }

  /** A size line and its data, and then what follows. */
  lemma ChunkAt(b: Bytes, i: nat, c: Chunk, read: Bytes -> nat, max: nat)
    requires Fits(c, read) && At(b, i, SizeLine(c) + c.data) && i + |SizeLine(c)| + |c.data| <= max
    ensures var end := i + |SizeLine(c)| + |c.data|;
      Decoded(b, i, read, max) == if end + 2 >= |b| then Some(c.data) else Then(c.data, Decoded(b, end + 2, read, max))
  {
    AtBoth(b, i, SizeLine(c), c.data);
    LineEndsAt(b, i, c.size);
  }

  /** Whole chunks, and then what follows. */
  lemma {:induction false} ChunksAt(b: Bytes, i: nat, chunks: seq<Chunk>, end: nat, read: Bytes -> nat, max: nat,
                                    d: Option<Bytes>)
    requires forall c | c in chunks :: Fits(c, read)
    requires At(b, i, Encoded(chunks)) && i + |Encoded(chunks)| == end <= |b| && end <= max
    requires d == Decoded(b, end, read, max)
    ensures Decoded(b, i, read, max) == Then(DataOf(chunks), d)
    decreases |chunks|
  {
    ThenThen([], [], d);
    if chunks != [] {
      EncodedAt(b, i, chunks);
      var next := i + |SizeLine(chunks[0])| + |chunks[0].data| + 2;
      ChunksAt(b, next, chunks[1..], end, read, max, d);
      FirstAt(b, i, chunks[0], next, DataOf(chunks[1..]), read, max, d);
    }
  }

  /** Encoded chunks at an offset: the first one there, the others after it. */
  lemma EncodedAt(b: Bytes, i: nat, chunks: seq<Chunk>)
    requires chunks != [] && At(b, i, Encoded(chunks))
    ensures var size := |SizeLine(chunks[0])| + |chunks[0].data| + 2;
      && At(b, i, SizeLine(chunks[0]) + chunks[0].data) && At(b, i + size, Encoded(chunks[1..]))
      && |Encoded(chunks)| == size + |Encoded(chunks[1..])|
  {
    AtBoth(b, i, SizeLine(chunks[0]) + chunks[0].data + CRLF, Encoded(chunks[1..]));
    AtBoth(b, i, SizeLine(chunks[0]) + chunks[0].data, CRLF);
  }

  lemma FirstAt(b: Bytes, i: nat, c: Chunk, next: nat, rest: Bytes, read: Bytes -> nat, max: nat, d: Option<Bytes>)
    requires Fits(c, read) && At(b, i, SizeLine(c) + c.data)
    requires next == i + |SizeLine(c)| + |c.data| + 2 <= |b| && next <= max
    requires Decoded(b, next, read, max) == Then(rest, d)
    ensures Decoded(b, i, read, max) == Then(c.data + rest, d)
  {
    ChunkAt(b, i, c, read, max);
    if next == |b| { AtEnd(b, c.data, read, max); }
    ThenThen(c.data, rest, d);
  }

  lemma AtEnd(b: Bytes, data: Bytes, read: Bytes -> nat, max: nat)
    ensures Then(data, Decoded(b, |b|, read, max)) == Some(data)
  {
    ThenThen(data, [], None);
  }

  lemma StartsWith(s: Bytes, t: Bytes)
    ensures At(s + t, 0, s) && At(s + t, |s|, t)
  {
  }

  /** A complete body gives back the data, whatever follows the last chunk. */
  lemma RoundTrip(chunks: seq<Chunk>, trailer: Bytes, lossy: Bytes -> string, max: nat)
    requires forall c | c in chunks :: GoodChunk(c)
    requires KeepsAscii(lossy) && |Encoded(chunks)| <= max
    ensures Decoded(Encoded(chunks) + ("0" + CRLF + trailer), 0, Reader(lossy, max), max) == Some(DataOf(chunks))
  {
    var b, read := Encoded(chunks) + ("0" + CRLF + trailer), Reader(lossy, max);
    AllFit(chunks, lossy, max);
    StartsWith(Encoded(chunks), "0" + CRLF + trailer);
    AtBoth(b, |Encoded(chunks)|, "0" + CRLF, trailer);
    LastAt(b, |Encoded(chunks)|, lossy, max);
    ChunksAt(b, 0, chunks, |Encoded(chunks)|, read, max, Some([]));
    ThenThen(DataOf(chunks), [], None);
  }

  const LOWER := "0123456789abcdef"
  const UPPER := "0123456789ABCDEF"

  /** A number in base 16, without leading zeros. */
  function Hex(n: nat, digits: string): string
    requires digits == LOWER || digits == UPPER
    decreases n
  {
    if n < 16 then [digits[n]] else Hex(n / 16, digits) + [digits[n % 16]]
  }

  lemma DigitReads(n: nat, digits: string)
    requires n < 16 && (digits == LOWER || digits == UPPER)
    ensures HexDigit(digits[n]) && DigitValue(digits[n]) == n
  {
  }

  lemma {:induction false} HexReads(n: nat, digits: string)
    requires digits == LOWER || digits == UPPER
    ensures HexNumber(Hex(n, digits)) && HexValue(Hex(n, digits)) == n
    decreases n
  {
    if n < 16 {
      DigitReads(n, digits);
      assert [digits[n]][..0] == [];
    } else {
      HexReads(n / 16, digits);
      DigitReads(n % 16, digits);
      var front := Hex(n / 16, digits);
      assert (front + [digits[n % 16]])[..|front|] == front;
    }
  }

  /** Pieces of data as chunks, their sizes written in base 16. */
  function Pieces(data: seq<Bytes>, digits: string): (r: seq<Chunk>)
    requires digits == LOWER || digits == UPPER
    ensures |r| == |data| && forall k | 0 <= k < |r| :: r[k] == Chunk(Hex(|data[k]|, digits), data[k])
    decreases |data|
  {
    if data == [] then [] else [Chunk(Hex(|data[0]|, digits), data[0])] + Pieces(data[1..], digits)
  }

  function Concat(data: seq<Bytes>): Bytes
    decreases |data|
  {
    if data == [] then [] else data[0] + Concat(data[1..])
  }

  lemma {:induction false} PiecesHold(data: seq<Bytes>, digits: string)
    requires digits == LOWER || digits == UPPER
    ensures DataOf(Pieces(data, digits)) == Concat(data)
    decreases |data|
  {
    if data != [] {
      PiecesHold(data[1..], digits);
      assert Pieces(data, digits)[1..] == Pieces(data[1..], digits);
    }
  }

  /** Data sent piece by piece, each with its length in base 16 before it, come out as they were. */
  lemma SentIsDecoded(data: seq<Bytes>, digits: string, trailer: Bytes, lossy: Bytes -> string, max: nat)
    requires (digits == LOWER || digits == UPPER) && forall d | d in data :: d != []
    requires KeepsAscii(lossy) && |Encoded(Pieces(data, digits))| <= max
    ensures Decoded(Encoded(Pieces(data, digits)) + ("0" + CRLF + trailer), 0, Reader(lossy, max), max) ==
            Some(Concat(data))
  {
    var chunks := Pieces(data, digits);
    forall c | c in chunks ensures GoodChunk(c) {
      var k :| 0 <= k < |chunks| && chunks[k] == c;
      assert data[k] in data;
      HexReads(|data[k]|, digits);
    }
    PiecesHold(data, digits);
    RoundTrip(chunks, trailer, lossy, max);
  }

  /** The digits of a size line are not hexadecimal, as with an extension. */
  predicate NoSize(line: string) {
    var t := Trim(HubSpace, line);
    !HexNumber(if t != [] && t[0] == '+' then t[1..] else t)
  }

  lemma NoSizeAt(b: Bytes, i: nat, line: Bytes, lossy: Bytes -> string, max: nat)
    requires '\r' !in line && NoSize(lossy(line)) && At(b, i, line + CRLF)
    ensures Decoded(b, i, Reader(lossy, max), max) == Some([])
  {
    LineEndsAt(b, i, line);
  }

  /** A size line without a size ends the body: what came before it is the data. */
  lemma NoSizeEnds(chunks: seq<Chunk>, line: Bytes, more: Bytes, lossy: Bytes -> string, max: nat)
    requires (forall c | c in chunks :: GoodChunk(c)) && KeepsAscii(lossy) && |Encoded(chunks)| <= max
    requires '\r' !in line && NoSize(lossy(line))
    ensures Decoded(Encoded(chunks) + (line + CRLF + more), 0, Reader(lossy, max), max) == Some(DataOf(chunks))
  {
    var b, n := Encoded(chunks) + (line + CRLF + more), |Encoded(chunks)|;
    AllFit(chunks, lossy, max);
    StartsWith(Encoded(chunks), line + CRLF + more);
    AtBoth(b, n, line + CRLF, more);
    NoSizeAt(b, n, line, lossy, max);
    ChunksAt(b, 0, chunks, n, Reader(lossy, max), max, Some([]));
    ThenThen(DataOf(chunks), [], None);
  }

  /** Without a size, or without all its data, a line is the last. */
  lemma AskedAt(b: Bytes, i: nat, line: Bytes, read: Bytes -> nat, max: nat)
    requires '\r' !in line && At(b, i, line + CRLF) && (read(line) == 0 || i + |line| + 2 + read(line) > |b|)
    ensures Decoded(b, i, read, max) ==
            if read(line) > 0 && i + |line| + 2 + read(line) > max then None else Some([])
  {
    LineEndsAt(b, i, line);
  }

  lemma HexLine(size: Bytes)
    requires HexNumber(size)
    ensures '\r' !in size && Trim(HubSpace, size) == size && size[0] != '+'
  {
    assert HexDigit(size[0]) && HexDigit(size[|size| - 1]);
    TrimmedIsFixed(HubSpace, size);
    assert !HexDigit('\r');
  }

  lemma SizeRead(size: Bytes, lossy: Bytes -> string, max: nat)
    requires HexNumber(size) && lossy(size) == size
    ensures Reader(lossy, max)(size) == if HexValue(size) <= max then HexValue(size) else 0
  {
    HexLine(size);
  }

  /** A size of more than there is ends the body, and what came before is the data; but the program stops if it is a
      number that fits while the offset after the data does not. */
  lemma TooMuchAsked(chunks: seq<Chunk>, size: Bytes, more: Bytes, lossy: Bytes -> string, max: nat)
    requires (forall c | c in chunks :: GoodChunk(c)) && KeepsAscii(lossy) && |Encoded(chunks)| <= max
    requires HexNumber(size) && HexValue(size) > |more|
    ensures Decoded(Encoded(chunks) + (size + CRLF + more), 0, Reader(lossy, max), max) ==
            if HexValue(size) <= max < |Encoded(chunks)| + |size| + 2 + HexValue(size) then None
            else Some(DataOf(chunks))
  {
    var b, n := Encoded(chunks) + (size + CRLF + more), |Encoded(chunks)|;
    AllFit(chunks, lossy, max);
    StartsWith(Encoded(chunks), size + CRLF + more);
    AtBoth(b, n, size + CRLF, more);
    assert lossy(size) == size;
    HexLine(size);
    SizeRead(size, lossy, max);
    AskedAt(b, n, size, Reader(lossy, max), max);
    ChunksAt(b, 0, chunks, n, Reader(lossy, max), max, Decoded(b, n, Reader(lossy, max), max));
    ThenThen(DataOf(chunks), [], None);
  }

  /** A size may have a plus sign before it and white space around. */
  lemma SizeInPadding(before: string, plus: bool, size: string, after: string, max: nat)
    requires HexNumber(size) && HexValue(size) <= max
    requires (forall c | c in before :: HubSpace(c)) && (forall c | c in after :: HubSpace(c))
    ensures SizeOf(before + (if plus then "+" + size else size) + after, max) == HexValue(size)
  {
    var t := if plus then "+" + size else size;
    assert HexDigit(size[0]) && HexDigit(size[|size| - 1]);
    assert t[|t| - 1] == size[|size| - 1] && t[0] == if plus then '+' else size[0];
    Unpadded(before, t, after);
    if plus { assert t[1..] == size; }
  }

  lemma Unpadded(before: string, t: string, after: string)
    requires t != [] && !HubSpace(t[0]) && !HubSpace(t[|t| - 1])
    requires (forall c | c in before :: HubSpace(c)) && (forall c | c in after :: HubSpace(c))
    ensures Trim(HubSpace, before + t + after) == t
  {
    var s := before + t + after;
    var i := SkipFrom(HubSpace, s, 0);
    assert s[|before|] == t[0];
    assert i == |before| && s[i..] == t + after;
    var k := SkipBack(HubSpace, t + after, |t + after|);
    assert (t + after)[|t| - 1] == t[|t| - 1];
    assert k == |t| && (t + after)[..k] == t;
  }

  lemma LastAt(b: Bytes, i: nat, lossy: Bytes -> string, max: nat)
    requires KeepsAscii(lossy) && At(b, i, "0" + CRLF)
    ensures Decoded(b, i, Reader(lossy, max), max) == Some([])
  {
    LineEndsAt(b, i, "0");
    assert "0"[..0] == [];
    SizeReads("0", max);
    assert lossy("0") == "0";
  }

  /** A body cut short gives the chunks before, and the one that is cut exactly if its data are all there. */
  lemma Truncated(chunks: seq<Chunk>, c: Chunk, cut: nat, lossy: Bytes -> string, max: nat)
    requires (forall c | c in chunks :: GoodChunk(c)) && GoodChunk(c) && KeepsAscii(lossy)
    requires cut <= |SizeLine(c)| + |c.data| + 2
    requires |Encoded(chunks)| + |SizeLine(c)| + |c.data| <= max
    ensures Decoded(Encoded(chunks) + (SizeLine(c) + (c.data + CRLF))[..cut], 0, Reader(lossy, max), max) ==
            Some(DataOf(chunks) + if cut >= |SizeLine(c)| + |c.data| then c.data else [])
  {
    var part := (SizeLine(c) + (c.data + CRLF))[..cut];
    AllFit(chunks, lossy, max);
    GoodFits(c, lossy, max);
    StartsWith(Encoded(chunks), part);
    PartAt(Encoded(chunks) + part, |Encoded(chunks)|, c, cut, part, Reader(lossy, max), max);
    ChunksAt(Encoded(chunks) + part, 0, chunks, |Encoded(chunks)|, Reader(lossy, max), max,
             Some(if cut >= |SizeLine(c)| + |c.data| then c.data else []));
  }

  /** So does a body cut short inside the line of the last chunk. */
  lemma TruncatedAtLast(chunks: seq<Chunk>, cut: nat, lossy: Bytes -> string, max: nat)
    requires (forall c | c in chunks :: GoodChunk(c)) && KeepsAscii(lossy)
    requires cut <= 3 && |Encoded(chunks)| <= max
    ensures Decoded(Encoded(chunks) + ("0" + CRLF)[..cut], 0, Reader(lossy, max), max) == Some(DataOf(chunks))
  {
    var part := ("0" + CRLF)[..cut];
    var b, n := Encoded(chunks) + part, |Encoded(chunks)|;
    AllFit(chunks, lossy, max);
    StartsWith(Encoded(chunks), part);
    if cut < 3 { NoLineAt(b, n, "0", cut); } else { LastAt(b, n, lossy, max); }
    ChunksAt(b, 0, chunks, n, Reader(lossy, max), max, Some([]));
    ThenThen(DataOf(chunks), [], None);
  }

  lemma PartAt(b: Bytes, i: nat, c: Chunk, cut: nat, part: Bytes, read: Bytes -> nat, max: nat)
    requires Fits(c, read) && cut <= |SizeLine(c)| + |c.data| + 2 && i + |SizeLine(c)| + |c.data| <= max
    requires part == (SizeLine(c) + (c.data + CRLF))[..cut] && |b| == i + cut && At(b, i, part)
    ensures Decoded(b, i, read, max) == Some(if cut >= |SizeLine(c)| + |c.data| then c.data else [])
  {
    var n := |SizeLine(c)|;
    if cut < n {
      assert part == SizeLine(c)[..cut];
      NoLineAt(b, i, c.size, cut);
    } else {
      var more := (c.data + CRLF)[..cut - n];
      assert part == SizeLine(c) + more;
      AtBoth(b, i, SizeLine(c), more);
      LineEndsAt(b, i, c.size);
      if cut >= n + |c.data| {
        assert more == c.data + more[|c.data|..] && part == SizeLine(c) + c.data + more[|c.data|..];
        AtBoth(b, i, SizeLine(c) + c.data, more[|c.data|..]);
        ChunkAt(b, i, c, read, max);
      }
    }
  }

  lemma NoLineAt(b: Bytes, i: nat, line: Bytes, cut: nat)
    requires '\r' !in line && cut < |line| + 2 && |b| == i + cut && At(b, i, (line + CRLF)[..cut])
    ensures LineEndFrom(b, i) == |b|
  {
    forall k | i <= k && k + 1 < |b| ensures b[k] != '\r' {
      assert b[i..][k - i] == (line + CRLF)[..cut][k - i];
    }
  }
}
