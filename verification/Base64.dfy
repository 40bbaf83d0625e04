/**
 Base64 as files.go uses it: the padded alphabet of section 4 of RFC 4648, an
 encoder that is fed in pieces and closed, and a decoder that is fed in pieces
 and skips line ends (section 3.1).
 */
module Base64 {
  import opened Prelude

  // ---- The encoding ------------------------------------------------------

  const PAD: Byte := 61

  type Sextet = x: int | 0 <= x < 64

  function Digit(v: Sextet): Byte {
    if v < 26 then 65 + v else if v < 52 then 71 + v else if v < 62 then v - 4 else if v == 62 then 43 else 47
  }

  function Value(c: Byte): Option<Sextet> {
    if 65 <= c <= 90 then Some(c - 65)
    else if 97 <= c <= 122 then Some(c - 71)
    else if 48 <= c <= 57 then Some(c + 4)
    else if c == 43 then Some(62)
    else if c == 47 then Some(63)
    else None
  }

  function Quad(a: Byte, b: Byte, c: Byte): seq<Byte> {
    [Digit(a / 4), Digit(a % 4 * 16 + b / 16), Digit(b % 16 * 4 + c / 64), Digit(c % 64)]
  }

  /** The last quad, of one or two bytes. */
  function Tail(x: seq<Byte>): seq<Byte>
    requires |x| < 3
  {
    if x == [] then []
    else if |x| == 1 then Quad(x[0], 0, 0)[..2] + [PAD, PAD]
    else Quad(x[0], x[1], 0)[..3] + [PAD]
  }

  /** The encoding of the whole groups of three bytes. */
  function Groups(x: seq<Byte>): seq<Byte> {
    if |x| < 3 then [] else Quad(x[0], x[1], x[2]) + Groups(x[3..])
  }

  /** The bytes after the last whole group. */
  function Rest(x: seq<Byte>): (r: seq<Byte>)
    ensures |r| < 3 && |r| == |x| % 3
  {
    if |x| < 3 then x else Rest(x[3..])
  }

  function Encode(x: seq<Byte>): seq<Byte> {
    Groups(x) + Tail(Rest(x))
  }

  /** base64.StdEncoding.EncodedLen. */
  function EncodedLen(n: nat): nat {
    (n + 2) / 3 * 4
  }

  lemma {:induction false} GroupsLength(x: seq<Byte>)
    ensures |Groups(x)| == |x| / 3 * 4
  {
    if |x| >= 3 {
      GroupsLength(x[3..]);
    }
  }

  lemma {:induction false} QuadsFor(n: nat)
    ensures (n + 2) / 3 == n / 3 + if n % 3 == 0 then 0 else 1
  {
  }

  /** The announced count is the number of bytes of the encoding. */
  lemma {:induction false} EncodeLength(x: seq<Byte>)
    ensures |Encode(x)| == EncodedLen(|x|)
  {
    GroupsLength(x);
    QuadsFor(|x|);
    assert |Tail(Rest(x))| == if |x| % 3 == 0 then 0 else 4;
  }

  /** The count is the least whole number of quads that has room for the size. */
  lemma {:induction false} EncodedLenBounds(n: nat)
    ensures EncodedLen(n) % 4 == 0 && 4 * n <= 3 * EncodedLen(n) < 4 * n + 12
  {
  }

  /** No signed integer that can hold twice the size overflows on the count. */
  lemma {:induction false} EncodedLenFits(n: nat, maxInt: nat)
    requires maxInt >= 7 && n <= maxInt / 2
    ensures n + 2 <= maxInt && EncodedLen(n) <= maxInt
  {
  }

  // ---- The streaming encoder ---------------------------------------------

  lemma {:induction false} GroupsAppend(x: seq<Byte>, y: seq<Byte>)
    ensures Groups(x + y) == Groups(x) + Groups(Rest(x) + y)
    ensures Rest(x + y) == Rest(Rest(x) + y)
    decreases |x|
  {
    if |x| >= 3 {
      GroupsAppend(x[3..], y);
      assert (x + y)[3..] == x[3..] + y;
      Assoc(Quad(x[0], x[1], x[2]), Groups(x[3..]), Groups(Rest(x) + y));
    } else {
      assert [] + Groups(x + y) == Groups(x + y);
    }
  }

  /** An encoder on top of a writer: at most two bytes are held back until the next write or the end. */
  class Encoder {
    var pending: seq<Byte>
    var sink: seq<Byte>
    ghost var written: seq<Byte>

    ghost predicate Valid()
      reads this
    {
      pending == Rest(written) && sink == Groups(written)
    }

    constructor ()
      ensures Valid() && written == [] && sink == []
    {
      pending, sink, written := [], [], [];
    }

    /** However the input is cut into writes, the sink holds the encoding of its whole groups. */
    method Write(p: seq<Byte>)
      requires Valid()
      modifies this
      ensures Valid() && written == old(written) + p
    {
      GroupsAppend(written, p);
      written := written + p;
      var left := pending + p;
      while |left| >= 3
        invariant written == old(written) + p
        invariant sink + Groups(left) == Groups(written) && Rest(left) == Rest(written)
        decreases |left|
      {
        var quad := Quad(left[0], left[1], left[2]);
        Assoc(sink, quad, Groups(left[3..]));
        sink := sink + quad;
        left := left[3..];
      }
      pending := left;
      assert sink + [] == sink;
    }

    method Close()
      requires Valid()
      modifies this
      ensures sink == Encode(old(written)) && written == old(written)
    {
      sink := sink + Tail(pending);
    }
  }

  /** Any way to cut the content into writes gives the same text, of the announced length. */
  method EncodeChunks(chunks: seq<seq<Byte>>) returns (text: seq<Byte>)
    ensures text == Encode(Flatten(chunks)) && |text| == EncodedLen(|Flatten(chunks)|)
  {
    var encoder := new Encoder();
    for i := 0 to |chunks|
      invariant encoder.Valid() && encoder.written == Flatten(chunks[..i])
    {
      assert chunks[..i + 1] == chunks[..i] + [chunks[i]];
      FlattenSnoc(chunks[..i], chunks[i]);
      encoder.Write(chunks[i]);
    }
    assert chunks[..|chunks|] == chunks;
    encoder.Close();
    text := encoder.sink;
    EncodeLength(Flatten(chunks));
  }

  // ---- The streaming decoder ---------------------------------------------

  /** pending holds the digits of an unfinished quad; after a padded quad nothing but line ends may follow. */
  datatype Decoder = Decoder(pending: seq<Byte>, ended: bool, bad: bool, out: seq<Byte>)

  const FRESH: Decoder := Decoder([], false, false, [])

  predicate IsLineEnd(c: Byte) { c == 10 || c == 13 }

  /** The bytes of one quad, and whether it is a padded one. */
  function Unquad(q: seq<Byte>): Option<(seq<Byte>, bool)>
    requires |q| == 4
  {
    var a, b, c, d := Value(q[0]), Value(q[1]), Value(q[2]), Value(q[3]);
    if a == None || b == None then None
    else
      var first := a.value * 4 + b.value / 16;
      if q[2] == PAD then if q[3] == PAD then Some(([first], true)) else None
      else if c == None then None
      else
        var second := b.value % 16 * 16 + c.value / 4;
        if q[3] == PAD then Some(([first, second], true))
        else if d == None then None
        else Some(([first, second, c.value % 4 * 64 + d.value], false))
  }

  function Feed(d: Decoder, c: Byte): Decoder {
    if d.bad || IsLineEnd(c) then d
    else if d.ended then d.(bad := true)
    else if |d.pending| < 3 then d.(pending := d.pending + [c])
    else if |d.pending| > 3 then d.(bad := true)
    else
      match Unquad(d.pending + [c])
      case None => d.(bad := true)
      case Some((bytes, last)) => Decoder([], last, false, d.out + bytes)
  }

  function FeedAll(d: Decoder, text: seq<Byte>): Decoder
    decreases |text|
  {
    if text == [] then d else FeedAll(Feed(d, text[0]), text[1..])
  }

  /** The content of a text that ends after a whole number of quads; anything else is an error. */
  function Decode(text: seq<Byte>): Option<seq<Byte>> {
    var d := FeedAll(FRESH, text);
    if d.bad || d.pending != [] then None else Some(d.out)
  }

  lemma {:induction false} FeedAppend(d: Decoder, a: seq<Byte>, b: seq<Byte>)
    ensures FeedAll(d, a + b) == FeedAll(FeedAll(d, a), b)
    decreases |a|
  {
    if a == [] {
      assert a + b == b;
    } else {
      assert (a + b)[1..] == a[1..] + b;
      FeedAppend(Feed(d, a[0]), a[1..], b);
    }
  }

  /** Only the text counts, not how it is cut into chunks. */
  method DecodeChunks(chunks: seq<seq<Byte>>) returns (r: Option<seq<Byte>>)
    ensures r == Decode(Flatten(chunks))
  {
    var d := FRESH;
    for i := 0 to |chunks|
      invariant d == FeedAll(FRESH, Flatten(chunks[..i]))
    {
      assert chunks[..i + 1] == chunks[..i] + [chunks[i]];
      FlattenSnoc(chunks[..i], chunks[i]);
      FeedAppend(FRESH, Flatten(chunks[..i]), chunks[i]);
      ghost var start := d;
      for j := 0 to |chunks[i]|
        invariant d == FeedAll(start, chunks[i][..j])
      {
        assert chunks[i][..j + 1] == chunks[i][..j] + [chunks[i][j]];
        FeedAppend(start, chunks[i][..j], [chunks[i][j]]);
        assert [chunks[i][j]][1..] == [];
        d := Feed(d, chunks[i][j]);
      }
      assert chunks[i][..|chunks[i]|] == chunks[i];
    }
    assert chunks[..|chunks|] == chunks;
    r := if d.bad || d.pending != [] then None else Some(d.out);
  }

  // ---- Round trip --------------------------------------------------------

  /** Text without its line ends. */
  function Unwrapped(text: seq<Byte>): seq<Byte> {
    if text == [] then []
    else (if IsLineEnd(text[0]) then [] else [text[0]]) + Unwrapped(text[1..])
  }

  lemma {:induction false} LineEndsDoNotCount(d: Decoder, text: seq<Byte>)
    ensures FeedAll(d, text) == FeedAll(d, Unwrapped(text))
    decreases |text|
  {
    if text != [] {
      LineEndsDoNotCount(Feed(d, text[0]), text[1..]);
      if !IsLineEnd(text[0]) {
        assert Unwrapped(text)[1..] == Unwrapped(text[1..]);
      } else {
        assert [] + Unwrapped(text[1..]) == Unwrapped(text[1..]);
      }
    }
  }

  lemma {:induction false} DigitRoundTrip(v: Sextet)
    ensures Value(Digit(v)) == Some(v) && Digit(v) != PAD && !IsLineEnd(Digit(v))
  {
  }

  lemma {:induction false} Join16(hi: nat, lo: nat)
    requires lo < 16
    ensures (hi * 16 + lo) / 16 == hi && (hi * 16 + lo) % 16 == lo
  {
  }

  lemma {:induction false} Join4(hi: nat, lo: nat)
    requires lo < 4
    ensures (hi * 4 + lo) / 4 == hi && (hi * 4 + lo) % 4 == lo
  {
  }

  /** The sextets of three bytes. */
  function Sextets(a: Byte, b: Byte, c: Byte): (Sextet, Sextet, Sextet, Sextet) {
    (a / 4, a % 4 * 16 + b / 16, b % 16 * 4 + c / 64, c % 64)
  }

  /** The bytes that four sextets hold together. */
  lemma {:induction false} SextetsHoldBytes(a: Byte, b: Byte, c: Byte)
    ensures var (p, q, r, s) := Sextets(a, b, c);
            p * 4 + q / 16 == a && q % 16 * 16 + r / 4 == b && r % 4 * 64 + s == c
  {
    Join16(a % 4, b / 16);
    Join4(b % 16, c / 64);
  }

  lemma {:induction false} QuadSextets(a: Byte, b: Byte, c: Byte)
    ensures var (p, q, r, s) := Sextets(a, b, c);
            var t := Quad(a, b, c);
            Value(t[0]) == Some(p) && Value(t[1]) == Some(q) && Value(t[2]) == Some(r) && Value(t[3]) == Some(s)
    ensures forall i :: 0 <= i < 4 ==> Quad(a, b, c)[i] != PAD && !IsLineEnd(Quad(a, b, c)[i])
  {
    var (p, q, r, s) := Sextets(a, b, c);
    DigitRoundTrip(p);
    DigitRoundTrip(q);
    DigitRoundTrip(r);
    DigitRoundTrip(s);
  }

  /** Four digits make up three bytes. */
  lemma {:induction false} UnquadOf(t: seq<Byte>, p: Sextet, q: Sextet, r: Sextet, s: Sextet)
    requires |t| == 4 && Value(t[0]) == Some(p) && Value(t[1]) == Some(q) && t[2] != PAD && Value(t[2]) == Some(r)
    ensures t[3] != PAD && Value(t[3]) == Some(s) ==>
      Unquad(t) == Some(([p * 4 + q / 16, q % 16 * 16 + r / 4, r % 4 * 64 + s], false))
    ensures t[3] == PAD ==> Unquad(t) == Some(([p * 4 + q / 16, q % 16 * 16 + r / 4], true))
  {
  }

  lemma {:induction false} UnquadQuad(a: Byte, b: Byte, c: Byte)
    ensures Unquad(Quad(a, b, c)) == Some(([a, b, c], false))
  {
    var (p, q, r, s) := Sextets(a, b, c);
    QuadSextets(a, b, c);
    SextetsHoldBytes(a, b, c);
    UnquadOf(Quad(a, b, c), p, q, r, s);
  }

  lemma {:induction false} UnquadTail(x: seq<Byte>)
    requires 0 < |x| < 3
    ensures |Tail(x)| == 4 && Unquad(Tail(x)) == Some((x, true))
    ensures forall i :: 0 <= i < 4 ==> !IsLineEnd(Tail(x)[i])
  {
    var b := if |x| == 2 then x[1] else 0;
    var (p, q, r, s) := Sextets(x[0], b, 0);
    QuadSextets(x[0], b, 0);
    SextetsHoldBytes(x[0], b, 0);
    if |x| == 1 {
      assert x == [x[0]];
    } else {
      assert x == [x[0], x[1]];
      UnquadOf(Tail(x), p, q, r, s);
    }
  }

  /** Four digits in, the bytes of their quad out. */
  lemma {:induction false} FeedQuad(d: Decoder, q: seq<Byte>)
    requires d.pending == [] && !d.ended && !d.bad
    requires |q| == 4 && (forall i :: 0 <= i < 4 ==> !IsLineEnd(q[i])) && Unquad(q).Some?
    ensures FeedAll(d, q) == Decoder([], Unquad(q).value.1, false, d.out + Unquad(q).value.0)
  {
    assert [] + [q[0]] + [q[1]] + [q[2]] + [q[3]] == q;
    var d1 := Feed(d, q[0]);
    var d2 := Feed(d1, q[1]);
    var d3 := Feed(d2, q[2]);
    var d4 := Feed(d3, q[3]);
    assert q[1..][1..] == q[2..] && q[2..][1..] == q[3..] && q[3..][1..] == [];
    assert FeedAll(d, q) == FeedAll(d1, q[1..]) == FeedAll(d2, q[2..]) == FeedAll(d3, q[3..]) == FeedAll(d4, []);
  }

  /** The bytes of the whole groups. */
  function Front(x: seq<Byte>): seq<Byte> {
    if |x| < 3 then [] else [x[0], x[1], x[2]] + Front(x[3..])
  }

  lemma {:induction false} FrontAndRest(x: seq<Byte>)
    ensures x == Front(x) + Rest(x)
  {
    if |x| >= 3 {
      FrontAndRest(x[3..]);
      assert x == [x[0], x[1], x[2]] + x[3..];
    }
  }

  lemma {:induction false} FeedGroups(d: Decoder, x: seq<Byte>)
    requires d.pending == [] && !d.ended && !d.bad
    ensures FeedAll(d, Groups(x)) == d.(out := d.out + Front(x))
    decreases |x|
  {
    if |x| < 3 {
      assert d.out + [] == d.out;
    } else {
      var q, first := Quad(x[0], x[1], x[2]), [x[0], x[1], x[2]];
      UnquadQuad(x[0], x[1], x[2]);
      QuadSextets(x[0], x[1], x[2]);
      FeedQuad(d, q);
      FeedAppend(d, q, Groups(x[3..]));
      FeedGroups(d.(out := d.out + first), x[3..]);
      Assoc(d.out, first, Front(x[3..]));
    }
  }

  /** Decoding undoes encoding, for every way to wrap the text into lines. */
  lemma {:induction false} DecodeEncode(x: seq<Byte>, text: seq<Byte>)
    requires Unwrapped(text) == Encode(x)
    ensures Decode(text) == Some(x)
  {
    LineEndsDoNotCount(FRESH, text);
    FeedAppend(FRESH, Groups(x), Tail(Rest(x)));
    FeedGroups(FRESH, x);
    FrontAndRest(x);
    var d := FRESH.(out := Front(x));
    assert FRESH.out + Front(x) == Front(x);
    if Rest(x) != [] {
      UnquadTail(Rest(x));
      FeedQuad(d, Tail(Rest(x)));
    } else {
      assert FeedAll(d, Tail(Rest(x))) == d && Front(x) == x;
    }
  }

  lemma {:induction false} UnwrappedPlain(text: seq<Byte>)
    requires forall c :: c in text ==> !IsLineEnd(c)
    ensures Unwrapped(text) == text
  {
    if text != [] {
      assert forall c :: c in text[1..] ==> c in text;
      UnwrappedPlain(text[1..]);
    }
  }

  lemma {:induction false} GroupsPlain(x: seq<Byte>)
    ensures forall c :: c in Groups(x) ==> !IsLineEnd(c)
  {
    if |x| >= 3 {
      QuadSextets(x[0], x[1], x[2]);
      GroupsPlain(x[3..]);
    }
  }

  /** The encoding itself has no line ends, so it decodes as it is. */
  lemma {:induction false} DecodePlain(x: seq<Byte>)
    ensures Decode(Encode(x)) == Some(x)
  {
    GroupsPlain(x);
    if Rest(x) != [] {
      UnquadTail(Rest(x));
    }
    UnwrappedPlain(Encode(x));
    DecodeEncode(x, Encode(x));
  }

  lemma {:induction false} EncodeInjective(x: seq<Byte>, y: seq<Byte>)
    requires Encode(x) == Encode(y)
    ensures x == y
  {
    DecodePlain(x);
    DecodePlain(y);
  }

  /** The test vectors of RFC 4648, section 10, for "f", "fo", "foo" and "foob". */
  lemma {:induction false} KnownVectors()
    ensures Encode([102]) == [90, 103, 61, 61]
    ensures Encode([102, 111]) == [90, 109, 56, 61]
    ensures Encode([102, 111, 111]) == [90, 109, 57, 118]
    ensures Encode([102, 111, 111, 98]) == [90, 109, 57, 118, 89, 103, 61, 61]
  {
    assert [102, 111, 111][3..] == [] && [102, 111, 111, 98][3..] == [98];
    assert Groups([102, 111, 111]) == Quad(102, 111, 111) + Groups([]);
    assert Groups([102, 111, 111, 98]) == Quad(102, 111, 111) + Groups([98]);
  }

  /** The alphabet of section 4: three runs of consecutive characters, and the two at the end. */
  lemma {:induction false} Alphabet(v: nat)
    requires v < 63
    ensures Digit(0) == 'A' as int && Digit(25) == 'Z' as int && Digit(26) == 'a' as int && Digit(51) == 'z' as int
    ensures Digit(52) == '0' as int && Digit(61) == '9' as int && Digit(62) == '+' as int && Digit(63) == '/' as int
    ensures v != 25 && v != 51 && v < 61 ==> Digit(v + 1) == Digit(v) + 1
  {
  }
}
