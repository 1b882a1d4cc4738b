/** Serialized HTTP headers: unpadded standard base64 (sections 3.2 and 4 of RFC 4648) with `:` and `;` between. */
module Headers {
  import opened Bytes

  // ----- base64.RawStdEncoding -----

  type sextet = d: int | 0 <= d < 64

  function Alphabet(d: sextet): byte {
    if d < 26 then 'A' as int + d
    else if d < 52 then 'a' as int + (d - 26)
    else if d < 62 then '0' as int + (d - 52)
    else if d == 62 then '+' as int
    else '/' as int
  }

  function DigitOf(b: byte): Option<sextet> {
    if 'A' as int <= b <= 'Z' as int then Some(b - 'A' as int)
    else if 'a' as int <= b <= 'z' as int then Some(26 + (b - 'a' as int))
    else if '0' as int <= b <= '9' as int then Some(52 + (b - '0' as int))
    else if b == '+' as int then Some(62)
    else if b == '/' as int then Some(63)
    else None
  }

  function Sextets(src: Buffer): seq<sextet> {
    if src == [] then []
    else if |src| == 1 then [src[0] / 4, src[0] % 4 * 16]
    else if |src| == 2 then [src[0] / 4, src[0] % 4 * 16 + src[1] / 16, src[1] % 16 * 4]
    else [src[0] / 4, src[0] % 4 * 16 + src[1] / 16, src[1] % 16 * 4 + src[2] / 64, src[2] % 64] + Sextets(src[3..])
  }

  function Octet0(a: int, b: int): byte
    requires 0 <= a < 64 && 0 <= b < 64
  {
    a * 4 + b / 16
  }

  function Octet1(b: int, c: int): byte
    requires 0 <= b < 64 && 0 <= c < 64
  {
    b % 16 * 16 + c / 4
  }

  function Octet2(c: int, d: int): byte
    requires 0 <= c < 64 && 0 <= d < 64
  {
    c % 4 * 64 + d
  }

  /** Leftover bits of the last group are dropped, and a last group of one digit is an error. */
  function Octets(ds: seq<sextet>): Option<Buffer> {
    if ds == [] then Some([])
    else if |ds| == 1 then None
    else if |ds| == 2 then Some([Octet0(ds[0], ds[1])])
    else if |ds| == 3 then Some([Octet0(ds[0], ds[1]), Octet1(ds[1], ds[2])])
    else match Octets(ds[4..])
      case None => None
      case Some(rest) => Some([Octet0(ds[0], ds[1]), Octet1(ds[1], ds[2]), Octet2(ds[2], ds[3])] + rest)
  }

  function Letters(ds: seq<sextet>): Buffer {
    seq(|ds|, i requires 0 <= i < |ds| => Alphabet(ds[i]))
  }

  /** The decoder steps over line ends and stops at any other byte outside the alphabet. */
  function DigitsOf(src: Buffer): Option<seq<sextet>> {
    if src == [] then Some([])
    else match DigitsOf(src[1..])
      case None => None
      case Some(rest) =>
        if src[0] == 10 || src[0] == 13 then Some(rest)
        else if DigitOf(src[0]).None? then None
        else Some([DigitOf(src[0]).value] + rest)
  }

  function Encode(src: Buffer): Buffer {
    Letters(Sextets(src))
  }

  function Decode(src: Buffer): Option<Buffer> {
    match DigitsOf(src)
    case None => None
    case Some(ds) => Octets(ds)
  }

  function EncodedLen(n: nat): nat {
    n / 3 * 4 + (n % 3 * 8 + 5) / 6
  }

  function DecodedLen(n: nat): nat {
    n * 6 / 8
  }

  lemma {:induction false} SextetsLen(src: Buffer)
    ensures |Sextets(src)| == EncodedLen(|src|)
  {
    if |src| > 2 {
      SextetsLen(src[3..]);
    }
  }

  lemma LengthsAgree(n: nat)
    ensures DecodedLen(EncodedLen(n)) == n
  {
  }

  lemma GroupRoundTrip(a: byte, b: byte, c: byte)
    ensures Octet0(a / 4, a % 4 * 16 + b / 16) == a && Octet1(a % 4 * 16 + b / 16, b % 16 * 4 + c / 64) == b
    ensures Octet2(b % 16 * 4 + c / 64, c % 64) == c
    ensures Octet0(a / 4, a % 4 * 16) == a && Octet1(a % 4 * 16 + b / 16, b % 16 * 4) == b
  {
  }

  lemma {:induction false} OctetsOfSextets(src: Buffer)
    ensures Octets(Sextets(src)) == Some(src)
  {
    hide Octet0, Octet1, Octet2;
    if |src| > 2 {
      OctetsOfSextets(src[3..]);
      GroupRoundTrip(src[0], src[1], src[2]);
      assert Sextets(src)[4..] == Sextets(src[3..]);
      assert src == [src[0], src[1], src[2]] + src[3..];
    } else if |src| == 2 {
      GroupRoundTrip(src[0], src[1], 0);
      assert src == [src[0], src[1]];
    } else if |src| == 1 {
      GroupRoundTrip(src[0], 0, 0);
      assert src == [src[0]];
    }
  }

  lemma {:induction false} DigitsOfLetters(ds: seq<sextet>)
    ensures DigitsOf(Letters(ds)) == Some(ds)
  {
    if ds != [] {
      assert Letters(ds)[1..] == Letters(ds[1..]);
      DigitsOfLetters(ds[1..]);
      assert DigitOf(Alphabet(ds[0])) == Some(ds[0]);
      assert ds == [ds[0]] + ds[1..];
    }
  }

  /** Decoding undoes encoding, and the buffers the callers size are filled exactly. */
  lemma DecodeEncode(src: Buffer)
    ensures Decode(Encode(src)) == Some(src)
    ensures |Encode(src)| == EncodedLen(|src|) && DecodedLen(|Encode(src)|) == |src|
  {
    OctetsOfSextets(src);
    DigitsOfLetters(Sextets(src));
    SextetsLen(src);
    LengthsAgree(|src|);
  }

  /** Whatever is decoded fits the buffer made for it, even when the input has line ends in it. */
  lemma {:induction false} DecodedFits(src: Buffer)
    ensures Decode(src).Some? ==> |Decode(src).value| <= DecodedLen(|src|)
  {
    if DigitsOf(src).Some? {
      DigitsFit(src);
      OctetsFit(DigitsOf(src).value);
    }
  }

  function LineEnds(src: Buffer): (n: nat)
    ensures n <= |src|
  {
    if src == [] then 0 else (if src[0] == 10 || src[0] == 13 then 1 else 0) + LineEnds(src[1..])
  }

  lemma {:induction false} DigitsFit(src: Buffer)
    ensures DigitsOf(src).Some? ==> |DigitsOf(src).value| == |src| - LineEnds(src)
  {
    if src != [] {
      DigitsFit(src[1..]);
    }
  }

  lemma {:induction false} OctetsFit(ds: seq<sextet>)
    ensures Octets(ds).Some? <==> |ds| % 4 != 1
    ensures Octets(ds).Some? ==> |Octets(ds).value| == DecodedLen(|ds|)
  {
    hide Octet0, Octet1, Octet2, DecodedLen;
    GroupLen(|ds|);
    if |ds| > 3 {
      OctetsFit(ds[4..]);
    }
  }

  lemma GroupLen(n: nat)
    ensures n >= 4 ==> n % 4 == (n - 4) % 4 && DecodedLen(n) == 3 + DecodedLen(n - 4)
    ensures n < 4 ==> DecodedLen(n) == if n == 0 then 0 else n - 1
  {
  }

  function Ascii(s: string): Buffer
    requires forall i :: 0 <= i < |s| ==> s[i] as int < 256
  {
    seq(|s|, i requires 0 <= i < |s| => s[i] as int)
  }

  /** A byte is a digit exactly if it is a letter of the alphabet, and then of that value. */
  lemma DigitExactly(b: byte, d: sextet)
    ensures DigitOf(b) == Some(d) <==> Alphabet(d) == b
    ensures DigitOf(b).Some? <==> exists e: sextet :: Alphabet(e) == b
  {
    if DigitOf(b).Some? {
      assert Alphabet(DigitOf(b).value) == b;
    }
    if e: sextet :| Alphabet(e) == b {
      assert DigitOf(Alphabet(e)) == Some(e);
    }
  }

  predicate IsLineEnd(b: byte) {
    b == 10 || b == 13
  }

  lemma {:induction false} DigitsRefused(src: Buffer)
    ensures DigitsOf(src).None? <==> exists i :: 0 <= i < |src| && !IsLineEnd(src[i]) && DigitOf(src[i]).None?
  {
    if src != [] {
      DigitsRefused(src[1..]);
      assert forall i :: 0 < i < |src| ==> src[i] == src[1..][i - 1];
      if i :| 0 <= i < |src| && !IsLineEnd(src[i]) && DigitOf(src[i]).None? {
        if i > 0 {
          assert !IsLineEnd(src[1..][i - 1]) && DigitOf(src[1..][i - 1]).None?;
        }
      }
    }
  }

  /** Decoding is refused exactly if a byte is neither a letter nor a line end, or one letter is left over. */
  lemma DecodeRefusesExactly(src: Buffer)
    ensures Decode(src).None? <==>
            || (exists i :: 0 <= i < |src| && !IsLineEnd(src[i]) && DigitOf(src[i]).None?)
            || (|src| - LineEnds(src)) % 4 == 1
  {
    hide Octets, DigitsOf, LineEnds;
    DigitsRefused(src);
    if DigitsOf(src).Some? {
      DigitsFit(src);
      OctetsFit(DigitsOf(src).value);
    } else {
      assert Decode(src).None?;
    }
  }

  /** Encodings of one, two and three bytes, as section 10 of RFC 4648 lists them without their padding. */
  lemma KnownEncodings()
    ensures Encode(Ascii("f")) == Ascii("Zg") && Encode(Ascii("fo")) == Ascii("Zm8")
    ensures Encode(Ascii("foo")) == Ascii("Zm9v") && Encode([0xfb, 0xff]) == Ascii("+/8")
  {
    assert Sextets([0xfb, 0xff]) == [62, 63, 60];
    assert Sextets(Ascii("f")) == [25, 32];
    assert Sextets(Ascii("fo")) == [25, 38, 60];
    assert Sextets(Ascii("foo")) == [25, 38, 61, 47] + Sextets([]);
  }

  // ----- strings.Split -----

  function Split(s: Buffer, sep: byte): (r: seq<Buffer>)
    ensures r != []
  {
    if s == [] then [[]]
    else
      var rest := Split(s[1..], sep);
      if s[0] == sep then [[]] + rest else [[s[0]] + rest[0]] + rest[1..]
  }

  function Join(pieces: seq<Buffer>, sep: byte): Buffer {
    if pieces == [] then []
    else if |pieces| == 1 then pieces[0]
    else pieces[0] + [sep] + Join(pieces[1..], sep)
  }

  lemma {:induction false} SplitFirst(a: Buffer, b: Buffer, sep: byte)
    requires sep !in a
    ensures Split(a + [sep] + b, sep) == [a] + Split(b, sep)
  {
    var s := a + [sep] + b;
    if a == [] {
      assert s[1..] == b;
    } else {
      assert s[1..] == a[1..] + [sep] + b;
      SplitFirst(a[1..], b, sep);
      assert a == [a[0]] + a[1..];
      assert Split(s, sep)[1..] == Split(b, sep);
    }
  }

  lemma {:induction false} SplitWhole(a: Buffer, sep: byte)
    requires sep !in a
    ensures Split(a, sep) == [a]
  {
    if a != [] {
      SplitWhole(a[1..], sep);
      assert a == [a[0]] + a[1..];
    }
  }

  /** Split cuts at every separator and nowhere else. */
  lemma SplitJoin(s: Buffer, sep: byte)
    ensures Join(Split(s, sep), sep) == s
    ensures forall p :: p in Split(s, sep) ==> sep !in p
  {
    SplitRejoins(s, sep);
    SplitAll(s, sep);
  }

  lemma {:induction false} SplitAll(s: Buffer, sep: byte)
    ensures forall i :: 0 <= i < |Split(s, sep)| ==> sep !in Split(s, sep)[i]
  {
    if s != [] {
      SplitAll(s[1..], sep);
    }
  }

  lemma {:induction false} SplitRejoins(s: Buffer, sep: byte)
    ensures Join(Split(s, sep), sep) == s
  {
    if s != [] {
      var rest := Split(s[1..], sep);
      SplitRejoins(s[1..], sep);
      assert s == [s[0]] + s[1..];
      if s[0] == sep {
        assert ([[]] + rest)[1..] == rest;
      } else {
        JoinHead(s[0], rest, sep);
      }
    }
  }

  lemma JoinHead(b: byte, pieces: seq<Buffer>, sep: byte)
    requires pieces != []
    ensures Join([[b] + pieces[0]] + pieces[1..], sep) == [b] + Join(pieces, sep)
  {
    var longer := [[b] + pieces[0]] + pieces[1..];
    assert longer[1..] == pieces[1..];
    if |pieces| > 1 {
      var j := Join(pieces[1..], sep);
      assert ([b] + pieces[0]) + [sep] + j == [b] + (pieces[0] + [sep] + j);
    }
  }

  // ----- the header list -----

  datatype Header = Header(name: Buffer, value: Buffer)

  datatype Outcome = Headers(headers: seq<Header>) | UnableToDeserialize

  const COLON: byte := ':' as int
  const SEMI: byte := ';' as int

  function PairBytes(h: Header): Buffer {
    Encode(h.name) + [COLON] + Encode(h.value)
  }

  function AllPairBytes(hs: seq<Header>): seq<Buffer> {
    seq(|hs|, i requires 0 <= i < |hs| => PairBytes(hs[i]))
  }

  function Serialized(hs: seq<Header>): Buffer {
    Join(AllPairBytes(hs), SEMI)
  }

  /** The whole buffer becomes the string, however many bytes were decoded into it. */
  function Fill(decoded: Buffer, n: nat): Buffer
    requires |decoded| <= n
  {
    decoded + seq(n - |decoded|, _ => 0)
  }

  function Field(s: Buffer): Option<Buffer> {
    DecodedFits(s);
    match Decode(s)
    case None => None
    case Some(bytes) => Some(Fill(bytes, DecodedLen(|s|)))
  }

  /**
    A field that decodes keeps exactly its decoded bytes unless there are line ends in it and leaving them out makes
    the decoded length shorter; then zero bytes are appended.
   */
  lemma FieldExact(s: Buffer)
    requires Decode(s).Some?
    ensures Field(s) == Decode(s) <==> DecodedLen(|s| - LineEnds(s)) == DecodedLen(|s|)
    ensures Decode(s).value <= Field(s).value
  {
    hide Decode, DecodedLen, LineEnds;
    DecodedLength(s);
    DecodedFits(s);
    var bytes := Decode(s).value;
    assert Field(s).value[..|bytes|] == bytes;
    assert Fill(bytes, |bytes|) == bytes;
  }

  lemma DecodedLength(s: Buffer)
    requires Decode(s).Some?
    ensures |Decode(s).value| == DecodedLen(|s| - LineEnds(s))
  {
    hide DecodedLen, Octets, DigitsOf;
    DigitsFit(s);
    OctetsFit(DigitsOf(s).value);
  }

  /** A line end in a serialized name puts a zero byte at the end of the name. */
  lemma LineEndAddsZero()
    ensures Field(['Q' as int, 'Q' as int, 10]) == Some(['A' as int, 0])
  {
    var s: Buffer := ['Q' as int, 'Q' as int, 10];
    var t: Buffer := ['Q' as int, 10];
    assert DigitOf('Q' as int) == Some(16);
    assert t[1..] == [10];
    assert DigitsOf([10]) == Some([]);
    assert DigitsOf(t).value == [16];
    assert s[1..] == t;
    assert DigitsOf(s).value == [16, 16];
    assert Fill(['A' as int], 2) == ['A' as int, 0];
  }

  function PairOf(piece: Buffer): Option<Header> {
    var parts := Split(piece, COLON);
    if |parts| != 2 || Field(parts[0]).None? || Field(parts[1]).None? then None
    else Some(Header(Field(parts[0]).value, Field(parts[1]).value))
  }

  function FromPieces(pieces: seq<Buffer>): Outcome {
    if pieces == [] then Headers([])
    else
      var before := FromPieces(pieces[..|pieces| - 1]);
      var last := pieces[|pieces| - 1];
      if before.UnableToDeserialize? || last == [] then before
      else match PairOf(last)
        case None => UnableToDeserialize
        case Some(h) => Headers(before.headers + [h])
  }

  function Deserialized(s: Buffer): Outcome {
    FromPieces(Split(s, SEMI))
  }

  /** Once a piece is refused, the whole is. */
  lemma {:induction false} RefusedStays(pieces: seq<Buffer>, i: nat)
    requires i <= |pieces| && FromPieces(pieces[..i]).UnableToDeserialize?
    ensures FromPieces(pieces).UnableToDeserialize?
    decreases |pieces|
  {
    if i == |pieces| {
      assert pieces[..i] == pieces;
    } else {
      assert pieces[..|pieces| - 1][..i] == pieces[..i];
      RefusedStays(pieces[..|pieces| - 1], i);
    }
  }

  /** The list is refused exactly when a piece between semicolons, not counting empty ones, is not a pair of fields. */
  lemma {:induction false} RefusedExactly(pieces: seq<Buffer>)
    ensures FromPieces(pieces).UnableToDeserialize? <==> exists p :: p in pieces && p != [] && PairOf(p).None?
  {
    hide PairOf;
    if pieces != [] {
      var init, last := pieces[..|pieces| - 1], pieces[|pieces| - 1];
      assert pieces == init + [last];
      RefusedExactly(init);
    }
  }

  method Deserialize(s: Buffer) returns (r: Outcome)
    ensures r == Deserialized(s)
  {
    hide PairOf;
    var headers: seq<Header> := [];
    var pieces := Split(s, SEMI);
    var i := 0;
    while i < |pieces|
      invariant 0 <= i <= |pieces|
      invariant FromPieces(pieces[..i]) == Headers(headers)
    {
      assert pieces[..i + 1][..i] == pieces[..i];
      if |pieces[i]| != 0 {
        match PairOf(pieces[i]) {
          case None =>
            RefusedStays(pieces, i + 1);
            return UnableToDeserialize;
          case Some(h) => headers := headers + [h];
        }
      }
      i := i + 1;
    }
    assert pieces[..i] == pieces;
    r := Headers(headers);
  }

  lemma EncodedIsClean(s: Buffer)
    ensures COLON !in Encode(s) && SEMI !in Encode(s)
  {
  }

  lemma FieldRoundTrip(s: Buffer)
    ensures Field(Encode(s)) == Some(s)
  {
    hide Decode, Encode;
    DecodeEncode(s);
    assert Fill(s, |s|) == s;
  }

  lemma PairRoundTrip(h: Header)
    ensures PairOf(PairBytes(h)) == Some(h) && PairBytes(h) != [] && SEMI !in PairBytes(h)
  {
    hide Encode, Field, Split;
    EncodedIsClean(h.name);
    EncodedIsClean(h.value);
    SplitFirst(Encode(h.name), Encode(h.value), COLON);
    SplitWhole(Encode(h.value), COLON);
    FieldRoundTrip(h.name);
    FieldRoundTrip(h.value);
  }

  /** Split after Join gives the pieces back, for at least one piece none of which holds the separator. */
  lemma {:induction false} JoinSplit(pieces: seq<Buffer>, sep: byte)
    requires pieces != [] && (forall p :: p in pieces ==> sep !in p)
    ensures Split(Join(pieces, sep), sep) == pieces
  {
    if |pieces| == 1 {
      SplitWhole(pieces[0], sep);
    } else {
      JoinSplit(pieces[1..], sep);
      SplitFirst(pieces[0], Join(pieces[1..], sep), sep);
    }
  }

  lemma {:induction false} PiecesRoundTrip(hs: seq<Header>)
    ensures FromPieces(AllPairBytes(hs)) == Headers(hs)
  {
    hide PairOf, PairBytes;
    if hs != [] {
      var init := hs[..|hs| - 1];
      PiecesRoundTrip(init);
      assert AllPairBytes(hs)[..|hs| - 1] == AllPairBytes(init);
      PairRoundTrip(hs[|hs| - 1]);
    }
  }

  /** Every list of headers comes back exactly: order, multiplicity, empty names and values, all byte values. */
  lemma HeaderRoundTrip(hs: seq<Header>)
    ensures Deserialized(Serialized(hs)) == Headers(hs)
  {
    hide PairOf, PairBytes, Split;
    if hs == [] {
      SplitWhole([], SEMI);
      assert FromPieces([[]][..0]) == Headers([]);
    } else {
      forall i | 0 <= i < |hs| ensures SEMI !in AllPairBytes(hs)[i] {
        PairRoundTrip(hs[i]);
      }
      JoinSplit(AllPairBytes(hs), SEMI);
      PiecesRoundTrip(hs);
    }
  }

  /** Two headers on the wire. */
  lemma KnownSerialization()
    ensures Serialized([Header(Ascii("f"), Ascii("fo")), Header([], Ascii("f"))]) == Ascii("Zg:Zm8;:Zg")
  {
    var hs := [Header(Ascii("f"), Ascii("fo")), Header([], Ascii("f"))];
    KnownEncodings();
    assert Encode([]) == [];
    hide Encode;
    var parts := AllPairBytes(hs);
    assert parts[0] == Ascii("Zg") + [COLON] + Ascii("Zm8") == Ascii("Zg:Zm8");
    assert parts[1] == [] + [COLON] + Ascii("Zg") == Ascii(":Zg");
    assert parts == [Ascii("Zg:Zm8"), Ascii(":Zg")];
    assert parts[1..] == [Ascii(":Zg")];
    assert Join(parts[1..], SEMI) == Ascii(":Zg");
    assert Ascii("Zg:Zm8") + [SEMI] + Ascii(":Zg") == Ascii("Zg:Zm8;:Zg");
  }

  // ----- header maps -----

  type HeaderMap = map<Buffer, seq<Buffer>>

  /** `order` is one of the orders in which ranging over the map may visit its keys. */
  ghost predicate Visits(h: HeaderMap, order: seq<Buffer>) {
    && (forall k :: k in h <==> k in order)
    && (forall i, j :: 0 <= i < j < |order| ==> order[i] != order[j])
  }

  function Named(name: Buffer, values: seq<Buffer>): seq<Header> {
    seq(|values|, i requires 0 <= i < |values| => Header(name, values[i]))
  }

  function Pairs(h: HeaderMap, order: seq<Buffer>): seq<Header>
    requires forall k :: k in order ==> k in h
  {
    if order == [] then []
    else Pairs(h, order[..|order| - 1]) + Named(order[|order| - 1], h[order[|order| - 1]])
  }

  lemma {:induction false} NamedCount(name: Buffer, values: seq<Buffer>, x: Header)
    ensures multiset(Named(name, values))[x] == if x.name == name then multiset(values)[x.value] else 0
  {
    if values != [] {
      var n := |values| - 1;
      assert values == values[..n] + [values[n]];
      assert Named(name, values) == Named(name, values[..n]) + [Header(name, values[n])];
      NamedCount(name, values[..n], x);
    }
  }

  lemma {:induction false} PairsCount(h: HeaderMap, order: seq<Buffer>, x: Header)
    requires (forall k :: k in order ==> k in h) && (forall i, j :: 0 <= i < j < |order| ==> order[i] != order[j])
    ensures multiset(Pairs(h, order))[x] == if x.name in order then multiset(h[x.name])[x.value] else 0
  {
    if order != [] {
      var n := |order| - 1;
      assert order == order[..n] + [order[n]];
      PairsCount(h, order[..n], x);
      NamedCount(order[n], h[order[n]], x);
    }
  }

  /**
    Deserializing what was serialized, whatever the order, gives every pair of the map exactly as often as the map has
    it.
   */
  lemma MapRoundTrip(h: HeaderMap, order: seq<Buffer>)
    requires Visits(h, order)
    ensures var r := Deserialized(Serialized(Pairs(h, order)));
            r.Headers? && forall name, value ::
              multiset(r.headers)[Header(name, value)] == if name in h then multiset(h[name])[value] else 0
  {
    hide Deserialized, Serialized;
    HeaderRoundTrip(Pairs(h, order));
    forall name, value
      ensures multiset(Pairs(h, order))[Header(name, value)] == if name in h then multiset(h[name])[value] else 0
    {
      PairsCount(h, order, Header(name, value));
    }
  }

  /** Serialized headers determine the list, so no two lists share a serialization. */
  lemma SerializedInjective(a: seq<Header>, b: seq<Header>)
    requires Serialized(a) == Serialized(b)
    ensures a == b
  {
    HeaderRoundTrip(a);
    HeaderRoundTrip(b);
  }

  lemma {:induction false} JoinAppend(pieces: seq<Buffer>, p: Buffer, sep: byte)
    requires pieces != []
    ensures Join(pieces + [p], sep) == Join(pieces, sep) + [sep] + p
  {
    if |pieces| == 1 {
      assert (pieces + [p])[1..] == [p];
    } else {
      assert (pieces + [p])[1..] == pieces[1..] + [p];
      JoinAppend(pieces[1..], p, sep);
      var j := Join(pieces[1..], sep);
      assert pieces[0] + [sep] + (j + [sep] + p) == pieces[0] + [sep] + j + [sep] + p;
    }
  }

  /** A separator is written exactly when the buffer is not empty, which is to say after every pair. */
  lemma SerializedAppend(hs: seq<Header>, h: Header)
    ensures Serialized(hs) == [] <==> hs == []
    ensures Serialized(hs + [h]) == Serialized(hs) + (if Serialized(hs) == [] then [] else [SEMI]) + PairBytes(h)
  {
    hide PairBytes;
    assert AllPairBytes(hs + [h]) == AllPairBytes(hs) + [PairBytes(h)];
    if hs != [] {
      JoinAppend(AllPairBytes(hs), PairBytes(h), SEMI);
      PairRoundTrip(hs[0]);
    }
  }

  /** What the first pass adds up: two delimiters a pair, one more than is needed in all. */
  function SizeOf(hs: seq<Header>): nat {
    if hs == [] then 0
    else SizeOf(hs[..|hs| - 1]) + 2 + EncodedLen(|hs[|hs| - 1].name|) + EncodedLen(|hs[|hs| - 1].value|)
  }

  lemma {:induction false} SizeIsEnough(hs: seq<Header>)
    ensures hs != [] ==> SizeOf(hs) == |Serialized(hs)| + 1
  {
    hide Serialized, Encode;
    if hs != [] {
      var init, h := hs[..|hs| - 1], hs[|hs| - 1];
      assert hs == init + [h];
      SizeIsEnough(init);
      SerializedAppend(init, h);
      DecodeEncode(h.name);
      DecodeEncode(h.value);
    }
  }

  method WritePair(buf: Buffer, h: Header, temp: nat) returns (r: Buffer, temp': nat)
    ensures r == buf + (if buf == [] then [] else [SEMI]) + PairBytes(h)
    ensures EncodedLen(|h.name|) <= temp && EncodedLen(|h.value|) <= temp ==> temp' == temp
  {
    hide Encode;
    r, temp' := buf, temp;
    if |r| > 0 {
      r := r + [SEMI];
    }
    if EncodedLen(|h.name|) > temp' {
      temp' := EncodedLen(|h.name|);
    }
    r := r + Encode(h.name);
    r := r + [COLON];
    if EncodedLen(|h.value|) > temp' {
      temp' := EncodedLen(|h.value|);
    }
    r := r + Encode(h.value);
  }

  /** `part` lists pairs whose names and values all fit a temporary buffer of `m` bytes. */
  predicate AllFit(part: seq<Header>, m: nat) {
    forall i :: 0 <= i < |part| ==> EncodedLen(|part[i].name|) <= m && EncodedLen(|part[i].value|) <= m
  }

  lemma NothingMeasured()
    ensures SizeOf([]) == 0 && AllFit([], 0)
  {
  }

  lemma NamedNone(name: Buffer, values: seq<Buffer>)
    ensures Named(name, values[..0]) == []
  {
  }

  lemma NamedNext(name: Buffer, values: seq<Buffer>, j: nat)
    requires j < |values|
    ensures Named(name, values[..j + 1]) == Named(name, values[..j]) + [Header(name, values[j])]
  {
  }

  lemma OneMore(done: seq<Header>, h: Header, m: nat)
    requires AllFit(done, m)
    ensures SizeOf(done + [h]) == SizeOf(done) + 2 + EncodedLen(|h.name|) + EncodedLen(|h.value|)
    ensures forall n: nat :: n >= m && n >= EncodedLen(|h.name|) && n >= EncodedLen(|h.value|) ==> AllFit(done + [h], n)
  {
    assert (done + [h])[..|done + [h]| - 1] == done;
  }

  /** The first pass, which only sizes the buffers. */
  method Measure(h: HeaderMap, order: seq<Buffer>) returns (serializedLen: nat, maxTempLen: nat)
    requires Visits(h, order)
    ensures serializedLen == SizeOf(Pairs(h, order)) && AllFit(Pairs(h, order), maxTempLen)
  {
    hide EncodedLen, SizeOf, AllFit, Named;
    serializedLen, maxTempLen := 0, 0;
    NothingMeasured();
    ghost var done: seq<Header> := [];
    var i := 0;
    while i < |order|
      invariant 0 <= i <= |order| && done == Pairs(h, order[..i])
      invariant serializedLen == SizeOf(done) && AllFit(done, maxTempLen)
    {
      assert order[..i + 1][..i] == order[..i];
      var name, values := order[i], h[order[i]];
      ghost var base := done;
      var j := 0;
      NamedNone(name, values);
      while j < |values|
        invariant 0 <= j <= |values| && done == base + Named(name, values[..j])
        invariant serializedLen == SizeOf(done) && AllFit(done, maxTempLen)
      {
        var nameLen, valueLen := EncodedLen(|name|), EncodedLen(|values[j]|);
        OneMore(done, Header(name, values[j]), maxTempLen);
        NamedNext(name, values, j);
        serializedLen := serializedLen + (2 + nameLen + valueLen);
        if nameLen > maxTempLen {
          maxTempLen := nameLen;
        }
        if valueLen > maxTempLen {
          maxTempLen := valueLen;
        }
        done := done + [Header(name, values[j])];
        j := j + 1;
      }
      assert values[..j] == values;
      i := i + 1;
    }
    assert order[..i] == order;
  }

  lemma PairFits(h: HeaderMap, order: seq<Buffer>, name: Buffer, j: nat, m: nat)
    requires Visits(h, order) && name in h && j < |h[name]| && AllFit(Pairs(h, order), m)
    ensures EncodedLen(|name|) <= m && EncodedLen(|h[name][j]|) <= m
  {
    hide EncodedLen, Pairs;
    var x := Header(name, h[name][j]);
    PairsCount(h, order, x);
    assert h[name][j] in multiset(h[name]);
    assert x in multiset(Pairs(h, order));
    assert x in Pairs(h, order);
  }

  /**
    Both passes range over the map, each in an order of its own; still, neither the builder nor the temporary
    buffer the first pass sized ever has to grow.
   */
  method Serialize(h: HeaderMap, order1: seq<Buffer>, order2: seq<Buffer>)
      returns (r: Buffer, capacity: nat, maxTempLen: nat, temp: nat)
    requires Visits(h, order1) && Visits(h, order2)
    ensures r == Serialized(Pairs(h, order2)) && |r| <= capacity && temp == maxTempLen
  {
    hide Serialized, PairBytes, SizeOf, EncodedLen, AllFit;
    capacity, maxTempLen := Measure(h, order1);
    temp := maxTempLen;
    r := [];
    ghost var done: seq<Header> := [];
    SerializedAppend([], Header([], []));
    var i := 0;
    while i < |order2|
      invariant 0 <= i <= |order2| && done == Pairs(h, order2[..i]) && r == Serialized(done) && temp == maxTempLen
    {
      assert order2[..i + 1][..i] == order2[..i];
      var name, values := order2[i], h[order2[i]];
      ghost var base := done;
      var j := 0;
      while j < |values|
        invariant 0 <= j <= |values| && done == base + Named(name, values[..j]) && r == Serialized(done)
        invariant temp == maxTempLen
      {
        var pair := Header(name, values[j]);
        SerializedAppend(done, pair);
        PairFits(h, order1, name, j, maxTempLen);
        assert Named(name, values[..j + 1]) == Named(name, values[..j]) + [pair];
        r, temp := WritePair(r, pair, temp);
        done := done + [pair];
        j := j + 1;
      }
      assert values[..j] == values;
      i := i + 1;
    }
    assert order2[..i] == order2;
    CapacityAgrees(h, order1, order2);
  }

  lemma CapacityAgrees(h: HeaderMap, order1: seq<Buffer>, order2: seq<Buffer>)
    requires Visits(h, order1) && Visits(h, order2)
    ensures SizeOf(Pairs(h, order1)) >= |Serialized(Pairs(h, order2))|
  {
    var a, b := Pairs(h, order1), Pairs(h, order2);
    SizeIsEnough(b);
    SameMultiset(h, order1, order2);
    SizeOfPermuted(a, b);
  }

  lemma SameMultiset(h: HeaderMap, order1: seq<Buffer>, order2: seq<Buffer>)
    requires Visits(h, order1) && Visits(h, order2)
    ensures multiset(Pairs(h, order1)) == multiset(Pairs(h, order2))
  {
    forall x: Header ensures multiset(Pairs(h, order1))[x] == multiset(Pairs(h, order2))[x] {
      PairsCount(h, order1, x);
      PairsCount(h, order2, x);
    }
  }

  lemma {:induction false} SizeOfSplit(a: seq<Header>, b: seq<Header>)
    ensures SizeOf(a + b) == SizeOf(a) + SizeOf(b)
  {
    if b == [] {
      assert a + b == a;
    } else {
      assert (a + b)[..|a + b| - 1] == a + b[..|b| - 1];
      SizeOfSplit(a, b[..|b| - 1]);
    }
  }

  lemma {:induction false} SizeOfPermuted(a: seq<Header>, b: seq<Header>)
    requires multiset(a) == multiset(b)
    ensures SizeOf(a) == SizeOf(b)
    decreases |a|
  {
    hide SizeOf;
    assert |multiset(a)| == |a| && |multiset(b)| == |b|;
    if a != [] {
      var x := a[0];
      assert x in multiset(a);
      var a' := TakeOut(a, x);
      var b' := TakeOut(b, x);
      SizeOfPermuted(a', b');
    }
  }

  lemma TakeOut(b: seq<Header>, x: Header) returns (rest: seq<Header>)
    requires x in multiset(b)
    ensures multiset(rest) == multiset(b) - multiset{x} && |rest| < |b|
    ensures SizeOf(b) == SizeOf([x]) + SizeOf(rest)
  {
    hide SizeOf;
    var k :| 0 <= k < |b| && b[k] == x;
    rest := b[..k] + b[k + 1..];
    assert b == b[..k] + ([x] + b[k + 1..]);
    SizeOfSplit(b[..k], [x] + b[k + 1..]);
    SizeOfSplit([x], b[k + 1..]);
    SizeOfSplit(b[..k], b[k + 1..]);
  }
}
