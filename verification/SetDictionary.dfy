/** The SET_DICTIONARY frame: the payload writeUseDictionary builds and the loop that parses it. */
module SetDictionary {
  import opened Bytes
  import VarInt

  datatype Request = Request(dictID: byte, size: uint64, truncate: uint64, offset: uint64, p: bool, e: bool, d: bool)

  /** An update as the sender asks for it. */
  datatype Entry = Entry(dictID: byte, size: uint64)

  /** FlagSetDictionaryAppend and FlagSetDictionaryOffset. */
  datatype Flags = Flags(append: bool, hasOffset: bool)

  /** How the parse loop ends. `IndexPanic` is the run-time panic of an index equal to the table's length. */
  datatype Ending = Complete | BadInteger(err: VarInt.Error) | DictTooBig | IndexPanic

  datatype Parsed = Parsed(requests: seq<Request>, ending: Ending)

  datatype EntryResult = Good(request: Request, rest: Buffer) | Bad(err: VarInt.Error)

  datatype Lookup = Found | TooBig | OutOfRange

  /** getDictByID and newReader compare with `>`, so an ID equal to the number of dictionaries slips through. */
  function LookupDict(dictID: byte, nd: nat): Lookup {
    if dictID > nd then TooBig else if dictID == nd then OutOfRange else Found
  }

  function ReadOffset(flags: Flags, request: Request, payload: Buffer): (r: EntryResult)
    ensures r.Good? ==> |r.rest| <= |payload|
  {
    if !flags.hasOffset then Good(request, payload)
    else match VarInt.Read(8, payload)
      case Value(rest, v) => Good(request.(offset := v), rest)
      case Failed(_, err) => Bad(err)
  }

  function ReadTruncate(flags: Flags, request: Request, payload: Buffer): (r: EntryResult)
    ensures r.Good? ==> |r.rest| <= |payload|
  {
    if !flags.append then ReadOffset(flags, request, payload)
    else if payload == [] then Bad(VarInt.UnexpectedEof)
    else
      var flagged := request.(e := payload[0] >= 128, d := payload[0] / 64 % 2 == 1);
      match VarInt.Read(6, payload)
      case Value(rest, v) => ReadOffset(flags, flagged.(truncate := v), rest)
      case Failed(_, err) => Bad(err)
  }

  function ParseEntry(flags: Flags, payload: Buffer): (r: EntryResult)
    ensures r.Good? ==> |r.rest| < |payload|
  {
    if |payload| < 2 then Bad(VarInt.UnexpectedEof)
    else match VarInt.Read(7, payload[1..])
      case Value(rest, v) =>
        ReadTruncate(flags, Request(payload[0], v, 0, 0, payload[1] >= 128, false, false), rest)
      case Failed(_, err) => Bad(err)
  }

  function ParseAll(flags: Flags, nd: nat, payload: Buffer): Parsed
    decreases |payload|
  {
    match ParseEntry(flags, payload)
    case Bad(err) => Parsed([], BadInteger(err))
    case Good(request, rest) =>
      match LookupDict(request.dictID, nd)
      case TooBig => Parsed([], DictTooBig)
      case OutOfRange => Parsed([], IndexPanic)
      case Found =>
        if rest == [] then Parsed([request], Complete)
        else
          var more := ParseAll(flags, nd, rest);
          Parsed([request] + more.requests, more.ending)
  }

  function EntryBytes(entry: Entry): Buffer {
    [entry.dictID] + VarInt.Encode(7, entry.size) + [0x80]
  }

  function Payload(entries: seq<Entry>): Buffer {
    if entries == [] then [] else EntryBytes(entries[0]) + Payload(entries[1..])
  }

  function Sent(entry: Entry): Request {
    Request(entry.dictID, entry.size, 0, 0, false, true, false)
  }

  function SentAll(entries: seq<Entry>): seq<Request> {
    seq(|entries|, i requires 0 <= i < |entries| => Sent(entries[i]))
  }

  method AppendEntry(payload: Buffer, entry: Entry) returns (r: Buffer)
    ensures r == payload + EntryBytes(entry)
  {
    hide VarInt.Encode;
    r := payload + [entry.dictID];
    r := VarInt.AppendVarInt(r, 7, entry.size);
    r := r + [0x80];
  }

  method WritePayload(entries: seq<Entry>) returns (payload: Buffer)
    ensures payload == Payload(entries)
  {
    payload := [];
    var i := 0;
    while i < |entries|
      invariant 0 <= i <= |entries|
      invariant payload + Payload(entries[i..]) == Payload(entries)
    {
      hide *;
      PayloadSplit(entries, i);
      Associate(payload, EntryBytes(entries[i]), Payload(entries[i + 1..]));
      payload := AppendEntry(payload, entries[i]);
      i := i + 1;
    }
  }

  lemma PayloadSplit(entries: seq<Entry>, i: nat)
    requires i < |entries|
    ensures Payload(entries[i..]) == EntryBytes(entries[i]) + Payload(entries[i + 1..])
  {
    assert entries[i..][1..] == entries[i + 1..];
  }

  method ParsePayload(flags: Flags, nd: nat, payload0: Buffer) returns (parsed: Parsed)
    ensures parsed == ParseAll(flags, nd, payload0)
  {
    var payload := payload0;
    var requests: seq<Request> := [];
    while true
      invariant ParseAll(flags, nd, payload0) ==
                var more := ParseAll(flags, nd, payload);
                Parsed(requests + more.requests, more.ending)
      decreases |payload|
    {
      var entry := ParseEntry(flags, payload);
      if entry.Bad? {
        return Parsed(requests, BadInteger(entry.err));
      }
      match LookupDict(entry.request.dictID, nd) {
        case TooBig => return Parsed(requests, DictTooBig);
        case OutOfRange => return Parsed(requests, IndexPanic);
        case Found =>
      }
      if entry.rest == [] {
        return Parsed(requests + [entry.request], Complete);
      }
      AppendMore(requests, entry.request, ParseAll(flags, nd, entry.rest).requests);
      requests := requests + [entry.request];
      payload := entry.rest;
    }
  }

  /** Every update that gets through names a dictionary that exists. */
  lemma {:induction false} ParsedIds(flags: Flags, nd: nat, payload: Buffer)
    ensures forall r :: r in ParseAll(flags, nd, payload).requests ==> r.dictID < nd
    decreases |payload|
  {
    var entry := ParseEntry(flags, payload);
    if entry.Good? && LookupDict(entry.request.dictID, nd).Found? && entry.rest != [] {
      ParsedIds(flags, nd, entry.rest);
    }
  }

  /** The position of the first entry whose ID is not below `nd`, or the length. */
  function FirstBeyond(requests: seq<Request>, nd: nat): (i: nat)
    ensures i <= |requests| && (forall j :: 0 <= j < i ==> requests[j].dictID < nd)
    ensures i < |requests| ==> requests[i].dictID >= nd
  {
    if requests == [] || requests[0].dictID >= nd then 0 else 1 + FirstBeyond(requests[1..], nd)
  }

  /**
    What the number of dictionaries does to a frame: parsing stops at the first entry, among all that can be read
    from the frame, with an ID not below it, with an error if the ID is greater and a panic exactly if it is equal.
   */
  lemma {:induction false} EndingExactly(flags: Flags, nd: nat, payload: Buffer)
    ensures var every := ParseAll(flags, 256, payload);
            var i := FirstBeyond(every.requests, nd);
            ParseAll(flags, nd, payload) ==
            if i == |every.requests| then every
            else Parsed(every.requests[..i], if every.requests[i].dictID == nd then IndexPanic else DictTooBig)
    decreases |payload|
  {
    hide ParseEntry;
    var entry := ParseEntry(flags, payload);
    var every := ParseAll(flags, 256, payload);
    if entry.Good? && entry.rest != [] {
      EndingExactly(flags, nd, entry.rest);
      var more := ParseAll(flags, 256, entry.rest);
      assert every.requests == [entry.request] + more.requests;
      assert every.requests[1..] == more.requests;
      var i := FirstBeyond(more.requests, nd);
      assert every.requests[..i + 1] == [entry.request] + more.requests[..i];
    }
  }

  lemma EveryEntryEnds(flags: Flags, payload: Buffer)
    ensures ParseAll(flags, 256, payload).ending.Complete? || ParseAll(flags, 256, payload).ending.BadInteger?
    decreases |payload|
  {
    hide ParseEntry;
    var entry := ParseEntry(flags, payload);
    if entry.Good? && entry.rest != [] {
      EveryEntryEnds(flags, entry.rest);
    }
  }

  /**
    A frame makes the receiver panic exactly if the first entry with an ID not below the number of dictionaries has
    that ID.
   */
  lemma PanicsExactly(flags: Flags, nd: nat, payload: Buffer)
    ensures var requests := ParseAll(flags, 256, payload).requests;
            var i := FirstBeyond(requests, nd);
            ParseAll(flags, nd, payload).ending == IndexPanic <==> i < |requests| && requests[i].dictID == nd
  {
    EndingExactly(flags, nd, payload);
    EveryEntryEnds(flags, payload);
  }

  /** The smallest such frame. */
  lemma EqualIdPanics(nd: byte, size: byte)
    requires size < 127
    ensures ParseAll(Flags(true, false), nd, [nd, size, 0x80]) == Parsed([], IndexPanic)
  {
    var entry := Entry(nd, size);
    VarInt.EncodeShape(7, size);
    assert Pow2(7) == 128;
    assert EntryBytes(entry) + [] == [nd, size, 0x80];
    EntryRoundTrip(entry, []);
  }

  lemma AppendMore(a: seq<Request>, x: Request, b: seq<Request>)
    ensures a + ([x] + b) == a + [x] + b
  {
  }

  /**
    The parser returns, in order, exactly the updates the writer asked for, with truncate and offset zero
    and only E set. An empty list of updates is refused.
   */
  lemma {:induction false} PayloadRoundTrip(entries: seq<Entry>, nd: nat)
    requires forall i :: 0 <= i < |entries| ==> entries[i].dictID < nd && entries[i].size < TWO_63 + 127
    ensures ParseAll(Flags(true, false), nd, Payload(entries)) ==
            if entries == [] then Parsed([], BadInteger(VarInt.UnexpectedEof))
            else Parsed(SentAll(entries), Complete)
  {
    hide EntryBytes;
    if entries != [] {
      var rest := Payload(entries[1..]);
      EntryRoundTrip(entries[0], rest);
      if |entries| == 1 {
        assert SentAll(entries) == [Sent(entries[0])];
      } else {
        PayloadRoundTrip(entries[1..], nd);
        PayloadNonEmpty(entries[1..]);
        assert SentAll(entries) == [Sent(entries[0])] + SentAll(entries[1..]);
      }
    }
  }

  // ----- entries with all their flags -----

  /** An integer with bits above its prefix set. */
  function Flagged(code: Buffer, bits: byte): Buffer
    requires code != [] && code[0] + bits < 256
  {
    [code[0] + bits] + code[1..]
  }

  /** The fields a frame with these flags can carry. */
  predicate Carries(flags: Flags, r: Request) {
    && r.size < TWO_63 + 127 && r.truncate < TWO_63 + 63 && r.offset < TWO_63 + 255
    && (!flags.append ==> r.truncate == 0 && !r.e && !r.d) && (!flags.hasOffset ==> r.offset == 0)
  }

  function SizeBytes(r: Request): Buffer {
    VarInt.FirstFits(7, r.size);
    Flagged(VarInt.Encode(7, r.size), if r.p then 128 else 0)
  }

  function TruncateBytes(r: Request): Buffer {
    VarInt.FirstFits(6, r.truncate);
    Flagged(VarInt.Encode(6, r.truncate), (if r.e then 128 else 0) + (if r.d then 64 else 0))
  }

  /** Dictionary-Entry as the frame format lays it out: ID, P and size, then E, D and truncate, then offset. */
  function EntryOf(flags: Flags, r: Request): Buffer {
    [r.dictID] + SizeBytes(r) + (if flags.append then TruncateBytes(r) else [])
    + (if flags.hasOffset then VarInt.Encode(8, r.offset) else [])
  }

  lemma FlaggedReads(n: byte, v: uint64, bits: byte, tail: Buffer)
    requires 1 <= n <= 8 && v < TWO_63 + Pow2(n) - 1
    requires var code := VarInt.Encode(n, v);
             code != [] && code[0] + bits < 256 && (code[0] + bits) % Pow2(n) == code[0] % Pow2(n)
    ensures VarInt.Read(n, Flagged(VarInt.Encode(n, v), bits) + tail) == VarInt.Value(tail, v)
  {
    hide VarInt.Encode, VarInt.Read, Pow2;
    var code := VarInt.Encode(n, v);
    var p, q := code + tail, Flagged(code, bits) + tail;
    VarInt.RoundTrip(n, v, tail);
    assert p[1..] == code[1..] + tail == q[1..];
    VarInt.ReadIgnoresHigh(n, p, q);
  }

  lemma SizeReads(r: Request, tail: Buffer)
    requires r.size < TWO_63 + 127
    ensures VarInt.Read(7, SizeBytes(r) + tail) == VarInt.Value(tail, r.size)
    ensures SizeBytes(r) != [] && (SizeBytes(r)[0] >= 128 <==> r.p)
  {
    assert Pow2(7) == 128;
    VarInt.FirstFits(7, r.size);
    FlaggedReads(7, r.size, if r.p then 128 else 0, tail);
  }

  lemma TruncateReads(r: Request, tail: Buffer)
    requires r.truncate < TWO_63 + 63
    ensures VarInt.Read(6, TruncateBytes(r) + tail) == VarInt.Value(tail, r.truncate)
    ensures var t := TruncateBytes(r); t != [] && (t[0] >= 128 <==> r.e) && (t[0] / 64 % 2 == 1 <==> r.d)
  {
    assert Pow2(6) == 64;
    VarInt.FirstFits(6, r.truncate);
    FlaggedReads(6, r.truncate, (if r.e then 128 else 0) + (if r.d then 64 else 0), tail);
  }

  /** The parser reads every entry back, with all its flags and optional fields, whatever follows it. */
  lemma AnyEntryRoundTrip(flags: Flags, r: Request, rest: Buffer)
    requires Carries(flags, r)
    ensures ParseEntry(flags, EntryOf(flags, r) + rest) == Good(r, rest)
  {
    hide SizeBytes, TruncateBytes, VarInt.Encode, VarInt.Read;
    var offset := if flags.hasOffset then VarInt.Encode(8, r.offset) else [];
    var truncate := if flags.append then TruncateBytes(r) else [];
    var afterSize, afterTruncate := truncate + (offset + rest), offset + rest;
    var payload := EntryOf(flags, r) + rest;
    assert payload[1..] == SizeBytes(r) + afterSize;
    SizeReads(r, afterSize);
    assert payload[1] == SizeBytes(r)[0];
    var r1 := Request(r.dictID, r.size, 0, 0, r.p, false, false);
    assert ParseEntry(flags, payload) == ReadTruncate(flags, r1, afterSize);
    TruncateStep(flags, r, r1, afterTruncate);
    OffsetStep(flags, r, r1.(truncate := r.truncate, e := r.e, d := r.d), rest);
  }

  lemma TruncateStep(flags: Flags, r: Request, r1: Request, tail: Buffer)
    requires Carries(flags, r) && r1.truncate == 0 && !r1.e && !r1.d
    ensures ReadTruncate(flags, r1, (if flags.append then TruncateBytes(r) else []) + tail)
            == ReadOffset(flags, r1.(truncate := r.truncate, e := r.e, d := r.d), tail)
  {
    hide TruncateBytes, VarInt.Read, ReadOffset;
    if flags.append {
      TruncateReads(r, tail);
      assert (TruncateBytes(r) + tail)[0] == TruncateBytes(r)[0];
    } else {
      assert [] + tail == tail;
    }
  }

  lemma OffsetStep(flags: Flags, r: Request, r2: Request, rest: Buffer)
    requires Carries(flags, r) && r2 == r.(offset := 0)
    ensures ReadOffset(flags, r2, (if flags.hasOffset then VarInt.Encode(8, r.offset) else []) + rest) == Good(r, rest)
  {
    hide VarInt.Read, VarInt.Encode;
    if flags.hasOffset {
      assert Pow2(8) == 256;
      VarInt.RoundTrip(8, r.offset, rest);
    } else {
      assert [] + rest == rest;
    }
  }

  lemma PayloadNonEmpty(entries: seq<Entry>)
    requires entries != []
    ensures Payload(entries) != []
  {
  }

  lemma EntryRoundTrip(entry: Entry, rest: Buffer)
    requires entry.size < TWO_63 + 127
    ensures ParseEntry(Flags(true, false), EntryBytes(entry) + rest) == Good(Sent(entry), rest)
  {
    var flags := Flags(true, false);
    var code, tail := VarInt.Encode(7, entry.size), [0x80] + rest;
    var payload := EntryBytes(entry) + rest;
    assert payload[1..] == code + tail;
    SizeRoundTrip(entry.size, tail);
    assert payload[1] == code[0];
    var request := Request(entry.dictID, entry.size, 0, 0, false, false, false);
    TruncateByte(request, rest);
    assert ParseEntry(flags, payload) == ReadTruncate(flags, request, tail);
  }

  lemma SizeRoundTrip(size: uint64, tail: Buffer)
    requires size < TWO_63 + 127
    ensures var code := VarInt.Encode(7, size); code != [] && code[0] < 128
    ensures VarInt.Read(7, VarInt.Encode(7, size) + tail) == VarInt.Value(tail, size)
  {
    VarInt.RoundTrip(7, size, tail);
    VarInt.EncodeShape(7, size);
    assert Pow2(7) == 128;
  }

  lemma TruncateByte(request: Request, rest: Buffer)
    ensures ReadTruncate(Flags(true, false), request, [0x80] + rest)
            == Good(request.(e := true, d := false, truncate := 0), rest)
  {
    var p: Buffer := [0x80] + rest;
    assert p[1..] == rest;
    assert VarInt.Read(6, p) == VarInt.Value(rest, 0) by {
      assert Pow2(6) == 64;
      assert p[0] % 64 == 0;
    }
  }
}
