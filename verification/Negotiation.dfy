/** The compression parameters two muxers settle on during the handshake. */
module Negotiation {
  import opened Bytes

  datatype Preset = Preset(nDicts: byte, dictSize: byte, quality: byte)

  /** A CompressionSetting outside the table has no preset. */
  function PresetOf(setting: nat): Option<Preset> {
    if setting == 0 then Some(Preset(0, 0, 0))
    else if setting == 1 then Some(Preset(32, 17, 5))
    else if setting == 2 then Some(Preset(64, 18, 6))
    else if setting == 3 then Some(Preset(255, 19, 9))
    else None
  }

  const NONE := Preset(0, 0, 0)
  const VERSION: byte := 1
  const FORMAT: byte := 2

  function SettingVal(version: byte, format: byte, sz: byte, nd: byte): (v: uint32) {
    version * 0x100_0000 + format * 0x1_0000 + sz * 0x100 + nd
  }

  datatype Fields = Fields(version: byte, format: byte, sz: byte, nd: byte)

  function ParseSettingVal(setting: uint32): Fields {
    Fields(setting / 0x100_0000, setting / 0x1_0000 % 0x100, setting / 0x100 % 0x100, setting % 0x100)
  }

  lemma SettingRoundTrip(version: byte, format: byte, sz: byte, nd: byte)
    ensures ParseSettingVal(SettingVal(version, format, sz, nd)) == Fields(version, format, sz, nd)
  {
    var v := SettingVal(version, format, sz, nd);
    assert v / 0x100 == version * 0x1_0000 + format * 0x100 + sz;
    assert v / 0x1_0000 == version * 0x100 + format;
  }

  /** What one end brings to the handshake: its configured setting, and whether it was built with the compressor. */
  datatype Endpoint = Endpoint(setting: nat, supported: bool)

  function ToH2Setting(setting: nat): uint32 {
    match PresetOf(setting)
    case None => 0
    case Some(p) => SettingVal(VERSION, FORMAT, p.dictSize, p.nDicts)
  }

  /** The SETTINGS value an end sends, and the quality it starts from. */
  function Offer(e: Endpoint): uint32 {
    if e.supported then ToH2Setting(e.setting) else 0
  }

  function Own(e: Endpoint): Preset {
    if !e.supported || PresetOf(e.setting).None? then NONE else PresetOf(e.setting).value
  }

  class Muxer {
    var compressionQuality: Preset

    constructor (e: Endpoint)
      ensures compressionQuality == Own(e)
    {
      compressionQuality := Own(e);
    }

    /** The compression part of readPeerSettings; the peer may not have sent the setting at all. */
    method ReadPeerSettings(peerCompression: Option<uint32>)
      modifies this
      ensures compressionQuality == Narrow(old(compressionQuality), peerCompression)
      ensures peerCompression.None? ==> compressionQuality == NONE
      ensures forall version: byte, format: byte, sz: byte, nd: byte ::
                peerCompression == Some(SettingVal(version, format, sz, nd)) ==>
                  if version == 1 && format == 2 && sz > 0 && nd > 0 then
                    compressionQuality ==
                    Preset(Min(nd, old(compressionQuality).nDicts), Min(sz, old(compressionQuality).dictSize),
                           old(compressionQuality).quality)
                  else compressionQuality == NONE
    {
      forall version: byte, format: byte, sz: byte, nd: byte
        ensures ParseSettingVal(SettingVal(version, format, sz, nd)) == Fields(version, format, sz, nd)
      {
        SettingRoundTrip(version, format, sz, nd);
      }
      hide SettingVal, ParseSettingVal;
      if peerCompression.None? {
        compressionQuality := NONE;
        return;
      }
      var f := ParseSettingVal(peerCompression.value);
      if f.version != VERSION || f.format != FORMAT || f.sz == 0 || f.nd == 0 {
        compressionQuality := NONE;
        return;
      }
      if f.sz < compressionQuality.dictSize {
        compressionQuality := compressionQuality.(dictSize := f.sz);
      }
      if f.nd < compressionQuality.nDicts {
        compressionQuality := compressionQuality.(nDicts := f.nd);
      }
    }
  }

  function Narrow(own: Preset, peer: Option<uint32>): Preset {
    if peer.None? then NONE
    else
      var f := ParseSettingVal(peer.value);
      if f.version != VERSION || f.format != FORMAT || f.sz == 0 || f.nd == 0 then NONE
      else own.(dictSize := Min(f.sz, own.dictSize), nDicts := Min(f.nd, own.nDicts))
  }

  /** Handshake sets up dictionaries only for a non-zero size and number. */
  predicate Enabled(p: Preset) {
    p.dictSize > 0 && p.nDicts > 0
  }

  /**
    The two ends of a handshake settle on the same number and size of dictionaries, and compression is on
    exactly when both ends support it and both were configured for a level above none.
   */
  lemma Agreement(a: Endpoint, b: Endpoint)
    ensures var x, y := Narrow(Own(a), Some(Offer(b))), Narrow(Own(b), Some(Offer(a)));
            && x.nDicts == y.nDicts && x.dictSize == y.dictSize
            && (Enabled(x) <==> a.supported && b.supported && 1 <= a.setting <= 3 && 1 <= b.setting <= 3)
            && x.nDicts == Min(Own(a).nDicts, Own(b).nDicts) && x.dictSize == Min(Own(a).dictSize, Own(b).dictSize)
  {
    OfferReads(a);
    OfferReads(b);
  }

  lemma OfferReads(e: Endpoint)
    ensures var f := ParseSettingVal(Offer(e));
            if e.supported && e.setting <= 3 then f == Fields(VERSION, FORMAT, Own(e).dictSize, Own(e).nDicts)
            else f.version != VERSION && Own(e) == NONE
  {
    if e.supported && e.setting <= 3 {
      SettingRoundTrip(VERSION, FORMAT, Own(e).dictSize, Own(e).nDicts);
    }
  }
}
