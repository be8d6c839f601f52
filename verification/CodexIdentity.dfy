/** Identities derived for a Codex connection: UUIDs out of digests, and the persisted random seed that
  keeps them stable across saves.

  The hash is a parameter: any function from strings to 32 bytes.
 */
module CodexIdentity {
  import opened JsString
  import opened Basics

  // ---- Hexadecimal ----

  type Digest = d: seq<bv8> | |d| == 32 witness seq(32, _ => 0)

  type Hash = string -> Digest

  predicate IsHexDigit(c: char) { '0' <= c <= '9' || 'a' <= c <= 'f' || 'A' <= c <= 'F' }

  /** The lower-case digit of a nibble. */
  function HexDigit(n: bv8): (c: char)
    ensures IsHexDigit(c)
  {
    if n == 0 then '0'
    else if n == 1 then '1'
    else if n == 2 then '2'
    else if n == 3 then '3'
    else if n == 4 then '4'
    else if n == 5 then '5'
    else if n == 6 then '6'
    else if n == 7 then '7'
    else if n == 8 then '8'
    else if n == 9 then '9'
    else if n == 10 then 'a'
    else if n == 11 then 'b'
    else if n == 12 then 'c'
    else if n == 13 then 'd'
    else if n == 14 then 'e'
    else 'f'
  }

  /** The digits in their order. */
  lemma HexDigitIs(n: bv8)
    requires n < 16
    ensures HexDigit(n) == "0123456789abcdef"[n as int]
  {
  }

  function HexByte(b: bv8): string { [HexDigit(b >> 4), HexDigit(b & 0x0f)] }

  function Hex(bytes: seq<bv8>): (h: string)
    ensures |h| == 2 * |bytes|
    ensures forall c :: c in h ==> IsHexDigit(c)
  {
    if bytes == [] then "" else HexByte(bytes[0]) + Hex(bytes[1..])
  }

  function DigitValue(c: char): bv8 {
    if c == '0' then 0
    else if c == '1' then 1
    else if c == '2' then 2
    else if c == '3' then 3
    else if c == '4' then 4
    else if c == '5' then 5
    else if c == '6' then 6
    else if c == '7' then 7
    else if c == '8' then 8
    else if c == '9' then 9
    else if c == 'a' || c == 'A' then 10
    else if c == 'b' || c == 'B' then 11
    else if c == 'c' || c == 'C' then 12
    else if c == 'd' || c == 'D' then 13
    else if c == 'e' || c == 'E' then 14
    else if c == 'f' || c == 'F' then 15
    else 0
  }

  function Unhex(h: string): (bytes: seq<bv8>)
    requires |h| % 2 == 0
  {
    if h == "" then [] else [(DigitValue(h[0]) << 4) | DigitValue(h[1])] + Unhex(h[2..])
  }

  lemma {:induction false} HexConcat(a: seq<bv8>, b: seq<bv8>)
    ensures Hex(a + b) == Hex(a) + Hex(b)
  {
    hide HexByte;
    if a == [] {
      assert a + b == b;
    } else {
      assert (a + b)[1..] == a[1..] + b;
      HexConcat(a[1..], b);
    }
  }

  lemma DigitRoundTrip(n: bv8)
    requires n < 16
    ensures DigitValue(HexDigit(n)) == n
  {
  }

  lemma NibblesRebuild(b: bv8)
    ensures b >> 4 < 16 && b & 0x0f < 16 && ((b >> 4) << 4) | (b & 0x0f) == b
  {
  }

  lemma {:induction false} UnhexOfHex(bytes: seq<bv8>)
    ensures Unhex(Hex(bytes)) == bytes
  {
    hide HexDigit, DigitValue;
    if bytes != [] {
      var h := Hex(bytes);
      NibblesRebuild(bytes[0]);
      DigitRoundTrip(bytes[0] >> 4);
      DigitRoundTrip(bytes[0] & 0x0f);
      assert h[2..] == Hex(bytes[1..]);
      UnhexOfHex(bytes[1..]);
    }
  }

  // ---- UUIDs ----

  /** The validator: five groups of hexadecimal digits of either case, a version from 1 to 5 and the
    variant of section 4.4 of RFC 4122. */
  predicate MatchesUuid(s: string) {
    && |s| == 36
    && (forall i :: 0 <= i < 36 ==>
          if i == 8 || i == 13 || i == 18 || i == 23 then s[i] == '-' else IsHexDigit(s[i]))
    && '1' <= s[14] <= '5'
    && s[19] in "89abAB"
  }

  function NormalizeUuid(value: Option<string>): (r: Option<string>)
    ensures r.Some? ==> MatchesUuid(r.value) && Trimmed(r.value)
  {
    if value.Some? && MatchesUuid(Trim(value.value)) then Some(Trim(value.value)) else None
  }

  function Dashed(h: string): (s: string)
    requires |h| == 32
    ensures |s| == 36
  {
    h[..8] + "-" + h[8..12] + "-" + h[12..16] + "-" + h[16..20] + "-" + h[20..]
  }

  function Undashed(s: string): (h: string)
    requires |s| == 36
    ensures |h| == 32
  {
    s[..8] + s[9..13] + s[14..18] + s[19..23] + s[24..]
  }

  function VersionByte(b: bv8): bv8 { (b & 0x0f) | 0x40 }

  function VariantByte(b: bv8): bv8 { (b & 0x3f) | 0x80 }

  /** The 16 bytes of the UUID: those of the digest with version and variant written in. */
  function UuidBytes(digest: Digest): (bytes: seq<bv8>)
    ensures |bytes| == 16
  {
    digest[..16][6 := VersionByte(digest[6])][8 := VariantByte(digest[8])]
  }

  function StableUuid(digest: Digest): string { Dashed(Hex(UuidBytes(digest))) }

  lemma DashedGroups(a: string, b: string, c: string, d: string, e: string)
    requires |a| == 8 && |b| == 4 && |c| == 4 && |d| == 4 && |e| == 12
    ensures Dashed(a + (b + (c + (d + e)))) == a + "-" + b + "-" + c + "-" + d + "-" + e
  {
    var h := a + (b + (c + (d + e)));
    assert h[..8] == a && h[8..12] == b && h[12..16] == c && h[16..20] == d && h[20..] == e;
  }

  lemma HexSplit(bytes: seq<bv8>, lo: nat, mid: nat)
    requires lo <= mid <= |bytes|
    ensures Hex(bytes[lo..]) == Hex(bytes[lo..mid]) + Hex(bytes[mid..])
  {
    assert bytes[lo..] == bytes[lo..mid] + bytes[mid..];
    HexConcat(bytes[lo..mid], bytes[mid..]);
  }

  lemma HexGroups(bytes: seq<bv8>)
    requires |bytes| == 16
    ensures Hex(bytes[..4]) + "-" + Hex(bytes[4..6]) + "-" + Hex(bytes[6..8]) + "-" + Hex(bytes[8..10])
            + "-" + Hex(bytes[10..])
         == Dashed(Hex(bytes))
  {
    hide Hex, Dashed;
    HexSplit(bytes, 0, 4);
    HexSplit(bytes, 4, 6);
    HexSplit(bytes, 6, 8);
    HexSplit(bytes, 8, 10);
    assert bytes[0..4] == bytes[..4] && bytes[0..] == bytes;
    DashedGroups(Hex(bytes[..4]), Hex(bytes[4..6]), Hex(bytes[6..8]), Hex(bytes[8..10]), Hex(bytes[10..]));
  }

  method DeriveStableUuidV4(digest: Digest) returns (uuid: string)
    ensures uuid == StableUuid(digest)
  {
    var bytes := new bv8[16](i requires 0 <= i < 16 => digest[i]);
    bytes[6] := (bytes[6] & 0x0f) | 0x40;
    bytes[8] := (bytes[8] & 0x3f) | 0x80;
    assert bytes[..] == UuidBytes(digest);
    uuid := Hex(bytes[..4]) + "-" + Hex(bytes[4..6]) + "-" + Hex(bytes[6..8]) + "-" + Hex(bytes[8..10])
            + "-" + Hex(bytes[10..]);
    HexGroups(bytes[..]);
    assert bytes[..][..4] == bytes[..4] && bytes[..][4..6] == bytes[4..6] && bytes[..][6..8] == bytes[6..8];
    assert bytes[..][8..10] == bytes[8..10] && bytes[..][10..] == bytes[10..];
  }

  // ---- Reading a UUID back ----

  lemma UndashedOfDashed(h: string)
    requires |h| == 32
    ensures Undashed(Dashed(h)) == h
  {
    var s := Dashed(h);
    assert s[..8] == h[..8] && s[9..13] == h[8..12] && s[14..18] == h[12..16] && s[19..23] == h[16..20];
    assert s[24..] == h[20..];
  }

  lemma UuidDecodes(digest: Digest)
    ensures Unhex(Undashed(StableUuid(digest))) == UuidBytes(digest)
  {
    hide Hex, Unhex;
    UndashedOfDashed(Hex(UuidBytes(digest)));
    UnhexOfHex(UuidBytes(digest));
  }

  lemma FixedBits(b: bv8, c: bv8)
    ensures VersionByte(b) >> 4 == 4 && VersionByte(b) & 0x0f == b & 0x0f
    ensures VariantByte(b) >> 6 == 2 && VariantByte(b) & 0x3f == b & 0x3f
    ensures VersionByte(b) == VersionByte(c) <==> b & 0x0f == c & 0x0f
    ensures VariantByte(b) == VariantByte(c) <==> b & 0x3f == c & 0x3f
  {
  }

  /** Decoding a derived UUID gives version 4, the RFC variant, and the digest's own bits in every other place. */
  lemma UuidKeepsDigest(digest: Digest)
    ensures var bytes := Unhex(Undashed(StableUuid(digest)));
            && |bytes| == 16
            && bytes[6] >> 4 == 4 && bytes[6] & 0x0f == digest[6] & 0x0f
            && bytes[8] >> 6 == 2 && bytes[8] & 0x3f == digest[8] & 0x3f
            && forall i :: 0 <= i < 16 && i != 6 && i != 8 ==> bytes[i] == digest[i]
  {
    hide VersionByte, VariantByte, StableUuid, Unhex;
    UuidDecodes(digest);
    FixedBits(digest[6], digest[6]);
    FixedBits(digest[8], digest[8]);
  }

  /** The digest's first 16 bytes agree but for the four version bits and the two variant bits. */
  predicate AgreeOnFreeBits(d: Digest, e: Digest) {
    && (forall i :: 0 <= i < 16 && i != 6 && i != 8 ==> d[i] == e[i])
    && d[6] & 0x0f == e[6] & 0x0f
    && d[8] & 0x3f == e[8] & 0x3f
  }

  lemma AgreeSameBytes(d: Digest, e: Digest)
    requires AgreeOnFreeBits(d, e)
    ensures UuidBytes(d) == UuidBytes(e)
  {
    hide VersionByte, VariantByte;
    FixedBits(d[6], e[6]);
    FixedBits(d[8], e[8]);
    assert forall i :: 0 <= i < 16 ==> UuidBytes(d)[i] == UuidBytes(e)[i];
  }

  lemma SameBytesAgree(d: Digest, e: Digest)
    requires UuidBytes(d) == UuidBytes(e)
    ensures AgreeOnFreeBits(d, e)
  {
    hide VersionByte, VariantByte;
    FixedBits(d[6], e[6]);
    FixedBits(d[8], e[8]);
    var x, y := UuidBytes(d), UuidBytes(e);
    assert forall i :: 0 <= i < 16 && i != 6 && i != 8 ==> x[i] == d[i] && y[i] == e[i];
    assert x[6] == y[6] && x[8] == y[8];
  }

  lemma SameUuidSameBytes(d: Digest, e: Digest)
    ensures StableUuid(d) == StableUuid(e) <==> UuidBytes(d) == UuidBytes(e)
  {
    hide UuidBytes, Undashed, Unhex;
    UuidDecodes(d);
    UuidDecodes(e);
  }

  /** The UUID carries 122 bits of the digest, no more and no less. */
  lemma SameUuidIff(d: Digest, e: Digest)
    ensures StableUuid(d) == StableUuid(e) <==> AgreeOnFreeBits(d, e)
  {
    hide StableUuid, AgreeOnFreeBits, UuidBytes;
    SameUuidSameBytes(d, e);
    if AgreeOnFreeBits(d, e) { AgreeSameBytes(d, e); }
    if UuidBytes(d) == UuidBytes(e) { SameBytesAgree(d, e); }
  }

  // ---- Validity ----

  lemma {:induction false} HexAt(bytes: seq<bv8>, k: nat)
    requires k < |bytes|
    ensures Hex(bytes)[2 * k] == HexDigit(bytes[k] >> 4)
  {
    assert bytes == bytes[..k] + bytes[k..];
    HexConcat(bytes[..k], bytes[k..]);
    assert Hex(bytes[k..])[0] == HexByte(bytes[k])[0];
  }

  lemma DashedAt(h: string, i: nat)
    requires |h| == 32 && i < 36
    ensures Dashed(h)[i] == if i < 8 then h[i] else if i == 8 then '-'
                            else if i < 13 then h[i - 1] else if i == 13 then '-'
                            else if i < 18 then h[i - 2] else if i == 18 then '-'
                            else if i < 23 then h[i - 3] else if i == 23 then '-'
                            else h[i - 4]
  {
  }

  lemma {:induction false} DashedMatches(h: string)
    requires |h| == 32 && (forall c :: c in h ==> IsHexDigit(c))
    requires '1' <= h[12] <= '5' && h[16] in "89abAB"
    ensures NormalizeUuid(Some(Dashed(h))) == Some(Dashed(h))
  {
    var s := Dashed(h);
    forall i | 0 <= i < 36
      ensures if i == 8 || i == 13 || i == 18 || i == 23 then s[i] == '-' else IsHexDigit(s[i])
    {
      DashedAt(h, i);
    }
    DashedAt(h, 0);
    DashedAt(h, 14);
    DashedAt(h, 19);
    DashedAt(h, 35);
    assert MatchesUuid(s);
    assert IsHexDigit(h[0]) && IsHexDigit(h[31]);
    assert Trimmed(s);
    TrimFixesTrimmed(s);
  }

  lemma FixedDigits(b: bv8)
    ensures HexDigit(VersionByte(b) >> 4) == '4'
    ensures HexDigit(VariantByte(b) >> 4) in "89ab"
  {
    assert VersionByte(b) >> 4 == 4;
    var n := VariantByte(b) >> 4;
    assert n == 8 || n == 9 || n == 10 || n == 11;
    assert "89ab"[0] == '8' && "89ab"[1] == '9' && "89ab"[2] == 'a' && "89ab"[3] == 'b';
  }

  /** Every derived UUID is accepted unchanged by the validator. */
  lemma {:induction false} StableUuidIsValid(digest: Digest)
    ensures NormalizeUuid(Some(StableUuid(digest))) == Some(StableUuid(digest))
  {
    hide Hex, HexDigit, VersionByte, VariantByte, NormalizeUuid, Dashed;
    var bytes := UuidBytes(digest);
    HexAt(bytes, 6);
    HexAt(bytes, 8);
    FixedDigits(digest[6]);
    FixedDigits(digest[8]);
    assert forall c :: c in "89ab" ==> c in "89abAB";
    DashedMatches(Hex(bytes));
  }

  /** The historical layout: the digest's own digits but for a fixed version and variant digit. */
  function LegacyDigits(digest: Digest): (h: string)
    ensures |h| == 32
  {
    var hash := Hex(digest);
    hash[..12] + "4" + hash[13..16] + "a" + hash[17..32]
  }

  function LegacyUuid(digest: Digest): string {
    var hash := Hex(digest);
    hash[..8] + "-" + hash[8..12] + "-4" + hash[13..16] + "-a" + hash[17..20] + "-" + hash[20..32]
  }

  lemma LegacyIsDashed(digest: Digest)
    ensures LegacyUuid(digest) == Dashed(LegacyDigits(digest))
  {
    hide Hex;
    var hash, h := Hex(digest), LegacyDigits(digest);
    assert hash[17..32] == hash[17..20] + hash[20..32];
    assert h == hash[..8] + hash[8..12] + ("4" + hash[13..16]) + ("a" + hash[17..20]) + hash[20..32];
    assert h[..8] == hash[..8] && h[8..12] == hash[8..12] && h[12..16] == "4" + hash[13..16];
    assert h[16..20] == "a" + hash[17..20] && h[20..] == hash[20..32];
  }

  /** The legacy layout is accepted too, and keeps all but two of the digest's first 32 digits. */
  lemma LegacyUuidIsValid(digest: Digest)
    ensures NormalizeUuid(Some(LegacyUuid(digest))) == Some(LegacyUuid(digest))
    ensures Undashed(LegacyUuid(digest)) == LegacyDigits(digest)
    ensures forall i :: 0 <= i < 32 && i != 12 && i != 16 ==> LegacyDigits(digest)[i] == Hex(digest)[i]
  {
    var h := LegacyDigits(digest);
    LegacyIsDashed(digest);
    hide Hex, NormalizeUuid, Dashed, Undashed, LegacyUuid;
    UndashedOfDashed(h);
    assert "89abAB"[2] == 'a';
    DashedMatches(h);
  }

  // ---- Provider data and the persisted seed ----

  const SEED_KEY := "codexFingerprintSeed"
  const MODE_KEY := "codexFingerprintMode"
  const LEGACY_MODE_KEY := "codex_fingerprint_mode"

  /** What a provider-data field holds: a string, or some value that is none. */
  datatype Value = Str(s: string) | Other(n: int)

  type Data = map<string, Value>

  datatype Credentials = Credentials(accessToken: Option<Value>, refreshToken: Option<Value>)

  datatype Mode = Off | Device | Session | Full

  function StringAt(data: Data, key: string): Option<string> {
    if key in data && data[key].Str? then Some(data[key].s) else None
  }

  function NonEmpty(s: Option<string>): Option<string> {
    if s.Some? && Trim(s.value) != "" then Some(Trim(s.value)) else None
  }

  function OrElse(a: Option<string>, b: Option<string>): Option<string> { if a.Some? then a else b }

  function AsString(v: Option<Value>): Option<string> {
    if v.Some? && v.value.Str? then Some(v.value.s) else None
  }

  predicate IsOAuth(c: Credentials) {
    NonEmpty(AsString(c.accessToken)).Some? || NonEmpty(AsString(c.refreshToken)).Some?
  }

  /** Anything that is no mode counts as session. */
  function ModeOf(data: Data): Mode {
    match OrElse(NonEmpty(StringAt(data, MODE_KEY)), NonEmpty(StringAt(data, LEGACY_MODE_KEY)))
    case Some(raw) =>
      if Lower(raw) == "off" then Off
      else if Lower(raw) == "device" then Device
      else if Lower(raw) == "full" then Full
      else Session
    case None => Session
  }

  predicate RequiresSeed(m: Mode) { m != Off }

  function SeedOf(data: Data): Option<string> { NormalizeUuid(StringAt(data, SEED_KEY)) }

  function SeedIn(stored: Option<Data>): Option<string> { if stored.Some? then SeedOf(stored.value) else None }

  /** What a save stores; None stands for nothing to store. `random` is the random UUID at hand. */
  function Saved(inbound: Option<Data>, creds: Credentials, existing: Option<Data>, random: string): Option<Data> {
    var data: Data := (if inbound.Some? then inbound.value else map[]) - {SEED_KEY};
    if !IsOAuth(creds) then (if data != map[] then Some(data) else None)
    else if SeedIn(existing).Some? then Some(data[SEED_KEY := Str(SeedIn(existing).value)])
    else if RequiresSeed(ModeOf(data)) then Some(data[SEED_KEY := Str(random)])
    else if data != map[] then Some(data)
    else None
  }

  datatype Save = Save(inbound: Option<Data>, creds: Credentials, random: string)

  function InboundMode(s: Save): Mode {
    ModeOf((if s.inbound.Some? then s.inbound.value else map[]) - {SEED_KEY})
  }

  /** The seed a save leaves behind when it finds `seed`. */
  function NextSeed(s: Save, seed: Option<string>): Option<string> {
    if !IsOAuth(s.creds) then None
    else if seed.Some? then seed
    else if RequiresSeed(InboundMode(s)) then Some(s.random)
    else None
  }

  /** The field under `key` of what is stored, if there is one. */
  function FieldIn(stored: Option<Data>, key: string): Option<Value> {
    if stored.Some? && key in stored.value then Some(stored.value[key]) else None
  }

  /** Under every other key a save stores exactly what came in. */
  lemma {:induction false} SavedKeepsFields(s: Save, existing: Option<Data>, key: string)
    requires key != SEED_KEY
    ensures FieldIn(Saved(s.inbound, s.creds, existing, s.random), key) == FieldIn(s.inbound, key)
  {
    hide ModeOf, IsOAuth, NormalizeUuid, SeedIn;
    var data: Data := (if s.inbound.Some? then s.inbound.value else map[]) - {SEED_KEY};
    assert data == map[] ==> key !in data;
  }

  lemma {:induction false} SavedSeed(s: Save, existing: Option<Data>)
    ensures var seed := NextSeed(s, SeedIn(existing));
            FieldIn(Saved(s.inbound, s.creds, existing, s.random), SEED_KEY)
            == if seed.Some? then Some(Str(seed.value)) else None
  {
    hide ModeOf, IsOAuth, NormalizeUuid, SeedIn, RequiresSeed;
  }

  lemma {:induction false} SavedNone(s: Save, existing: Option<Data>)
    ensures var stored := Saved(s.inbound, s.creds, existing, s.random);
            stored.None? <==> forall key :: FieldIn(stored, key).None?
  {
    hide ModeOf, IsOAuth, NormalizeUuid, SeedIn, RequiresSeed;
    var stored := Saved(s.inbound, s.creds, existing, s.random);
    if stored.Some? {
      assert stored.value != map[];
      var key :| key in stored.value;
      assert FieldIn(stored, key).Some?;
    }
  }

  /** What a save stores: under every key but the seed's what came in, there the seed that is due, and nothing
    at all exactly when nothing is left. */
  lemma SavedMeans(inbound: Option<Data>, creds: Credentials, existing: Option<Data>, random: string)
    ensures var stored, seed := Saved(inbound, creds, existing, random),
                                NextSeed(Save(inbound, creds, random), SeedIn(existing));
            && (forall key :: key != SEED_KEY ==> FieldIn(stored, key) == FieldIn(inbound, key))
            && FieldIn(stored, SEED_KEY) == (if seed.Some? then Some(Str(seed.value)) else None)
            && (stored.None? <==> forall key :: FieldIn(stored, key).None?)
  {
    hide Saved, FieldIn, NextSeed, SeedIn;
    var save := Save(inbound, creds, random);
    forall key | key != SEED_KEY
      ensures FieldIn(Saved(inbound, creds, existing, random), key) == FieldIn(inbound, key)
    {
      SavedKeepsFields(save, existing, key);
    }
    SavedSeed(save, existing);
    SavedNone(save, existing);
  }

  method EnsureCodexFingerprintSeed(inbound: Option<Data>, creds: Credentials, existing: Option<Data>, random: string)
    returns (stored: Option<Data>)
    ensures stored == Saved(inbound, creds, existing, random)
    ensures forall key :: key != SEED_KEY ==> FieldIn(stored, key) == FieldIn(inbound, key)
    ensures var seed := NextSeed(Save(inbound, creds, random), SeedIn(existing));
            FieldIn(stored, SEED_KEY) == if seed.Some? then Some(Str(seed.value)) else None
    ensures stored.None? <==> forall key :: FieldIn(stored, key).None?
  {
    hide NormalizeUuid, ModeOf, IsOAuth, SeedIn, RequiresSeed, FieldIn, NextSeed;
    SavedMeans(inbound, creds, existing, random);
    var data: Data := if inbound.Some? then inbound.value else map[];
    data := data - {SEED_KEY};
    if !IsOAuth(creds) {
      return if |data| > 0 then Some(data) else None;
    }
    var existingSeed := SeedIn(existing);
    if existingSeed.Some? {
      data := data[SEED_KEY := Str(existingSeed.value)];
      return Some(data);
    }
    if RequiresSeed(ModeOf(data)) {
      data := data[SEED_KEY := Str(random)];
      return Some(data);
    }
    stored := if |data| > 0 then Some(data) else None;
  }

  // ---- Runs of saves ----

  /** What is stored after the first `n` saves, each of which finds what the one before it stored. */
  function StoredAfter(initial: Option<Data>, saves: seq<Save>, n: nat): Option<Data>
    requires n <= |saves|
  {
    if n == 0 then initial
    else
      var s := saves[n - 1];
      Saved(s.inbound, s.creds, StoredAfter(initial, saves, n - 1), s.random)
  }

  /** Random UUIDs match the pattern and carry no white space. */
  predicate FreshSeeds(saves: seq<Save>) {
    forall i :: 0 <= i < |saves| ==> NormalizeUuid(Some(saves[i].random)) == Some(saves[i].random)
  }

  lemma SeedWritten(data: Data, seed: string)
    ensures SeedIn(Some(data[SEED_KEY := Str(seed)])) == NormalizeUuid(Some(seed))
  {
  }

  lemma SeedAbsent(data: Data)
    requires SEED_KEY !in data
    ensures SeedIn(None) == SeedIn(Some(data)) == None
  {
  }

  lemma SeedIsNormal(stored: Option<Data>)
    requires SeedIn(stored).Some?
    ensures NormalizeUuid(SeedIn(stored)) == SeedIn(stored)
  {
    hide MatchesUuid, Trimmed;
    TrimFixesTrimmed(SeedIn(stored).value);
  }

  /** What comes in under the seed key plays no part. */
  lemma {:induction false} SeedAfterSave(s: Save, existing: Option<Data>)
    requires NormalizeUuid(Some(s.random)) == Some(s.random)
    ensures SeedIn(Saved(s.inbound, s.creds, existing, s.random)) == NextSeed(s, SeedIn(existing))
  {
    hide SeedIn, NormalizeUuid, ModeOf, IsOAuth;
    var data: Data := (if s.inbound.Some? then s.inbound.value else map[]) - {SEED_KEY};
    SeedAbsent(data);
    SeedWritten(data, s.random);
    if SeedIn(existing).Some? {
      SeedIsNormal(existing);
      SeedWritten(data, SeedIn(existing).value);
    }
  }

  /** The seed after the first `n` saves, followed without the data around it. */
  function SeedAfter(initial: Option<string>, saves: seq<Save>, n: nat): Option<string>
    requires n <= |saves|
  {
    if n == 0 then initial else NextSeed(saves[n - 1], SeedAfter(initial, saves, n - 1))
  }

  lemma {:induction false} SeedStored(initial: Option<Data>, saves: seq<Save>, n: nat)
    requires n <= |saves| && FreshSeeds(saves)
    ensures SeedIn(StoredAfter(initial, saves, n)) == SeedAfter(SeedIn(initial), saves, n)
  {
    hide SeedIn, Saved, NextSeed, NormalizeUuid;
    if n > 0 {
      SeedStored(initial, saves, n - 1);
      SeedAfterSave(saves[n - 1], StoredAfter(initial, saves, n - 1));
    }
  }

  /** A client's own value under the seed key is never adopted. */
  lemma {:induction false} InboundSeedIgnored(
      data: Data, creds: Credentials, existing: Option<Data>, random: string, v: Value)
    ensures Saved(Some(data[SEED_KEY := v]), creds, existing, random) == Saved(Some(data), creds, existing, random)
  {
    hide ModeOf, IsOAuth, NormalizeUuid;
    assert data[SEED_KEY := v] - {SEED_KEY} == data - {SEED_KEY};
  }

  /** Every save from `m` up to `n` was made with OAuth credentials. */
  predicate AllOAuth(saves: seq<Save>, m: nat, n: nat)
    requires m <= n <= |saves|
  {
    forall i :: m <= i < n ==> IsOAuth(saves[i].creds)
  }

  /** Once there is a seed, it is there after later saves, whatever their modes and data, exactly when
    none of them lacked OAuth credentials (a random seed is taken to differ from the old one). */
  lemma {:induction false} SeedSurvivesIff(initial: Option<string>, saves: seq<Save>, m: nat, n: nat, seed: string)
    requires m <= n <= |saves| && SeedAfter(initial, saves, m) == Some(seed)
    requires forall i :: m <= i < n ==> saves[i].random != seed
    ensures SeedAfter(initial, saves, n) == Some(seed) <==> AllOAuth(saves, m, n)
  {
    hide IsOAuth, InboundMode, RequiresSeed;
    if m < n { SeedSurvivesIff(initial, saves, m, n - 1, seed); }
  }

  lemma {:induction false} SeedKept(initial: Option<string>, saves: seq<Save>, m: nat, n: nat)
    requires m <= n <= |saves| && AllOAuth(saves, m, n) && SeedAfter(initial, saves, m).Some?
    ensures SeedAfter(initial, saves, n) == SeedAfter(initial, saves, m)
  {
    hide IsOAuth, InboundMode, RequiresSeed;
    if m < n { SeedKept(initial, saves, m, n - 1); }
  }

  /** The save at `i` creates the seed: it needs one and finds none. */
  predicate Creates(initial: Option<string>, saves: seq<Save>, i: nat)
    requires i < |saves|
  {
    IsOAuth(saves[i].creds) && RequiresSeed(InboundMode(saves[i])) && SeedAfter(initial, saves, i).None?
  }

  /** Where a seed comes from: it was there from the start, or it is the random UUID of the one save that
    needed and lacked it; and since then every save was made with OAuth credentials. */
  lemma {:induction false} SeedOrigin(initial: Option<string>, saves: seq<Save>, n: nat)
    requires n <= |saves| && SeedAfter(initial, saves, n).Some?
    ensures (SeedAfter(initial, saves, n) == initial && AllOAuth(saves, 0, n))
         || exists i :: 0 <= i < n && Creates(initial, saves, i) && AllOAuth(saves, i, n)
                        && SeedAfter(initial, saves, n) == Some(saves[i].random)
  {
    hide IsOAuth, InboundMode, RequiresSeed;
    if n > 0 {
      if SeedAfter(initial, saves, n - 1).Some? {
        SeedOrigin(initial, saves, n - 1);
        if i :| 0 <= i < n - 1 && Creates(initial, saves, i) && AllOAuth(saves, i, n - 1)
                && SeedAfter(initial, saves, n - 1) == Some(saves[i].random) {
          assert AllOAuth(saves, i, n);
        }
      } else {
        assert Creates(initial, saves, n - 1) && AllOAuth(saves, n - 1, n);
      }
    }
  }

  /** After an OAuth save whose mode needs a seed there is one. */
  lemma {:induction false} SeedPresentWhenNeeded(initial: Option<Data>, saves: seq<Save>, n: nat)
    requires 0 < n <= |saves| && FreshSeeds(saves)
    requires IsOAuth(saves[n - 1].creds) && RequiresSeed(InboundMode(saves[n - 1]))
    ensures SeedIn(StoredAfter(initial, saves, n)).Some?
  {
    hide StoredAfter, SeedIn, IsOAuth, InboundMode, RequiresSeed, NormalizeUuid;
    SeedStored(initial, saves, n);
  }

  // ---- The derived ids ----

  function AccountSeed(data: Data, accountKey: Option<string>): string {
    var found := OrElse(NonEmpty(accountKey),
                 OrElse(NonEmpty(StringAt(data, "connectionId")),
                 OrElse(NonEmpty(StringAt(data, "workspaceId")),
                 OrElse(NonEmpty(StringAt(data, "accountId")), NonEmpty(StringAt(data, "email"))))));
    if found.Some? then found.value else "default"
  }

  function SessionId(sha: Hash, data: Data, accountKey: Option<string>): string {
    match SeedOf(data)
    case Some(seed) => StableUuid(sha("omniroute:codex-session-id:v2:" + seed))
    case None => StableUuid(sha("omniroute:codex-session-id:v1:" + AccountSeed(data, accountKey)))
  }

  /** Empty when the client named no session. */
  function ThreadId(sha: Hash, client: Option<string>, data: Data, accountKey: Option<string>): string {
    if NonEmpty(client).None? then ""
    else
      match SeedOf(data)
      case Some(seed) => StableUuid(sha("omniroute:codex-thread-id:v2:" + seed + ":" + client.value))
      case None => StableUuid(sha("omniroute:codex-thread-id:v1:" + AccountSeed(data, accountKey) + ":" + client.value))
  }

  /** What the session id is derived from: the seed, or else the account. */
  lemma SessionIdIs(sha: Hash, data: Data, accountKey: Option<string>)
    ensures var id := SessionId(sha, data, accountKey);
            && (forall seed :: SEED_KEY in data && data[SEED_KEY] == Str(seed) && MatchesUuid(Trim(seed)) ==>
                  id == StableUuid(sha("omniroute:codex-session-id:v2:" + Trim(seed))))
            && (SEED_KEY !in data || data[SEED_KEY].Other? || !MatchesUuid(Trim(data[SEED_KEY].s)) ==>
                  id == StableUuid(sha("omniroute:codex-session-id:v1:" + AccountSeed(data, accountKey))))
  {
    hide MatchesUuid, Trim, StableUuid;
  }

  /** The thread id is derived from the client's session too; without one there is none. */
  lemma ThreadIdIs(sha: Hash, client: Option<string>, data: Data, accountKey: Option<string>)
    ensures var id := ThreadId(sha, client, data, accountKey);
            && (client.None? || Trim(client.value) == "" ==> id == "")
            && (client.Some? && Trim(client.value) != "" ==>
                && (forall seed :: SEED_KEY in data && data[SEED_KEY] == Str(seed) && MatchesUuid(Trim(seed)) ==>
                      id == StableUuid(sha("omniroute:codex-thread-id:v2:" + Trim(seed) + ":" + client.value)))
                && (SEED_KEY !in data || data[SEED_KEY].Other? || !MatchesUuid(Trim(data[SEED_KEY].s)) ==>
                      id == StableUuid(sha("omniroute:codex-thread-id:v1:" + AccountSeed(data, accountKey)
                                           + ":" + client.value))))
  {
    hide MatchesUuid, Trim, StableUuid;
  }

  /** Field `key` holds the text `v`, trimmed and not blank. */
  predicate HoldsText(data: Data, key: string, v: string) {
    key in data && data[key].Str? && Trim(data[key].s) == v && v != ""
  }

  ghost predicate HoldsNothing(data: Data, key: string) { forall v :: !HoldsText(data, key, v) }

  lemma TextOrNothing(data: Data, key: string)
    ensures match NonEmpty(StringAt(data, key))
            case Some(v) => HoldsText(data, key, v) && forall w :: HoldsText(data, key, w) ==> w == v
            case None => HoldsNothing(data, key)
  {
    hide Trim;
  }

  /** The account is named by the key at hand, else by the first of four fields that holds a text. */
  lemma AccountSeedIs(data: Data, accountKey: Option<string>, v: string)
    ensures accountKey.Some? && Trim(accountKey.value) != "" ==> AccountSeed(data, accountKey) == Trim(accountKey.value)
    ensures accountKey.None? || Trim(accountKey.value) == "" ==>
              && (HoldsText(data, "connectionId", v) ==> AccountSeed(data, accountKey) == v)
              && (HoldsNothing(data, "connectionId") ==>
                  && (HoldsText(data, "workspaceId", v) ==> AccountSeed(data, accountKey) == v)
                  && (HoldsNothing(data, "workspaceId") ==>
                      && (HoldsText(data, "accountId", v) ==> AccountSeed(data, accountKey) == v)
                      && (HoldsNothing(data, "accountId") ==>
                          && (HoldsText(data, "email", v) ==> AccountSeed(data, accountKey) == v)
                          && (HoldsNothing(data, "email") ==> AccountSeed(data, accountKey) == "default"))))
  {
    hide Trim;
    TextOrNothing(data, "connectionId");
    TextOrNothing(data, "workspaceId");
    TextOrNothing(data, "accountId");
    TextOrNothing(data, "email");
    hide StringAt;
  }

  /** A save needs a seed unless the stored mode says off: under the current key, or under the legacy key when the
    current one holds no text. */
  lemma NeedsSeedIff(data: Data)
    ensures !RequiresSeed(ModeOf(data))
       <==> (exists v :: HoldsText(data, "codexFingerprintMode", v) && Lower(v) == "off")
            || (HoldsNothing(data, "codexFingerprintMode")
                && exists v :: HoldsText(data, "codex_fingerprint_mode", v) && Lower(v) == "off")
  {
    hide Trim, Lower;
    TextOrNothing(data, MODE_KEY);
    TextOrNothing(data, LEGACY_MODE_KEY);
    hide StringAt, HoldsText;
  }

  /** Credentials are OAuth credentials when one of the tokens is a text that is not blank. */
  lemma IsOAuthIff(c: Credentials)
    ensures IsOAuth(c)
       <==> (exists s :: c.accessToken == Some(Str(s)) && Trim(s) != "")
            || (exists s :: c.refreshToken == Some(Str(s)) && Trim(s) != "")
  {
    hide Trim;
  }

  /** The seed key, and which texts under it are a seed. */
  lemma SeedOfIs(data: Data)
    ensures match SeedOf(data)
            case Some(seed) => HoldsText(data, "codexFingerprintSeed", seed) && MatchesUuid(seed)
            case None => forall v :: HoldsText(data, "codexFingerprintSeed", v) ==> !MatchesUuid(v)
  {
    hide Trim;
  }

  /** From the save that leaves a seed behind, the session id and the thread id of every client session
    stay what they are through all later OAuth saves, whatever else the connection's data becomes. */
  lemma {:induction false} IdsAreStable(sha: Hash, initial: Option<Data>, saves: seq<Save>, m: nat, n: nat,
                     client: Option<string>, a: Option<string>, b: Option<string>)
    requires m <= n <= |saves| && FreshSeeds(saves) && AllOAuth(saves, m, n)
    requires SeedIn(StoredAfter(initial, saves, m)).Some?
    ensures StoredAfter(initial, saves, m).Some? && StoredAfter(initial, saves, n).Some?
    ensures var before, after := StoredAfter(initial, saves, m).value, StoredAfter(initial, saves, n).value;
            SessionId(sha, before, a) == SessionId(sha, after, b)
            && ThreadId(sha, client, before, a) == ThreadId(sha, client, after, b)
  {
    hide StoredAfter, StableUuid, SeedOf, IsOAuth, NormalizeUuid;
    SeedStored(initial, saves, m);
    SeedStored(initial, saves, n);
    SeedKept(SeedIn(initial), saves, m, n);
  }
}
