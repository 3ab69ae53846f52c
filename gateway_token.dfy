/** The gateway's auth token (src/server.js, lines 22-46): the environment variable if it is
    set, else the token persisted in `gateway.token`, else a fresh random token that is then
    persisted. The file system and the random source are passed in. */
module GatewayToken {
  import opened Text

  /** Where the token came from. */
  datatype Source = FromEnv | FromFile | Generated

  /** The resolved token, its source, and what is written to `gateway.token` (only a freshly
      generated token is written). */
  datatype Resolution = Resolution(token: string, source: Source, persist: Option<string>)

  predicate IsHexDigit(c: char) {
    '0' <= c <= '9' || 'a' <= c <= 'f'
  }

  function HexDigit(n: bv8): (c: char)
    requires n < 16
    ensures IsHexDigit(c)
  {
    if n < 10 then ('0' as int + n as int) as char else ('a' as int + n as int - 10) as char
  }

  /** The number a hex digit stands for. */
  function HexValue(c: char): (n: nat)
    requires IsHexDigit(c)
    ensures n < 16
  {
    if '0' <= c <= '9' then c as int - '0' as int else c as int - 'a' as int + 10
  }

  /** A digit reads back as the number it was written for. */
  lemma HexValueOfDigit(n: bv8)
    requires n < 16
    ensures HexValue(HexDigit(n)) == n as int
  {
  }

  /** A byte is its high half times 16 plus its low half. */
  lemma ByteHalves(b: bv8)
    ensures b >> 4 < 16 && b & 15 < 16
    ensures (b >> 4) as int * 16 + (b & 15) as int == b as int
  {
  }

  /** The two digits of a byte decode to that byte. */
  lemma PairDecodes(b: bv8)
    ensures b >> 4 < 16 && b & 15 < 16
    ensures (HexValue(HexDigit(b >> 4)) * 16 + HexValue(HexDigit(b & 15))) as bv8 == b
  {
    ByteHalves(b);
    HexValueOfDigit(b >> 4);
    HexValueOfDigit(b & 15);
    var n := (b >> 4) as int * 16 + (b & 15) as int;
    assert n == b as int;
  }

  /** The byte two hex digits stand for, high half first. */
  function PairValue(hi: char, lo: char): bv8
    requires IsHexDigit(hi) && IsHexDigit(lo)
  {
    (HexValue(hi) * 16 + HexValue(lo)) as bv8
  }

  /** The two lower-case digits of one byte, high half first; they read back as the byte. */
  function ByteDigits(b: bv8): (r: string)
    ensures |r| == 2 && IsHexDigit(r[0]) && IsHexDigit(r[1])
    ensures PairValue(r[0], r[1]) == b
  {
    PairDecodes(b);
    [HexDigit(b >> 4), HexDigit(b & 15)]
  }

  /** `Buffer.toString("hex")`: two lower-case hex digits per byte. */
  function Hex(bytes: seq<bv8>): (r: string)
    ensures |r| == 2 * |bytes|
    ensures forall i :: 0 <= i < |r| ==> IsHexDigit(r[i])
  {
    if bytes == [] then []
    else ByteDigits(bytes[0]) + Hex(bytes[1..])
  }

  predicate AllHexDigits(s: string) {
    forall i :: 0 <= i < |s| ==> IsHexDigit(s[i])
  }

  /** `Buffer.from(s, "hex")` on well-formed input: one byte per pair of digits. */
  function Unhex(s: string): (r: seq<bv8>)
    requires |s| % 2 == 0 && AllHexDigits(s)
    ensures 2 * |r| == |s|
    decreases |s|
  {
    if s == [] then []
    else
      assert AllHexDigits(s[2..]) by { assert forall i :: 0 <= i < |s| - 2 ==> s[2..][i] == s[i + 2]; }
      [PairValue(s[0], s[1])] + Unhex(s[2..])
  }

  /** Decoding the hex string gives the bytes back, so the token carries all of the random
      bytes it was made from. */
  lemma {:induction false} UnhexHex(bytes: seq<bv8>)
    ensures AllHexDigits(Hex(bytes))
    ensures Unhex(Hex(bytes)) == bytes
  {
    if bytes != [] {
      var t := Hex(bytes[1..]);
      UnhexHex(bytes[1..]);
      UnhexCons(ByteDigits(bytes[0]), t);
      assert Hex(bytes) == ByteDigits(bytes[0]) + t;
    }
  }

  /** Decoding reads the first pair of digits, then the rest. */
  lemma UnhexCons(d: string, t: string)
    requires |d| == 2 && IsHexDigit(d[0]) && IsHexDigit(d[1])
    requires |t| % 2 == 0 && AllHexDigits(t)
    ensures AllHexDigits(d + t)
    ensures Unhex(d + t) == [PairValue(d[0], d[1])] + Unhex(t)
  {
    var h := d + t;
    assert h[0] == d[0] && h[1] == d[1] && h[2..] == t;
  }

  /** Different bytes give different tokens. */
  lemma HexInjective(a: seq<bv8>, b: seq<bv8>)
    requires Hex(a) == Hex(b)
    ensures a == b
  {
    UnhexHex(a);
    UnhexHex(b);
  }

  /** `resolveGatewayToken`. `envValue` is OPENCLAW_GATEWAY_TOKEN ("" when unset), `fileContents`
      the contents of `gateway.token` (None when it cannot be read), `random` the 32 bytes
      `crypto.randomBytes(32)` would return. */
  function ResolveGatewayToken(envValue: string, fileContents: Option<string>, random: seq<bv8>): (r: Resolution)
    requires |random| == 32
    ensures r.token != ""
    ensures Trim(envValue) != "" ==> r == Resolution(Trim(envValue), FromEnv, None)
    ensures Trim(envValue) == "" && fileContents.Some? && Trim(fileContents.value) != "" ==>
      r == Resolution(Trim(fileContents.value), FromFile, None)
    ensures r.source == Generated <==>
      Trim(envValue) == "" && (fileContents.None? || Trim(fileContents.value) == "")
    ensures r.source == Generated ==> r.token == Hex(random) && r.persist == Some(r.token) && |r.token| == 64
  {
    var envTok := Trim(envValue);
    if envTok != "" then Resolution(envTok, FromEnv, None)
    else
      var existing := if fileContents.Some? then Trim(fileContents.value) else "";
      if existing != "" then Resolution(existing, FromFile, None)
      else
        var generated := Hex(random);
        Resolution(generated, Generated, Some(generated))
  }

  /** A hex string has no white space on its edges. */
  lemma HexIsTrimmed(bytes: seq<bv8>)
    ensures Trim(Hex(bytes)) == Hex(bytes)
  {
    var h := Hex(bytes);
    if h != [] {
      assert IsHexDigit(h[0]) && IsHexDigit(h[|h| - 1]);
    }
    TrimFixed(h);
  }

  /** A generated token survives a restart: once it has been persisted, the next start with
      the environment variable still unset reads the same token back from the file, whatever
      random bytes it would otherwise draw. */
  lemma TokenStableAcrossRestarts(envValue: string, fileContents: Option<string>, random: seq<bv8>, random2: seq<bv8>)
    requires |random| == 32 && |random2| == 32
    requires ResolveGatewayToken(envValue, fileContents, random).source == Generated
    ensures var first := ResolveGatewayToken(envValue, fileContents, random);
      ResolveGatewayToken(envValue, first.persist, random2) == Resolution(first.token, FromFile, None)
  {
    HexIsTrimmed(random);
  }

  /** Resolving a token that came from the file again gives the same token. */
  lemma ResolutionIdempotent(envValue: string, fileContents: Option<string>, random: seq<bv8>, random2: seq<bv8>)
    requires |random| == 32 && |random2| == 32
    ensures var first := ResolveGatewayToken(envValue, fileContents, random);
      var persisted := if first.persist.Some? then first.persist else fileContents;
      ResolveGatewayToken(envValue, persisted, random2).token == first.token
  {
    var first := ResolveGatewayToken(envValue, fileContents, random);
    if first.source == Generated {
      HexIsTrimmed(random);
    }
  }
}
