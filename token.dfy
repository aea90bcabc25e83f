/**
 * The scoped client token of the booking backend: the base64 HMAC-SHA256
 * signature of a payload, followed directly by the payload, where the
 * payload is a protocol tag, the business id, the client id and the Unix
 * time in whole seconds, concatenated without separators.
 */
module ClientToken {
  import opened Js
  import opened Encoding
  import opened Boulevard

  /** A SHA-256 HMAC is 32 bytes long. */
  type Digest = s: seq<byte> | |s| == 32 witness seq(32, _ => 0)

  /** The cryptographic library calls, supplied by the caller: decoding the
      configured secret from base64 into raw key bytes, and HMAC-SHA256 of a
      message under a key. Neither is modelled beyond the digest length. */
  datatype Crypto = Crypto(
    decodeSecret: string -> seq<byte>,
    hmacSha256: (seq<byte>, seq<byte>) -> Digest)

  const Prefix := "blvd-client-v1"

  /** `Math.floor(nowMs / 1000).toString()`: the clock is a parameter. Dafny's
      division by a positive divisor rounds down, as `Math.floor` does. */
  function Timestamp(nowMs: int): string {
    IntToString(nowMs / 1000)
  }

  /** The whole second containing `nowMs`, and its decimal rendering. */
  lemma TimestampIsWholeSeconds(nowMs: int)
    ensures var t := nowMs / 1000; t * 1000 <= nowMs < t * 1000 + 1000
    ensures nowMs >= 0 ==> AllDigits(Timestamp(nowMs)) && ParseDecimal(Timestamp(nowMs)) == nowMs / 1000
  {
    if nowMs >= 0 {
      ParseNatToString(nowMs / 1000);
    }
  }

  function Payload(businessId: string, clientId: string, nowMs: int): string {
    Prefix + businessId + clientId + Timestamp(nowMs)
  }

  /** The signature of a payload under the configured secret. */
  function Signature(config: Config, crypto: Crypto, payload: string): (sig: string)
    ensures |sig| == 44
    ensures forall i :: 0 <= i < |sig| ==> IsBase64Char(sig[i])
  {
    var key := crypto.decodeSecret(config.secretKey);
    Base64Encode(crypto.hmacSha256(key, Utf8Encode(payload)))
  }

  /** `generateClientToken(clientId)` at clock reading `nowMs`. */
  function GenerateClientToken(config: Config, crypto: Crypto, clientId: string, nowMs: int): (token: string)
    ensures |token| == 44 + |Prefix| + |config.businessId| + |clientId| + |Timestamp(nowMs)|
    ensures StartsWith(token, Signature(config, crypto, Payload(config.businessId, clientId, nowMs)))
    ensures token[44..] == Payload(config.businessId, clientId, nowMs)
  {
    var payload := Payload(config.businessId, clientId, nowMs);
    Signature(config, crypto, payload) + payload
  }

  /** Splitting a token after its fixed-length signature. */
  function SplitToken(token: string): Option<(string, string)> {
    if |token| < 44 then None else Some((token[..44], token[44..]))
  }

  /** Splitting a generated token gives back the signature and the payload exactly. */
  lemma SplitRecoversPayload(config: Config, crypto: Crypto, clientId: string, nowMs: int)
    ensures var payload := Payload(config.businessId, clientId, nowMs);
      SplitToken(GenerateClientToken(config, crypto, clientId, nowMs))
        == Some((Signature(config, crypto, payload), payload))
  {
  }

  /** No randomness enters: two readings of the clock in the same second give the same token. */
  lemma SameSecondSameToken(config: Config, crypto: Crypto, clientId: string, nowMs: int, laterMs: int)
    requires nowMs / 1000 == laterMs / 1000
    ensures GenerateClientToken(config, crypto, clientId, nowMs) == GenerateClientToken(config, crypto, clientId, laterMs)
  {
  }

  /** With business and second fixed, the payload determines the client id. */
  lemma PayloadDeterminesClient(businessId: string, c1: string, c2: string, nowMs: int)
    requires Payload(businessId, c1, nowMs) == Payload(businessId, c2, nowMs)
    ensures c1 == c2
  {
    CancelAround(Prefix + businessId, c1, c2, Timestamp(nowMs));
  }

  /** With business and client fixed, the payload determines the second: the
      token changes every second. */
  lemma PayloadDeterminesSecond(businessId: string, clientId: string, nowMs: int, laterMs: int)
    requires Payload(businessId, clientId, nowMs) == Payload(businessId, clientId, laterMs)
    ensures nowMs / 1000 == laterMs / 1000
  {
    var front := Prefix + businessId + clientId;
    var p := Payload(businessId, clientId, nowMs);
    assert Timestamp(nowMs) == p[|front|..];
    assert Timestamp(laterMs) == Payload(businessId, clientId, laterMs)[|front|..];
    IntToStringInjective(nowMs / 1000, laterMs / 1000);
  }

  lemma TimestampOf(nowMs: int, seconds: nat)
    requires nowMs / 1000 == seconds
    ensures Timestamp(nowMs) == NatToString(seconds)
  {
  }

  /** The fields have no separators, so different client ids at different
      seconds can give the same payload, and thus the same token: client
      "c1" in second 7 and client "c" in second 17. */
  lemma PayloadIsPositional(config: Config, crypto: Crypto, earlierMs: int, laterMs: int)
    requires earlierMs == 7000 && laterMs == 17000
    ensures Payload(config.businessId, "c1", earlierMs) == Payload(config.businessId, "c", laterMs)
    ensures GenerateClientToken(config, crypto, "c1", earlierMs) == GenerateClientToken(config, crypto, "c", laterMs)
  {
    var earlier: nat, later: nat := 7, 17;
    assert NatToString(later) == "17";
    TimestampOf(earlierMs, earlier);
    TimestampOf(laterMs, later);
    var front := Prefix + config.businessId;
    assert "c1" + "7" == "c" + "17";
    assert front + "c1" + "7" == front + ("c1" + "7");
    assert front + "c" + "17" == front + ("c" + "17");
  }
}
