/** Compact serialization of a JWT (section 7.1 of RFC 7515): the signer of
    lbaas-proxy-auth-poc and the three readers of the repository. JSON and
    Ed25519 are parameters: `unmarshal` and `sign`. */
module Jwt {
  import opened Wrappers
  import opened Text
  import opened Base64Url

  const DOT: Byte := '.' as int

  // ----- signAssertor -----

  function SigningInput(header: seq<Byte>, claims: seq<Byte>): seq<Byte> {
    Encode(header) + [DOT] + Encode(claims)
  }

  /** The token for marshalled header and claims. */
  function SignedToken(header: seq<Byte>, claims: seq<Byte>, sign: seq<Byte> -> seq<Byte>): seq<Byte> {
    var signing := SigningInput(header, claims);
    signing + [DOT] + Encode(sign(signing))
  }

  // ----- the readers -----

  datatype ReadError = NotThreeParts(got: nat) | BadBase64 | BadJson | NoEmail

  function Part<J>(encoded: seq<Byte>, unmarshal: seq<Byte> -> Option<J>): Result<J, ReadError> {
    match RawDecode(encoded)
    case None => Err(BadBase64)
    case Some(bytes) =>
      match unmarshal(bytes)
      case None => Err(BadJson)
      case Some(j) => Ok(j)
  }

  /** decodeJWT: header and claims, the first failure deciding. */
  function Decoded<J>(tok: seq<Byte>, unmarshal: seq<Byte> -> Option<J>): Result<(J, J), ReadError> {
    var parts := Split(tok, DOT);
    if |parts| != 3 then Err(NotThreeParts(|parts|)) else
      match Part(parts[0], unmarshal)
      case Err(e) => Err(e)
      case Ok(h) =>
        match Part(parts[1], unmarshal)
        case Err(e) => Err(e)
        case Ok(c) => Ok((h, c))
  }

  method DecodeJwt<J>(tok: seq<Byte>, unmarshal: seq<Byte> -> Option<J>) returns (r: Result<(J, J), ReadError>)
    ensures r == Decoded(tok, unmarshal)
    ensures var parts := Split(tok, DOT);
            if |parts| != 3 then r == Err(NotThreeParts(|parts|))
            else if RawDecode(parts[0]).None? then r == Err(BadBase64)
            else if unmarshal(RawDecode(parts[0]).value).None? then r == Err(BadJson)
            else if RawDecode(parts[1]).None? then r == Err(BadBase64)
            else if unmarshal(RawDecode(parts[1]).value).None? then r == Err(BadJson)
            else r == Ok((unmarshal(RawDecode(parts[0]).value).value, unmarshal(RawDecode(parts[1]).value).value))
  {
    hide RawDecode, Split;
    var parts := Split(tok, DOT);
    if |parts| != 3 {
      return Err(NotThreeParts(|parts|));
    }
    var dst: seq<J> := [];
    for i := 0 to 2
      invariant |dst| == i
      invariant forall k :: 0 <= k < i ==> Part(parts[k], unmarshal) == Ok(dst[k])
    {
      var b := RawDecode(parts[i]);
      if b.None? {
        return Err(BadBase64);
      }
      var j := unmarshal(b.value);
      if j.None? {
        return Err(BadJson);
      }
      dst := dst + [j.value];
    }
    return Ok((dst[0], dst[1]));
  }

  /** decodePayload: the claims through the unpadded decoder. */
  function DecodedPayload(tok: seq<Byte>): Result<seq<Byte>, ReadError> {
    var parts := Split(tok, DOT);
    if |parts| != 3 then Err(NotThreeParts(|parts|)) else
      match RawDecode(parts[1])
      case None => Err(BadBase64)
      case Some(bytes) => Ok(bytes)
  }

  /** emailFromToken: the claims through the padding decoder. `emailClaim` is
      the email member, "" when absent, None when the bytes are no JSON object. */
  method EmailFromToken(token: seq<Byte>, emailClaim: seq<Byte> -> Option<string>)
    returns (r: Result<string, ReadError>)
    ensures |Split(token, DOT)| != 3 ==> r == Err(NotThreeParts(|Split(token, DOT)|))
    ensures |Split(token, DOT)| == 3 ==>
              match PadThenDecode(Split(token, DOT)[1])
              case None => r == Err(BadBase64)
              case Some(bytes) =>
                match emailClaim(bytes)
                case None => r == Err(BadJson)
                case Some(email) => r == if email == "" then Err(NoEmail) else Ok(email)
  {
    var parts := Split(token, DOT);
    if |parts| != 3 {
      return Err(NotThreeParts(|parts|));
    }
    var payload := parts[1];
    var m := |payload| % 4;
    if m != 0 {
      payload := payload + Pads(4 - m);
    } else {
      assert payload == payload + Pads(0);
    }
    var decoded := PaddedDecode(payload);
    if decoded.None? {
      return Err(BadBase64);
    }
    var email := emailClaim(decoded.value);
    if email.None? {
      return Err(BadJson);
    }
    if email.value == "" {
      return Err(NoEmail);
    }
    return Ok(email.value);
  }

  // ----- the readers undo the signer -----

  lemma EncodePlain(bs: seq<Byte>)
    ensures DOT !in Encode(bs) && PAD !in Encode(bs) && CR !in Encode(bs) && LF !in Encode(bs)
  {
    EncodeDigits(bs);
  }

  lemma TokenSplit(h: seq<Byte>, c: seq<Byte>, sign: seq<Byte> -> seq<Byte>)
    ensures Split(SignedToken(h, c, sign), DOT) == [Encode(h), Encode(c), Encode(sign(SigningInput(h, c)))]
  {
    hide Encode, Split;
    EncodePlain(h);
    EncodePlain(c);
    EncodePlain(sign(SigningInput(h, c)));
    SplitFirst(Encode(h), DOT, Encode(c) + [DOT] + Encode(sign(SigningInput(h, c))));
    SplitFirst(Encode(c), DOT, Encode(sign(SigningInput(h, c))));
    SplitWhole(Encode(sign(SigningInput(h, c))), DOT);
    assert SignedToken(h, c, sign)
        == Encode(h) + [DOT] + (Encode(c) + [DOT] + Encode(sign(SigningInput(h, c))));
  }

  /** A signed token always has exactly three parts: they decode to the header,
      the claims and the signature, and the first two give back what was signed. */
  lemma TokenParts(header: seq<Byte>, claims: seq<Byte>, sign: seq<Byte> -> seq<Byte>)
    ensures var parts := Split(SignedToken(header, claims, sign), DOT);
            && |parts| == 3
            && RawDecode(parts[0]) == Some(header)
            && RawDecode(parts[1]) == Some(claims)
            && PadThenDecode(parts[1]) == Some(claims)
            && RawDecode(parts[2]) == Some(sign(Join(parts[..2], DOT)))
  {
    TokenSplit(header, claims, sign);
    var parts := Split(SignedToken(header, claims, sign), DOT);
    assert parts[..2][1..] == [Encode(claims)];
    assert Join(parts[..2], DOT) == SigningInput(header, claims);
    EncodePlain(claims);
    RoundTrip(header);
    RoundTrip(claims);
    RoundTrip(sign(SigningInput(header, claims)));
    PaddingAgrees(Encode(claims));
  }

  /** decodeJWT undoes the segment building of signAssertor whatever JSON says. */
  lemma DecodeInvertsSign<J>(header: seq<Byte>, claims: seq<Byte>, sign: seq<Byte> -> seq<Byte>,
                             unmarshal: seq<Byte> -> Option<J>)
    ensures Decoded(SignedToken(header, claims, sign), unmarshal)
         == if unmarshal(header).Some? && unmarshal(claims).Some?
            then Ok((unmarshal(header).value, unmarshal(claims).value)) else Err(BadJson)
  {
    TokenParts(header, claims, sign);
  }

  /** One token comes from one header and one claims text. */
  lemma SignedTokenInjective(h: seq<Byte>, c: seq<Byte>, h': seq<Byte>, c': seq<Byte>, sign: seq<Byte> -> seq<Byte>,
                             sign': seq<Byte> -> seq<Byte>)
    requires SignedToken(h, c, sign) == SignedToken(h', c', sign')
    ensures h == h' && c == c' && sign(SigningInput(h, c)) == sign'(SigningInput(h', c'))
  {
    TokenParts(h, c, sign);
    TokenParts(h', c', sign');
    TokenSplit(h, c, sign);
    TokenSplit(h', c', sign');
  }

  /** Both readers refuse all but three parts; else emailFromToken and decodePayload
      read the same bytes, or both refuse, exactly when the payload part is the same
      to both decoders, as any part without `=`, CR and LF is. */
  lemma ReadersAgree(tok: seq<Byte>)
    ensures |Split(tok, DOT)| != 3 ==> DecodedPayload(tok) == Err(NotThreeParts(|Split(tok, DOT)|))
    ensures |Split(tok, DOT)| == 3 ==>
              var payload := Split(tok, DOT)[1];
              var padded := match PadThenDecode(payload) case None => Err(BadBase64) case Some(bytes) => Ok(bytes);
              && (DecodedPayload(tok) == padded <==> SameToBoth(payload))
              && (PAD !in payload && CR !in payload && LF !in payload ==> SameToBoth(payload))
  {
    hide SameToBoth, PadThenDecode, RawDecode, Split;
    if |Split(tok, DOT)| == 3 {
      var payload := Split(tok, DOT)[1];
      DecodersAgree(payload);
      if PAD !in payload && CR !in payload && LF !in payload {
        PaddingAgrees(payload);
      }
    }
  }
}
