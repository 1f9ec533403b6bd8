/** Signed capability tokens: an encoded payload and an encoded signature, joined by a dot. */
module CapabilityTokens {
  import opened Prelude
  import opened Base64Url

  datatype Payload = Payload(episode: nat, destinations: set<nat>, expires: int)

  /** The JSON text of a payload and the keyed hash stay abstract; so does the codec, up to its laws. */
  datatype Signer = Signer(dump: Payload -> seq<Byte>, load: seq<Byte> -> Option<Payload>,
                           mac: seq<Byte> -> seq<Byte>,
                           encode: seq<Byte> -> string, decode: string -> Decoded)

  /** The service as it is: its codec is the canonical URL-safe one. */
  function Base64Signer(dump: Payload -> seq<Byte>, load: seq<Byte> -> Option<Payload>,
                        mac: seq<Byte> -> seq<Byte>): Signer {
    Signer(dump, load, mac, Encode, Decode)
  }

  datatype Verdict = MalformedToken | InvalidSignature | TokenExpired | WrongEpisode | NotAuthorized | Granted(payload: Payload)

  ghost predicate ReadsBack(s: Signer) {
    forall p: Payload :: s.load(s.dump(p)) == Some(p)
  }

  /** Encodings hold no dot, decode to what was encoded, and are the only texts that decode. */
  ghost predicate Lawful(s: Signer) {
    && (forall b :: s.decode(s.encode(b)) == Ok(b))
    && (forall t :: s.decode(t).Ok? ==> s.encode(s.decode(t).bytes) == t)
    && (forall b, i :: 0 <= i < |s.encode(b)| ==> s.encode(b)[i] != '.')
  }

  lemma Base64Lawful(dump: Payload -> seq<Byte>, load: seq<Byte> -> Option<Payload>, mac: seq<Byte> -> seq<Byte>)
    ensures Lawful(Base64Signer(dump, load, mac))
  {
    forall b: seq<Byte>
      ensures Decode(Encode(b)) == Ok(b)
      ensures forall i :: 0 <= i < |Encode(b)| ==> Encode(b)[i] != '.'
    {
      DecodeEncode(b);
      EncodeCanonical(b);
    }
    forall t: string | Decode(t).Ok?
      ensures Encode(Decode(t).bytes) == t
    {
      DecodeAcceptsIff(t);
    }
  }

  function Sign(s: Signer, raw: seq<Byte>): string {
    s.encode(raw) + "." + s.encode(s.mac(raw))
  }

  function Issue(s: Signer, episode: nat, destinations: set<nat>, now: int, ttl: int): string {
    Sign(s, s.dump(Payload(episode, destinations, now + ttl)))
  }

  /** The position of the first dot. */
  function FirstDot(text: string): (r: Option<nat>)
    ensures r.Some? ==> r.value < |text| && text[r.value] == '.' && forall i :: 0 <= i < r.value ==> text[i] != '.'
    ensures r.None? ==> forall i :: 0 <= i < |text| ==> text[i] != '.'
  {
    if text == "" then
      None
    else if text[0] == '.' then
      Some(0)
    else
      var rest := FirstDot(text[1..]);
      if rest.None? then None else Some(rest.value + 1)
  }

  function Verify(s: Signer, token: string, episode: nat, destination: nat, now: int): Verdict {
    var dot := FirstDot(token);
    if dot.None? then
      MalformedToken
    else
      Judge(s, s.decode(token[..dot.value]), s.decode(token[dot.value + 1..]), episode, destination, now)
  }

  function Judge(s: Signer, raw: Decoded, signature: Decoded, episode: nat, destination: nat, now: int): Verdict {
    if !raw.Ok? || !signature.Ok? then
      MalformedToken
    else if signature.bytes != s.mac(raw.bytes) then
      InvalidSignature
    else
      var payload := s.load(raw.bytes);
      if payload.None? then
        MalformedToken
      else if payload.value.expires < now then
        TokenExpired
      else if payload.value.episode != episode then
        WrongEpisode
      else if destination !in payload.value.destinations then
        NotAuthorized
      else
        Granted(payload.value)
  }

  predicate Covers(p: Payload, episode: nat, destination: nat, now: int) {
    now <= p.expires && p.episode == episode && destination in p.destinations
  }

  /** A signed text is judged on the bytes that were signed. */
  lemma SignedIsJudged(s: Signer, raw: seq<Byte>, episode: nat, destination: nat, now: int)
    requires Lawful(s)
    ensures Verify(s, Sign(s, raw), episode, destination, now)
            == Judge(s, Ok(raw), Ok(s.mac(raw)), episode, destination, now)
  {
    var token, n := Sign(s, raw), |s.encode(raw)|;
    assert token[n] == '.';
    assert forall i :: 0 <= i < n ==> token[i] == s.encode(raw)[i];
    assert FirstDot(token) == Some(n);
    assert token[..n] == s.encode(raw) && token[n + 1..] == s.encode(s.mac(raw));
  }

  lemma GrantedOnlySigned(s: Signer, token: string, episode: nat, destination: nat, now: int, p: Payload)
    requires Lawful(s) && Verify(s, token, episode, destination, now) == Granted(p)
    ensures Covers(p, episode, destination, now) && exists raw :: token == Sign(s, raw) && s.load(raw) == Some(p)
  {
    var dot := FirstDot(token).value;
    var raw := s.decode(token[..dot]).bytes;
    assert token == token[..dot] + "." + token[dot + 1..];
    assert token == Sign(s, raw) && s.load(raw) == Some(p);
  }

  /** A token is granted exactly when it is, letter for letter, the signed form of a payload that covers the request. */
  lemma GrantedIff(s: Signer, token: string, episode: nat, destination: nat, now: int, p: Payload)
    requires Lawful(s)
    ensures Verify(s, token, episode, destination, now) == Granted(p)
            <==> Covers(p, episode, destination, now) && exists raw :: token == Sign(s, raw) && s.load(raw) == Some(p)
  {
    if Verify(s, token, episode, destination, now) == Granted(p) {
      GrantedOnlySigned(s, token, episode, destination, now, p);
    }
    if raw :| token == Sign(s, raw) && s.load(raw) == Some(p) {
      SignedIsJudged(s, raw, episode, destination, now);
    }
  }

  /** An issued token is granted for its episode and each of its destinations until it expires, and for nothing else. */
  lemma IssuedVerifiesIff(s: Signer, episode: nat, destinations: set<nat>, issued: int, ttl: int,
                          asked: nat, destination: nat, now: int)
    requires Lawful(s) && ReadsBack(s)
    ensures Verify(s, Issue(s, episode, destinations, issued, ttl), asked, destination, now).Granted?
            <==> now <= issued + ttl && asked == episode && destination in destinations
  {
    SignedIsJudged(s, s.dump(Payload(episode, destinations, issued + ttl)), asked, destination, now);
  }

  /** The text of these two parts, signed or not. */
  predicate IsParts(s: Signer, token: string, raw: seq<Byte>, signature: seq<Byte>) {
    token == s.encode(raw) + "." + s.encode(signature)
  }

  /** Every verdict by its own condition, for a text of two encoded parts. */
  predicate VerdictMeans(s: Signer, raw: seq<Byte>, signature: seq<Byte>, episode: nat, destination: nat, now: int, v: Verdict) {
    var payload := if signature == s.mac(raw) then s.load(raw) else None;
    && (v == InvalidSignature <==> signature != s.mac(raw))
    && (v == MalformedToken <==> signature == s.mac(raw) && s.load(raw).None?)
    && (v == TokenExpired <==> payload.Some? && payload.value.expires < now)
    && (v == WrongEpisode <==> payload.Some? && now <= payload.value.expires && payload.value.episode != episode)
    && (v == NotAuthorized <==>
          payload.Some? && now <= payload.value.expires && payload.value.episode == episode
          && destination !in payload.value.destinations)
  }

  lemma PartsAreJudged(s: Signer, token: string, raw: seq<Byte>, signature: seq<Byte>, episode: nat, destination: nat, now: int)
    requires Lawful(s) && IsParts(s, token, raw, signature)
    ensures Verify(s, token, episode, destination, now) == Judge(s, Ok(raw), Ok(signature), episode, destination, now)
  {
    var n := |s.encode(raw)|;
    assert token[n] == '.';
    assert forall i :: 0 <= i < n ==> token[i] == s.encode(raw)[i];
    assert FirstDot(token) == Some(n);
    assert token[..n] == s.encode(raw) && token[n + 1..] == s.encode(signature);
  }

  /** Refusals: any text that is not two encoded parts is malformed; the others are refused for the first thing wrong. */
  lemma VerifyAnswers(s: Signer, token: string, episode: nat, destination: nat, now: int)
    requires Lawful(s)
    ensures var v := Verify(s, token, episode, destination, now);
            && (forall raw, signature :: IsParts(s, token, raw, signature) ==>
                  VerdictMeans(s, raw, signature, episode, destination, now, v))
            && ((forall raw, signature :: !IsParts(s, token, raw, signature)) ==> v == MalformedToken)
  {
    var v := Verify(s, token, episode, destination, now);
    forall raw, signature | IsParts(s, token, raw, signature)
      ensures VerdictMeans(s, raw, signature, episode, destination, now, v)
    {
      PartsAreJudged(s, token, raw, signature, episode, destination, now);
    }
    if v != MalformedToken {
      var dot := FirstDot(token).value;
      var raw, signature := s.decode(token[..dot]).bytes, s.decode(token[dot + 1..]).bytes;
      assert token == token[..dot] + "." + token[dot + 1..];
      assert IsParts(s, token, raw, signature);
    }
  }
}
