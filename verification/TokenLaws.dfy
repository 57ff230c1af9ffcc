/** What a verified token proves, and which text the encoding is. */
module TokenLaws {
  import opened Wrappers
  import opened SignedContext

  // ----- the encoding

  /** Consecutive characters from the first one on. */
  function Letters(first: char, n: nat): (letters: string)
    requires first as int + n < 128
    ensures |letters| == n && forall i | 0 <= i < n :: letters[i] as int == first as int + i
  {
    seq(n, i requires 0 <= i < n => (first as int + i) as char)
  }

  /** Upper case, lower case, digits, hyphen and underscore (table 2 of RFC 4648). */
  function Alphabet(): (alphabet: string)
    ensures |alphabet| == 64
  {
    Letters('A', 26) + Letters('a', 26) + Letters('0', 10) + "-_"
  }

  /** Two digits as one number. */
  function Join(high: int, low: int, base: int): int {
    high * base + low
  }

  /** Three bytes and four sextets are one number of 24 bits. */
  predicate SameGroup(bytes: seq<Byte>, b: nat, sextets: seq<Sextet>, s: nat) {
    && b + 3 <= |bytes| && s + 4 <= |sextets|
    && Join(Join(bytes[b], bytes[b + 1], 256), bytes[b + 2], 256)
         == Join(Join(Join(sextets[s], sextets[s + 1], 64), sextets[s + 2], 64), sextets[s + 3], 64)
  }

  /** One or two bytes left over, with low zero bits up to a whole number of sextets. */
  predicate SameTail(bytes: seq<Byte>, b: nat, sextets: seq<Sextet>, s: nat) {
    && b <= |bytes| && s <= |sextets|
    && match |bytes| - b
       case 0 => s == |sextets|
       case 1 => s + 2 == |sextets| && Join(bytes[b], 0, 16) == Join(sextets[s], sextets[s + 1], 64)
       case 2 =>
         && s + 3 == |sextets|
         && Join(Join(bytes[b], bytes[b + 1], 256), 0, 4)
              == Join(Join(sextets[s], sextets[s + 1], 64), sextets[s + 2], 64)
       case _ => false
  }

  lemma {:induction false} PackKeepsGroups(bytes: seq<Byte>, k: nat)
    requires 3 * k <= |bytes|
    ensures 3 * k + 3 <= |bytes| ==> SameGroup(bytes, 3 * k, Pack(bytes), 4 * k)
    ensures |bytes| < 3 * k + 3 ==> SameTail(bytes, 3 * k, Pack(bytes), 4 * k)
  {
    if k > 0 { PackKeepsGroups(bytes[3..], k - 1); }
  }

  lemma CharIsInAlphabet(sextet: Sextet)
    ensures CharOf(sextet) == Alphabet()[sextet]
  {
  }

  lemma {:induction false} TextIsInAlphabet(sextets: seq<Sextet>, i: nat)
    requires i < |sextets|
    ensures Text(sextets)[i] == Alphabet()[sextets[i]]
  {
    CharIsInAlphabet(sextets[0]);
    if i > 0 { TextIsInAlphabet(sextets[1..], i - 1); }
  }

  /** The characters of an encoding are the letters of sextets that hold the bits of the input in
      order, three bytes in four, the last ones filled up with zeros. */
  lemma EncodesInOrder(bytes: seq<Byte>) returns (sextets: seq<Sextet>)
    ensures |Encode(bytes)| == |sextets|
    ensures forall i | 0 <= i < |sextets| :: Encode(bytes)[i] == Alphabet()[sextets[i]]
    ensures forall k: nat | 3 * k + 3 <= |bytes| :: SameGroup(bytes, 3 * k, sextets, 4 * k)
    ensures SameTail(bytes, |bytes| / 3 * 3, sextets, |bytes| / 3 * 4)
  {
    sextets := Pack(bytes);
    forall i | 0 <= i < |sextets|
      ensures Encode(bytes)[i] == Alphabet()[sextets[i]]
    {
      TextIsInAlphabet(sextets, i);
    }
    forall k: nat | 3 * k + 3 <= |bytes|
      ensures SameGroup(bytes, 3 * k, sextets, 4 * k)
    {
      PackKeepsGroups(bytes, k);
    }
    PackKeepsGroups(bytes, |bytes| / 3);
  }

  // ----- verification

  lemma {:induction false} SplitsBack(token: string)
    requires Dots(token) == 1
    ensures '.' !in Split(token).0 && '.' !in Split(token).1
    ensures token == Split(token).0 + "." + Split(token).1
  {
    if token[0] == '.' {
      NoDotsIfNone(token[1..]);
      assert token == "." + token[1..];
    } else {
      SplitsBack(token[1..]);
      assert token == [token[0]] + token[1..];
    }
  }

  lemma {:induction false} NoDotsIfNone(text: string)
    requires Dots(text) == 0
    ensures '.' !in text
  {
    if text == "" {
    } else {
      NoDotsIfNone(text[1..]);
      assert text == [text[0]] + text[1..];
    }
  }

  /** The token is a text without a dot, a dot, and the encoded code of that text. */
  predicate SignedBy(signer: Signer, token: string, body: string) {
    '.' !in body && token == body + "." + Encode(signer.primitives.mac(signer.secret, body))
  }

  /** The claims that a text carries. */
  predicate Carries(signer: Signer, body: string, claims: Claims) {
    Decode(body).Some? && signer.primitives.parse(Decode(body).value) == Some(claims)
  }

  /** Claims are returned if and only if the token carries them under the code of its own secret, they
      have not expired, and environment, project and role are theirs. */
  lemma ReturnsExactly(signer: Signer, token: Option<string>, environment: string, project: string,
                       roles: set<Role>, now: real, claims: Claims)
    ensures Verify(signer, token, environment, project, roles, now) == Returned(claims) <==>
      && token.Some?
      && (exists body :: SignedBy(signer, token.value, body) && Carries(signer, body, claims))
      && now < claims.expiresAt as real
      && claims.principal.environment == environment
      && project in claims.principal.projectScopes
      && claims.principal.role in roles
  {
    if Verify(signer, token, environment, project, roles, now) == Returned(claims) {
      SplitsBack(token.value);
      var body := Split(token.value).0;
      assert SignedBy(signer, token.value, body) && Carries(signer, body, claims);
    }
    if token.Some? {
      forall body | SignedBy(signer, token.value, body)
        ensures Dots(token.value) == 1
        ensures Split(token.value) == (body, Encode(signer.primitives.mac(signer.secret, body)))
      {
        EncodingRoundTrip(signer.primitives.mac(signer.secret, body));
        SplitAtDot(body, Encode(signer.primitives.mac(signer.secret, body)));
      }
    }
  }

  /** A text with one dot and another code after it is refused for its signature, whatever it says. */
  lemma OtherCodeIsRefused(signer: Signer, body: string, supplied: string, environment: string, project: string,
                           roles: set<Role>, now: real)
    requires '.' !in body && '.' !in supplied
    ensures Verify(signer, Some(body + "." + supplied), environment, project, roles, now) == Raises(InvalidSignature)
       <==> supplied != Encode(signer.primitives.mac(signer.secret, body))
  {
    SplitAtDot(body, supplied);
  }

  /** A token made with another secret is refused for its signature exactly if the two codes differ. */
  lemma OtherSecretIsRefused(signer: Signer, other: Signer, principal: Principal, correlationId: string,
                             signedAt: real, environment: string, project: string, roles: set<Role>, now: real)
    requires other.primitives == signer.primitives
    ensures
      var token := Sign(other, principal, correlationId, signedAt);
      var body := Encode(other.primitives.serialise(Claims(principal, Expiry(other, signedAt), correlationId)));
      Verify(signer, Some(token), environment, project, roles, now) == Raises(InvalidSignature) <==>
        other.primitives.mac(other.secret, body) != signer.primitives.mac(signer.secret, body)
  {
    var body := Encode(other.primitives.serialise(Claims(principal, Expiry(other, signedAt), correlationId)));
    var code := other.primitives.mac(other.secret, body);
    EncodingRoundTrip(other.primitives.serialise(Claims(principal, Expiry(other, signedAt), correlationId)));
    EncodingRoundTrip(code);
    OtherCodeIsRefused(signer, body, Encode(code), environment, project, roles, now);
    if Encode(code) == Encode(signer.primitives.mac(signer.secret, body)) {
      EncodingIsInjective(code, signer.primitives.mac(signer.secret, body));
    }
  }

  /** A token is malformed exactly if it is missing or is not two texts around one dot. */
  lemma MalformedExactly(signer: Signer, token: Option<string>, environment: string, project: string,
                         roles: set<Role>, now: real)
    ensures Verify(signer, token, environment, project, roles, now) == Raises(Malformed) <==>
      token.None? || !exists body, code :: '.' !in body && '.' !in code && token.value == body + "." + code
  {
    if token.Some? {
      if Dots(token.value) == 1 { SplitsBack(token.value); }
      forall body, code | '.' !in body && '.' !in code && token.value == body + "." + code
        ensures Dots(token.value) == 1
      {
        SplitAtDot(body, code);
      }
    }
  }
}
