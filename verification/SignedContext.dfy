/** Signed internal contexts: unpadded base64url (section 5 of RFC 4648) around a serialised claim
    set and its message authentication code. */
module SignedContext {
  import opened Wrappers

  type Byte = x: int | 0 <= x < 256

  type Sextet = x: int | 0 <= x < 64

  // ----- base64url

  /** Groups of three bytes become four sextets; one or two left over become two or three. */
  function Pack(bytes: seq<Byte>): seq<Sextet> {
    if |bytes| == 0 then []
    else if |bytes| == 1 then [bytes[0] / 4, bytes[0] % 4 * 16]
    else if |bytes| == 2 then [bytes[0] / 4, bytes[0] % 4 * 16 + bytes[1] / 16, bytes[1] % 16 * 4]
    else
      [bytes[0] / 4, bytes[0] % 4 * 16 + bytes[1] / 16, bytes[1] % 16 * 4 + bytes[2] / 64, bytes[2] % 64]
      + Pack(bytes[3..])
  }

  function FirstByte(a: int, b: int): Byte
    requires 0 <= a < 64 && 0 <= b < 64
  {
    a * 4 + b / 16
  }

  function SecondByte(b: int, c: int): Byte
    requires 0 <= b < 64 && 0 <= c < 64
  {
    b % 16 * 16 + c / 4
  }

  function ThirdByte(c: int, d: int): Byte
    requires 0 <= c < 64 && 0 <= d < 64
  {
    c % 4 * 64 + d
  }

  /** `None` is the error for a single sextet left over; surplus low bits are dropped. */
  function Unpack(sextets: seq<Sextet>): Option<seq<Byte>> {
    if |sextets| == 0 then Some([])
    else if |sextets| == 1 then None
    else
      var first := FirstByte(sextets[0], sextets[1]);
      if |sextets| == 2 then Some([first])
      else
        var second := SecondByte(sextets[1], sextets[2]);
        if |sextets| == 3 then Some([first, second])
        else
          match Unpack(sextets[4..])
          case None => None
          case Some(rest) => Some([first, second, ThirdByte(sextets[2], sextets[3])] + rest)
  }

  function CharOf(sextet: Sextet): char {
    if sextet < 26 then 'A' + sextet as char
    else if sextet < 52 then 'a' + (sextet - 26) as char
    else if sextet < 62 then '0' + (sextet - 52) as char
    else if sextet == 62 then '-'
    else '_'
  }

  function SextetOf(c: char): Option<Sextet> {
    if 'A' <= c <= 'Z' then Some((c - 'A') as int)
    else if 'a' <= c <= 'z' then Some((c - 'a') as int + 26)
    else if '0' <= c <= '9' then Some((c - '0') as int + 52)
    else if c == '-' then Some(62)
    else if c == '_' then Some(63)
    else None
  }

  function Text(sextets: seq<Sextet>): (text: string)
    ensures |text| == |sextets|
  {
    if sextets == [] then "" else [CharOf(sextets[0])] + Text(sextets[1..])
  }

  function Sextets(text: string): Option<seq<Sextet>> {
    if text == "" then Some([])
    else
      match SextetOf(text[0])
      case None => None
      case Some(first) =>
        match Sextets(text[1..])
        case None => None
        case Some(rest) => Some([first] + rest)
  }

  function Encode(bytes: seq<Byte>): string {
    Text(Pack(bytes))
  }

  function Decode(text: string): Option<seq<Byte>> {
    match Sextets(text)
    case None => None
    case Some(sextets) => Unpack(sextets)
  }

  lemma CharRoundTrip(sextet: Sextet)
    ensures SextetOf(CharOf(sextet)) == Some(sextet) && CharOf(sextet) != '.' && CharOf(sextet) != '='
  {
  }

  lemma {:induction false} TextRoundTrip(sextets: seq<Sextet>)
    ensures Sextets(Text(sextets)) == Some(sextets)
    ensures '.' !in Text(sextets) && '=' !in Text(sextets)
  {
    if sextets == [] {
    } else {
      CharRoundTrip(sextets[0]);
      TextRoundTrip(sextets[1..]);
      assert sextets == [sextets[0]] + sextets[1..];
      assert Text(sextets)[1..] == Text(sextets[1..]);
    }
  }

  lemma GroupRoundTrip(a: Byte, b: Byte, c: Byte)
    ensures FirstByte(a / 4, a % 4 * 16 + b / 16) == a && FirstByte(a / 4, a % 4 * 16) == a
    ensures SecondByte(a % 4 * 16 + b / 16, b % 16 * 4 + c / 64) == b &&
      SecondByte(a % 4 * 16 + b / 16, b % 16 * 4) == b
    ensures ThirdByte(b % 16 * 4 + c / 64, c % 64) == c
  {
  }

  lemma OneByteRoundTrip(a: Byte)
    ensures Unpack(Pack([a])) == Some([a])
  {
  }

  lemma TwoBytesRoundTrip(a: Byte, b: Byte)
    ensures Unpack(Pack([a, b])) == Some([a, b])
  {
  }

  lemma ThreeBytesRoundTrip(a: Byte, b: Byte, c: Byte, rest: seq<Byte>)
    requires Unpack(Pack(rest)) == Some(rest)
    ensures Unpack(Pack([a, b, c] + rest)) == Some([a, b, c] + rest)
  {
    var bytes := [a, b, c] + rest;
    assert bytes[3..] == rest;
    var group: seq<Sextet> := [a / 4, a % 4 * 16 + b / 16, b % 16 * 4 + c / 64, c % 64];
    assert Pack(bytes) == group + Pack(rest);
    assert (group + Pack(rest))[4..] == Pack(rest);
    GroupRoundTrip(a, b, c);
  }

  lemma {:induction false} PackRoundTrip(bytes: seq<Byte>)
    ensures Unpack(Pack(bytes)) == Some(bytes)
  {
    if |bytes| == 1 {
      assert bytes == [bytes[0]];
      OneByteRoundTrip(bytes[0]);
    } else if |bytes| == 2 {
      assert bytes == [bytes[0], bytes[1]];
      TwoBytesRoundTrip(bytes[0], bytes[1]);
    } else if |bytes| >= 3 {
      PackRoundTrip(bytes[3..]);
      assert bytes == [bytes[0], bytes[1], bytes[2]] + bytes[3..];
      ThreeBytesRoundTrip(bytes[0], bytes[1], bytes[2], bytes[3..]);
    }
  }

  lemma {:induction false} PackLength(bytes: seq<Byte>)
    ensures |Pack(bytes)| == (4 * |bytes| + 2) / 3
  {
    if |bytes| < 3 {
    } else {
      PackLength(bytes[3..]);
    }
  }

  /** Unpadded base64url decodes to its input for every byte length, never contains the separator
      or padding, and is as long as the standard says. */
  lemma EncodingRoundTrip(bytes: seq<Byte>)
    ensures Decode(Encode(bytes)) == Some(bytes)
    ensures '.' !in Encode(bytes) && '=' !in Encode(bytes)
    ensures |Encode(bytes)| == (4 * |bytes| + 2) / 3
  {
    PackRoundTrip(bytes);
    PackLength(bytes);
    TextRoundTrip(Pack(bytes));
  }

  /** Different byte strings have different encodings. */
  lemma EncodingIsInjective(a: seq<Byte>, b: seq<Byte>)
    requires Encode(a) == Encode(b)
    ensures a == b
  {
    EncodingRoundTrip(a);
    EncodingRoundTrip(b);
  }

  // ----- sign and verify

  datatype Role = Viewer | Manager | Administrator

  datatype Principal = Principal(
    actorId: string, displayLabel: string, role: Role, environment: string, projectScopes: seq<string>)

  datatype Claims = Claims(principal: Principal, expiresAt: int, correlationId: string)

  datatype Refusal =
    | Malformed
    | InvalidSignature
    | MalformedClaims
    | Expired
    | EnvironmentMismatch
    | ProjectMismatch
    | RoleMismatch

  /** Serialisation and message authentication, as any functions of their arguments. */
  datatype Primitives = Primitives(
    serialise: Claims -> seq<Byte>,
    parse: seq<Byte> -> Option<Claims>,
    mac: (seq<Byte>, string) -> seq<Byte>)

  ghost predicate ParsesBack(p: Primitives) {
    forall claims: Claims :: p.parse(p.serialise(claims)) == Some(claims)
  }

  datatype Signer = Signer(secret: seq<Byte>, lifetime: real, primitives: Primitives)
  {
    /** What the constructor demands. */
    predicate Valid() {
      |secret| >= 32 && lifetime > 0.0
    }
  }

  /** Seconds since the epoch, truncated toward zero. */
  function WholeSeconds(timestamp: real): int {
    if timestamp >= 0.0 then timestamp.Floor else -((-timestamp).Floor)
  }

  function Expiry(signer: Signer, now: real): int {
    WholeSeconds(now + signer.lifetime)
  }

  function Sign(signer: Signer, principal: Principal, correlationId: string, now: real): string {
    var claims := Claims(principal, Expiry(signer, now), correlationId);
    var encoded := Encode(signer.primitives.serialise(claims));
    encoded + "." + Encode(signer.primitives.mac(signer.secret, encoded))
  }

  function Dots(token: string): nat {
    if token == "" then 0 else (if token[0] == '.' then 1 else 0) + Dots(token[1..])
  }

  /** The parts before and after the first dot. */
  function Split(token: string): (string, string) {
    if token == "" then ("", "")
    else if token[0] == '.' then ("", token[1..])
    else
      var (head, tail) := Split(token[1..]);
      ([token[0]] + head, tail)
  }

  function Verify(signer: Signer, token: Option<string>, environment: string, project: string,
                  roles: set<Role>, now: real): Result<Claims, Refusal> {
    if token.None? || Dots(token.value) != 1 then Raises(Malformed)
    else
      var (encoded, supplied) := Split(token.value);
      if supplied != Encode(signer.primitives.mac(signer.secret, encoded)) then Raises(InvalidSignature)
      else
        var decoded := Decode(encoded);
        var claims := if decoded.None? then None else signer.primitives.parse(decoded.value);
        if claims.None? then Raises(MalformedClaims)
        else if claims.value.expiresAt as real <= now then Raises(Expired)
        else if claims.value.principal.environment != environment then Raises(EnvironmentMismatch)
        else if project !in claims.value.principal.projectScopes then Raises(ProjectMismatch)
        else if claims.value.principal.role !in roles then Raises(RoleMismatch)
        else Returned(claims.value)
  }

  lemma {:induction false} SplitAtDot(head: string, tail: string)
    requires '.' !in head && '.' !in tail
    ensures Dots(head + "." + tail) == 1
    ensures Split(head + "." + tail) == (head, tail)
  {
    var token := head + "." + tail;
    if head == "" {
      assert token == ['.'] + tail && token[1..] == tail;
      NoDots(tail);
    } else {
      assert token[1..] == head[1..] + "." + tail;
      assert head[0] in head;
      SplitAtDot(head[1..], tail);
      assert head == [head[0]] + head[1..];
    }
  }

  lemma {:induction false} NoDots(text: string)
    requires '.' !in text
    ensures Dots(text) == 0
  {
    if text == "" {
    } else {
      assert text[0] in text;
      NoDots(text[1..]);
    }
  }

  /** A token verified with the secret that signed it gives back the principal and the correlation
      identifier exactly before the truncated expiry, for its own environment, one of its projects
      and its role; otherwise it is refused for the first of these that fails. */
  lemma SignThenVerify(signer: Signer, principal: Principal, correlationId: string, signedAt: real,
                       environment: string, project: string, roles: set<Role>, now: real)
    requires ParsesBack(signer.primitives)
    ensures
      var token := Sign(signer, principal, correlationId, signedAt);
      var expiry := Expiry(signer, signedAt);
      Verify(signer, Some(token), environment, project, roles, now) ==
        if expiry as real <= now then Raises(Expired)
        else if principal.environment != environment then Raises(EnvironmentMismatch)
        else if project !in principal.projectScopes then Raises(ProjectMismatch)
        else if principal.role !in roles then Raises(RoleMismatch)
        else Returned(Claims(principal, expiry, correlationId))
  {
    var claims := Claims(principal, Expiry(signer, signedAt), correlationId);
    var serialised := signer.primitives.serialise(claims);
    var encoded := Encode(serialised);
    var code := signer.primitives.mac(signer.secret, encoded);
    EncodingRoundTrip(serialised);
    EncodingRoundTrip(code);
    SplitAtDot(encoded, Encode(code));
  }

  /** After the epoch the truncated expiry is at most the exact one and less than a second before
      it; a lifetime below a second can expire at the moment of signing. */
  lemma ExpiryIsTruncated(signer: Signer, now: real)
    requires signer.Valid() && now >= 0.0
    ensures now + signer.lifetime - 1.0 < Expiry(signer, now) as real <= now + signer.lifetime
    ensures signer.lifetime >= 1.0 ==> now < Expiry(signer, now) as real
  {
  }
}
