/**
 * The part of the jjwt library the token code relies on. A token is made by
 * signing claims and read back by parsing; both are inputs here, and the one
 * promise relied on is that a token the key signed parses back to the claims
 * it was built from, with its dates rounded down to whole seconds, for as long
 * as it has not expired.
 */
module Jwt {
  import opened Wrappers
  import opened Errors
  import opened JavaLang

  /** The registered claims the code sets or reads, plus the custom "scope" claim.
      Dates are milliseconds since the epoch. */
  datatype Claims = Claims(subject: Option<string>, scope: Option<string>,
                           issuedAt: Option<int>, expiration: Option<int>)

  /** Jwts.builder()...signWith(key).compact() and parserBuilder().setSigningKey(key)
      .build().parseClaimsJws(token).getBody(), for one signing key; parse takes the
      parser's clock. */
  datatype Codec = Codec(sign: Claims -> string, parse: (string, int) -> Result<Claims, JwtError>)

  /** A date as a JWT NumericDate carries it: whole seconds, back in milliseconds. */
  function WireTime(ms: int): (r: int)
    ensures ms >= 0 ==> ms - 1000 < r <= ms
  {
    JavaDiv(ms, 1000) * 1000
  }

  function WireDate(d: Option<int>): Option<int> {
    if d.None? then None else Some(WireTime(d.value))
  }

  function OnWire(c: Claims): Claims {
    c.(issuedAt := WireDate(c.issuedAt), expiration := WireDate(c.expiration))
  }

  /** The parser does not reject a token for age before its expiration second has passed. */
  predicate Live(c: Claims, now: int) {
    c.expiration.None? || now <= WireTime(c.expiration.value)
  }

  ghost predicate RoundTrips(codec: Codec) {
    forall c: Claims, now: int :: Live(c, now) ==> codec.parse(codec.sign(c), now) == Success(OnWire(c))
  }

  /** The expiration the token code computes: now + one day in long arithmetic. */
  function ExpirationFor(now: int): (r: int)
    ensures LONG_MIN <= now && now <= LONG_MAX - ONE_DAY_MILLIS ==> r == now + 86_400_000
    ensures LONG_MAX - ONE_DAY_MILLIS < now <= LONG_MAX ==> r < now
  {
    OneDayFitsInInt();
    LongAdd(now, ONE_DAY_MILLIS)
  }
}

/** security/JwtUtil.java: tokens for the root-package Usuario, with a "scope" claim. */
module SecurityJwtUtil {
  import opened Wrappers
  import opened Errors
  import opened JavaLang
  import opened Jwt
  import RootUsuarioEntity

  datatype JwtUtil = JwtUtil(codec: Codec) {
    /** gerarToken(Usuario): subject e-mail, scope the role name, valid for one day.
        Read back at once, the token gives those claims with both dates cut to
        whole seconds. */
    function GerarTokenUsuario(u: RootUsuarioEntity.Usuario, now: int): (r: string)
      ensures RoundTrips(codec) && 0 <= now <= LONG_MAX - ONE_DAY_MILLIS ==>
                codec.parse(r, now) == Success(Claims(Some(u.email), Some(RootUsuarioEntity.Name(u.tipoUsuario)),
                                                      Some(WireTime(now)), Some(WireTime(now + 86_400_000))))
    {
      var c := Claims(Some(u.email), Some(RootUsuarioEntity.Name(u.tipoUsuario)), Some(now), Some(ExpirationFor(now)));
      assert 0 <= now <= LONG_MAX - ONE_DAY_MILLIS ==> Live(c, now);
      codec.sign(c)
    }

    /** gerarToken(String): subject e-mail, no scope, valid for one day. */
    function GerarToken(email: string, now: int): (r: string)
      ensures RoundTrips(codec) && 0 <= now <= LONG_MAX - ONE_DAY_MILLIS ==>
                codec.parse(r, now) == Success(Claims(Some(email), None, Some(WireTime(now)), Some(WireTime(now + 86_400_000))))
    {
      var c := Claims(Some(email), None, Some(now), Some(ExpirationFor(now)));
      assert 0 <= now <= LONG_MAX - ONE_DAY_MILLIS ==> Live(c, now);
      codec.sign(c)
    }

    /** extrairEmail: the subject claim; a parse failure propagates. */
    function ExtrairEmail(token: string, now: int): (r: Result<Option<string>, Error>)
      ensures r.Success? <==> codec.parse(token, now).Success?
      ensures r.Success? ==> r.value == codec.parse(token, now).value.subject
      ensures r.Failure? ==> r.error == InvalidJwt(codec.parse(token, now).error)
    {
      match codec.parse(token, now)
      case Success(c) => Success(c.subject)
      case Failure(e) => Failure(InvalidJwt(e))
    }

    /** isTokenExpired: Date.before, so the expiration instant itself is not expired. */
    function IsTokenExpired(token: string, now: int): (r: Result<bool, Error>)
      ensures codec.parse(token, now).Failure? ==> r.Failure?
      ensures r.Success? ==>
                (codec.parse(token, now).Success?
                 && codec.parse(token, now).value.expiration.Some?
                 && (r.value <==> codec.parse(token, now).value.expiration.value < now))
    {
      match codec.parse(token, now)
      case Failure(e) => Failure(InvalidJwt(e))
      case Success(c) =>
        if c.expiration.None? then Failure(NullPointer("expiration"))
        else Success(c.expiration.value < now)
    }

    /** isTokenValid: the subject equals the user's username and the token has not
        expired. A token without subject throws when compared. */
    function IsTokenValid(token: string, user: RootUsuarioEntity.Usuario, now: int): (r: Result<bool, Error>)
      ensures r == Success(true) <==>
        (codec.parse(token, now).Success?
         && codec.parse(token, now).value.subject == Some(user.Username())
         && codec.parse(token, now).value.expiration.Some?
         && now <= codec.parse(token, now).value.expiration.value)
      ensures codec.parse(token, now).Success? && codec.parse(token, now).value.subject.None? ==>
        r == Failure(NullPointer("email"))
    {
      var email :- ExtrairEmail(token, now);
      if email.None? then Failure(NullPointer("email"))
      else if email.value != user.Username() then Success(false)
      else
        var expired :- IsTokenExpired(token, now);
        Success(!expired)
    }
  }

  /** A token issued for a user is accepted for that user, and carries the role as
      its scope, throughout the following day (to the second). */
  lemma {:induction false} IssuedTokenValid(util: JwtUtil, u: RootUsuarioEntity.Usuario, now: int, t: int)
    requires RoundTrips(util.codec)
    requires 0 <= now <= LONG_MAX - ONE_DAY_MILLIS
    requires now <= t <= now + 86_399_000
    ensures util.ExtrairEmail(util.GerarTokenUsuario(u, now), t) == Success(Some(u.email))
    ensures util.IsTokenValid(util.GerarTokenUsuario(u, now), u, t) == Success(true)
    ensures util.codec.parse(util.GerarTokenUsuario(u, now), t).value.scope == Some(RootUsuarioEntity.Name(u.tipoUsuario))
  {
    var c := Claims(Some(u.email), Some(RootUsuarioEntity.Name(u.tipoUsuario)), Some(now), Some(ExpirationFor(now)));
    assert Live(c, t);
    assert util.codec.parse(util.codec.sign(c), t) == Success(OnWire(c));
  }

  /** The same for a token issued for an e-mail, checked against a user with that e-mail. */
  lemma {:induction false} EmailTokenValid(util: JwtUtil, u: RootUsuarioEntity.Usuario, now: int, t: int)
    requires RoundTrips(util.codec)
    requires 0 <= now <= LONG_MAX - ONE_DAY_MILLIS
    requires now <= t <= now + 86_399_000
    ensures util.ExtrairEmail(util.GerarToken(u.email, now), t) == Success(Some(u.email))
    ensures util.IsTokenValid(util.GerarToken(u.email, now), u, t) == Success(true)
  {
    var c := Claims(Some(u.email), None, Some(now), Some(ExpirationFor(now)));
    assert Live(c, t);
    assert util.codec.parse(util.codec.sign(c), t) == Success(OnWire(c));
  }

  /** A token for one e-mail is never valid for a user with another e-mail. */
  lemma {:induction false} TokenForOtherUserInvalid(util: JwtUtil, u: RootUsuarioEntity.Usuario, email: string, now: int, t: int)
    requires RoundTrips(util.codec)
    requires 0 <= now <= LONG_MAX - ONE_DAY_MILLIS
    requires now <= t <= now + 86_399_000
    requires email != u.email
    ensures util.IsTokenValid(util.GerarToken(email, now), u, t) == Success(false)
  {
    var c := Claims(Some(email), None, Some(now), Some(ExpirationFor(now)));
    assert Live(c, t);
    assert util.codec.parse(util.codec.sign(c), t) == Success(OnWire(c));
  }
}

/** infra/security/JwtUtil.java: the same checks, tokens for an e-mail only. */
module InfraJwtUtil {
  import opened Wrappers
  import opened Errors
  import opened JavaLang
  import opened Jwt
  import UsuarioEntity

  datatype JwtUtil = JwtUtil(codec: Codec) {
    /** gerarToken: subject e-mail, valid for one day. */
    function GerarToken(email: string, now: int): (r: string)
      ensures RoundTrips(codec) && 0 <= now <= LONG_MAX - ONE_DAY_MILLIS ==>
                codec.parse(r, now) == Success(Claims(Some(email), None, Some(WireTime(now)), Some(WireTime(now + 86_400_000))))
    {
      var c := Claims(Some(email), None, Some(now), Some(ExpirationFor(now)));
      assert 0 <= now <= LONG_MAX - ONE_DAY_MILLIS ==> Live(c, now);
      codec.sign(c)
    }

    function ExtrairEmail(token: string, now: int): (r: Result<Option<string>, Error>)
      ensures r.Success? <==> codec.parse(token, now).Success?
      ensures r.Success? ==> r.value == codec.parse(token, now).value.subject
      ensures r.Failure? ==> r.error == InvalidJwt(codec.parse(token, now).error)
    {
      match codec.parse(token, now)
      case Success(c) => Success(c.subject)
      case Failure(e) => Failure(InvalidJwt(e))
    }

    function IsTokenExpired(token: string, now: int): (r: Result<bool, Error>)
      ensures codec.parse(token, now).Failure? ==> r.Failure?
      ensures r.Success? ==>
                (codec.parse(token, now).Success?
                 && codec.parse(token, now).value.expiration.Some?
                 && (r.value <==> codec.parse(token, now).value.expiration.value < now))
    {
      match codec.parse(token, now)
      case Failure(e) => Failure(InvalidJwt(e))
      case Success(c) =>
        if c.expiration.None? then Failure(NullPointer("expiration"))
        else Success(c.expiration.value < now)
    }

    function IsTokenValid(token: string, user: UsuarioEntity.Usuario, now: int): (r: Result<bool, Error>)
      ensures r == Success(true) <==>
        (codec.parse(token, now).Success?
         && codec.parse(token, now).value.subject == Some(user.Username())
         && codec.parse(token, now).value.expiration.Some?
         && now <= codec.parse(token, now).value.expiration.value)
      ensures codec.parse(token, now).Success? && codec.parse(token, now).value.subject.None? ==>
        r == Failure(NullPointer("email"))
    {
      var email :- ExtrairEmail(token, now);
      if email.None? then Failure(NullPointer("email"))
      else if email.value != user.Username() then Success(false)
      else
        var expired :- IsTokenExpired(token, now);
        Success(!expired)
    }
  }

  lemma {:induction false} IssuedTokenValid(util: JwtUtil, u: UsuarioEntity.Usuario, now: int, t: int)
    requires RoundTrips(util.codec)
    requires 0 <= now <= LONG_MAX - ONE_DAY_MILLIS
    requires now <= t <= now + 86_399_000
    ensures util.ExtrairEmail(util.GerarToken(u.email, now), t) == Success(Some(u.email))
    ensures util.IsTokenValid(util.GerarToken(u.email, now), u, t) == Success(true)
  {
    var c := Claims(Some(u.email), None, Some(now), Some(ExpirationFor(now)));
    assert Live(c, t);
    assert util.codec.parse(util.codec.sign(c), t) == Success(OnWire(c));
  }

  /** Past the long range, now + one day wraps to a negative instant: such a token
      is born expired. */
  lemma WrappedExpiration(now: int)
    requires LONG_MAX - ONE_DAY_MILLIS < now <= LONG_MAX
    ensures ExpirationFor(now) < 0 <= now
  {
    OneDayFitsInInt();
  }
}
