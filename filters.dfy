/** Spring Security's per-request state: the context's authentication and the filter chain. */
module SecurityContextModel {
  import opened Wrappers

  /** What Authentication.getPrincipal() holds: a user entity, or something else
      (the anonymous principal, say). */
  datatype Principal<U> = UserPrincipal(user: U) | OtherPrincipal(name: string)

  /** UsernamePasswordAuthenticationToken(principal, credentials, authorities). */
  datatype Authentication<U> = Authentication(principal: Principal<U>, credentials: Option<string>,
                                              authorities: seq<string>)

  /** SecurityContextHolder.getContext() for the current request. */
  class SecurityContext<U> {
    var authentication: Option<Authentication<U>>

    constructor (a: Option<Authentication<U>>)
      ensures authentication == a
    {
      authentication := a;
    }
  }

  /** The rest of the filter chain; only the number of times it was entered is observed. */
  class FilterChain {
    var invocations: nat

    constructor ()
      ensures invocations == 0
    {
      invocations := 0;
    }

    method DoFilter()
      modifies this
      ensures invocations == old(invocations) + 1
    {
      invocations := invocations + 1;
    }
  }
}

/** The Authorization header test both filters share in substance. */
module BearerHeader {
  import opened Wrappers
  import opened JavaLang

  const PREFIX: string := "Bearer "

  /** authHeader != null && authHeader.startsWith("Bearer "), then substring(7). */
  function BearerToken(header: Option<string>): (r: Option<string>)
    ensures r.Some? <==> header.Some? && StartsWith(header.value, PREFIX)
    ensures r.Some? ==> header.value == PREFIX + r.value
  {
    if header.Some? && StartsWith(header.value, PREFIX) then
      assert header.value == header.value[..7] + header.value[7..];
      Some(header.value[7..])
    else None
  }

  lemma BearerOf(token: string)
    ensures BearerToken(Some(PREFIX + token)) == Some(token)
  {
    assert (PREFIX + token)[..7] == PREFIX;
    assert (PREFIX + token)[7..] == token;
  }
}

/** security/JwtAuthFilter.java, with the user lookup of config/ApplicationConfig.java. */
module SecurityJwtAuthFilter {
  import opened Wrappers
  import opened Errors
  import opened Jwt
  import opened JavaLang
  import opened SecurityContextModel
  import opened BearerHeader
  import opened RootUsuarioEntity
  import opened Repositories
  import SecurityJwtUtil

  /** The context's authentication once the filter has run, or the exception it throws.
      An authentication already present is never replaced; a new one is set only
      when the bearer token is valid for the stored user its subject names. */
  function Authenticate(jwtUtil: SecurityJwtUtil.JwtUtil, rows: map<Uuid, Usuario>, header: Option<string>,
                        now: int, current: Option<Authentication<Usuario>>): (r: Result<Option<Authentication<Usuario>>, Error>)
    requires TableValid(rows)
    ensures BearerToken(header).None? ==> r == Success(current)
    ensures current.Some? && r.Success? ==> r.value == current
    ensures r.Success? && r.value != current ==>
              (BearerToken(header).Some? && r.value.Some? && r.value.value.principal.UserPrincipal?
               && var u := r.value.value.principal.user;
                  u.id in rows && rows[u.id] == u
                  && r.value.value == Authentication(UserPrincipal(u), None, u.Authorities())
                  && jwtUtil.IsTokenValid(BearerToken(header).value, u, now) == Success(true))
    ensures forall u :: u in rows.Values && current.None? && BearerToken(header).Some?
              && jwtUtil.ExtrairEmail(BearerToken(header).value, now) == Success(Some(u.email))
              && jwtUtil.IsTokenValid(BearerToken(header).value, u, now) == Success(true)
              ==> r == Success(Some(Authentication(UserPrincipal(u), None, u.Authorities())))
  {
    match BearerToken(header)
    case None => Success(current)
    case Some(jwt) =>
      var email :- jwtUtil.ExtrairEmail(jwt, now);
      if email.Some? && current.None? then
        match FindByEmail(rows, email.value)
        case None => Failure(UsernameNotFound("Usuário não encontrado com o e-mail: " + email.value))
        case Some(user) =>
          var valid :- jwtUtil.IsTokenValid(jwt, user, now);
          if valid then Success(Some(Authentication(UserPrincipal(user), None, user.Authorities())))
          else Success(current)
      else Success(current)
  }

  class JwtAuthFilter {
    const jwtUtil: SecurityJwtUtil.JwtUtil
    const usuarios: Repository<Usuario>

    constructor (jwtUtil: SecurityJwtUtil.JwtUtil, usuarios: Repository<Usuario>)
      ensures this.jwtUtil == jwtUtil && this.usuarios == usuarios
    {
      this.jwtUtil := jwtUtil;
      this.usuarios := usuarios;
    }

    /** doFilterInternal. Every path that does not throw enters the chain exactly once. */
    method DoFilterInternal(header: Option<string>, now: int, context: SecurityContext<Usuario>, chain: FilterChain)
      returns (r: Result<(), Error>)
      requires TableValid(usuarios.rows)
      modifies context, chain
      ensures var out := Authenticate(jwtUtil, usuarios.rows, header, now, old(context.authentication));
        if out.Success? then
          r == Success(()) && context.authentication == out.value && chain.invocations == old(chain.invocations) + 1
        else
          r == Failure(out.error) && context.authentication == old(context.authentication)
          && chain.invocations == old(chain.invocations)
    {
      var jwt := BearerToken(header);
      if jwt.None? {
        chain.DoFilter();
        return Success(());
      }
      var email := jwtUtil.ExtrairEmail(jwt.value, now);
      if email.Failure? {
        return Failure(email.error);
      }
      if email.value.Some? && context.authentication.None? {
        var user := FindByEmail(usuarios.rows, email.value.value);
        if user.None? {
          return Failure(UsernameNotFound("Usuário não encontrado com o e-mail: " + email.value.value));
        }
        var valid := jwtUtil.IsTokenValid(jwt.value, user.value, now);
        if valid.Failure? {
          return Failure(valid.error);
        }
        if valid.value {
          context.authentication := Some(Authentication(UserPrincipal(user.value), None, user.value.Authorities()));
        }
      }
      chain.DoFilter();
      r := Success(());
    }
  }

  /** A request carrying a token issued to a stored user, within its day, ends
      authenticated as that user with the user's authorities. */
  lemma IssuedTokenAuthenticates(jwtUtil: SecurityJwtUtil.JwtUtil, rows: map<Uuid, Usuario>, u: Usuario,
                                 issued: int, now: int)
    requires TableValid(rows) && u.id in rows && rows[u.id] == u
    requires RoundTrips(jwtUtil.codec)
    requires 0 <= issued <= LONG_MAX - ONE_DAY_MILLIS && issued <= now <= issued + 86_399_000
    ensures Authenticate(jwtUtil, rows, Some(PREFIX + jwtUtil.GerarToken(u.email, issued)), now, None)
            == Success(Some(Authentication(UserPrincipal(u), None, u.Authorities())))
  {
    BearerOf(jwtUtil.GerarToken(u.email, issued));
    SecurityJwtUtil.EmailTokenValid(jwtUtil, u, issued, now);
  }
}

/** infra/security/JwtAuthFilter.java: looks the subject up and authenticates,
    without checking the token against the user. */
module InfraJwtAuthFilter {
  import opened Wrappers
  import opened Errors
  import opened SecurityContextModel
  import opened BearerHeader
  import opened UsuarioEntity
  import opened Repositories
  import InfraJwtUtil

  /** The context's authentication once the filter has run: the user the token's
      subject names, replacing whatever was there, or the old value. */
  function Authenticate(jwtUtil: InfraJwtUtil.JwtUtil, rows: map<Uuid, Usuario>, header: Option<string>,
                        now: int, current: Option<Authentication<Usuario>>): (r: Result<Option<Authentication<Usuario>>, Error>)
    requires TableValid(rows)
    ensures BearerToken(header).None? ==> r == Success(current)
    ensures BearerToken(header).Some? ==>
              (jwtUtil.ExtrairEmail(BearerToken(header).value, now).Failure? <==> r.Failure?)
    ensures forall u :: u in rows.Values && BearerToken(header).Some?
              && jwtUtil.ExtrairEmail(BearerToken(header).value, now) == Success(Some(u.email))
              ==> r == Success(Some(Authentication(UserPrincipal(u), None, ["ROLE_" + Name(u.tipoUsuario)])))
    ensures r.Success? && r.value != current ==>
              (r.value.Some? && r.value.value.principal.UserPrincipal?
               && var u := r.value.value.principal.user;
                  u.id in rows && rows[u.id] == u && r.value.value.authorities == u.Authorities()
                  && jwtUtil.ExtrairEmail(BearerToken(header).value, now) == Success(Some(u.email)))
  {
    match BearerToken(header)
    case None => Success(current)
    case Some(token) =>
      var email :- jwtUtil.ExtrairEmail(token, now);
      var usuario := if email.None? then None else FindByEmail(rows, email.value);
      if usuario.Some? then
        Success(Some(Authentication(UserPrincipal(usuario.value), None, ["ROLE_" + Name(usuario.value.tipoUsuario)])))
      else Success(current)
  }

  class JwtAuthFilter {
    const jwtUtil: InfraJwtUtil.JwtUtil
    const usuarioRepo: Repository<Usuario>

    constructor (jwtUtil: InfraJwtUtil.JwtUtil, usuarioRepo: Repository<Usuario>)
      ensures this.jwtUtil == jwtUtil && this.usuarioRepo == usuarioRepo
    {
      this.jwtUtil := jwtUtil;
      this.usuarioRepo := usuarioRepo;
    }

    method DoFilterInternal(header: Option<string>, now: int, context: SecurityContext<Usuario>, chain: FilterChain)
      returns (r: Result<(), Error>)
      requires TableValid(usuarioRepo.rows)
      modifies context, chain
      ensures var out := Authenticate(jwtUtil, usuarioRepo.rows, header, now, old(context.authentication));
        if out.Success? then
          r == Success(()) && context.authentication == out.value && chain.invocations == old(chain.invocations) + 1
        else
          r == Failure(out.error) && context.authentication == old(context.authentication)
          && chain.invocations == old(chain.invocations)
    {
      var token := BearerToken(header);
      if token.Some? {
        var email := jwtUtil.ExtrairEmail(token.value, now);
        if email.Failure? {
          return Failure(email.error);
        }
        var usuario := if email.value.None? then None else FindByEmail(usuarioRepo.rows, email.value.value);
        if usuario.Some? {
          context.authentication :=
            Some(Authentication(UserPrincipal(usuario.value), None, ["ROLE_" + Name(usuario.value.tipoUsuario)]));
        }
      }
      chain.DoFilter();
      r := Success(());
    }
  }
}
