/**
 * service/AuthService.java: login against the model/usuario user table and
 * public self-registration.
 */
module AuthService {
  import opened Wrappers
  import opened Errors
  import opened Repositories
  import opened Passwords
  import opened UsuarioEntity
  import opened ModelAuthDtos
  import InfraJwtUtil
  import Jwt
  import opened JavaLang

  const BAD_CREDENTIALS := "Credenciais inválidas."
  const EMAIL_IN_USE := "O e-mail informado já está em uso."
  /** BCryptPasswordEncoder.matches refuses a null raw password. */
  const NULL_RAW_PASSWORD := "rawPassword cannot be null"

  /** The response login builds for a user: their id, role name and name, and a
      token whose subject is their e-mail. */
  function RespostaPara(u: Usuario, jwt: InfraJwtUtil.JwtUtil, now: int): (r: JwtResponse)
    ensures r.usuarioId == u.id && r.nome == u.nome
    ensures r.tipoUsuario == "ADMIN" <==> u.tipoUsuario == ADMIN
    ensures Jwt.RoundTrips(jwt.codec) && 0 <= now <= LONG_MAX - ONE_DAY_MILLIS ==>
              jwt.ExtrairEmail(r.token, now) == Success(Some(u.email))
  {
    JwtResponse(jwt.GerarToken(u.email, now), u.id, Name(u.tipoUsuario), u.nome)
  }

  /** login: an unknown e-mail and a wrong password fail with the same message;
      success returns a token for the user's e-mail with their id, role and name. */
  function Login(rows: map<Uuid, Usuario>, request: LoginRequest, encoder: PasswordEncoder,
                 jwt: InfraJwtUtil.JwtUtil, now: int): (r: Result<JwtResponse, Error>)
    requires TableValid(rows)
    ensures request.email.None? || !EmailInUse(rows, request.email.value) ==> r == Failure(BadCredentials(BAD_CREDENTIALS))
    ensures r.Success? <==>
              request.email.Some? && EmailInUse(rows, request.email.value) && request.senha.Some?
              && encoder.matches(request.senha.value, FindByEmail(rows, request.email.value).value.senha)
    ensures r.Success? ==>
              var u := FindByEmail(rows, request.email.value).value;
              u.id in rows && rows[u.id] == u && u.email == request.email.value && r.value == RespostaPara(u, jwt, now)
    ensures request.email.Some? && EmailInUse(rows, request.email.value) && request.senha.Some?
            && !encoder.matches(request.senha.value, FindByEmail(rows, request.email.value).value.senha) ==>
              r == Failure(BadCredentials(BAD_CREDENTIALS))
  {
    if request.email.None? then Failure(BadCredentials(BAD_CREDENTIALS))
    else
      match FindByEmail(rows, request.email.value)
      case None => Failure(BadCredentials(BAD_CREDENTIALS))
      case Some(u) =>
        if request.senha.None? then Failure(IllegalArgument(NULL_RAW_PASSWORD))
        else if !encoder.matches(request.senha.value, u.senha) then Failure(BadCredentials(BAD_CREDENTIALS))
        else Success(RespostaPara(u, jwt, now))
  }

  /** The row register stores: always COMUM, whatever the caller wanted. */
  function Registrado(request: RegisterRequest, id: Uuid, encoder: PasswordEncoder): (u: Usuario)
    requires request.nome.Some? && request.email.Some? && request.telefone.Some? && request.senha.Some?
    ensures u.tipoUsuario == COMUM && u.id == id
    ensures u.nome == request.nome.value && u.email == request.email.value && u.telefone == request.telefone.value
    ensures u.senha == encoder.encode(request.senha.value)
  {
    Usuario(id, request.nome.value, request.email.value, request.telefone.value,
            encoder.encode(request.senha.value), COMUM)
  }

  /** Registering and then logging in with the same e-mail and password succeeds,
      as a COMUM user, under any encoder whose hashes match their passwords. */
  lemma {:induction false} LoginAfterRegister(rows: map<Uuid, Usuario>, request: RegisterRequest, id: Uuid,
                                              encoder: PasswordEncoder, jwt: InfraJwtUtil.JwtUtil, now: int)
    requires request.nome.Some? && request.email.Some? && request.telefone.Some? && request.senha.Some?
    requires TableValid(rows) && id !in rows && !EmailInUse(rows, request.email.value)
    requires Consistent(encoder)
    ensures TableValid(rows[id := Registrado(request, id, encoder)])
    ensures Login(rows[id := Registrado(request, id, encoder)], LoginRequest(request.email, request.senha), encoder, jwt, now)
            == Success(JwtResponse(jwt.GerarToken(request.email.value, now), id, "COMUM", request.nome.value))
  {
    var u := Registrado(request, id, encoder);
    var rows' := rows[id := u];
    assert TableValid(rows');
    assert rows'[id].email == request.email.value;
    var found := FindByEmail(rows', request.email.value);
    assert found == Some(u);
    assert encoder.matches(request.senha.value, u.senha);
  }

  class AuthService {
    const usuarioRepository: Repository<Usuario>
    const passwordEncoder: PasswordEncoder
    const jwtUtil: InfraJwtUtil.JwtUtil

    constructor (repo: Repository<Usuario>, encoder: PasswordEncoder, jwt: InfraJwtUtil.JwtUtil)
      ensures usuarioRepository == repo && passwordEncoder == encoder && jwtUtil == jwt
    {
      usuarioRepository := repo;
      passwordEncoder := encoder;
      jwtUtil := jwt;
    }

    /** register: refuses an e-mail in use; otherwise adds exactly one COMUM user. */
    method Register(request: RegisterRequest, novoId: Uuid) returns (r: Result<(), Error>)
      requires request.nome.Some? && request.email.Some? && request.telefone.Some? && request.senha.Some?
      requires TableValid(usuarioRepository.rows)
      requires novoId !in usuarioRepository.rows
      modifies usuarioRepository
      ensures TableValid(usuarioRepository.rows)
      ensures r.Failure? <==> EmailInUse(old(usuarioRepository.rows), request.email.value)
      ensures r.Failure? ==> r.error == IllegalArgument(EMAIL_IN_USE) && usuarioRepository.rows == old(usuarioRepository.rows)
      ensures r.Success? ==>
                usuarioRepository.rows == old(usuarioRepository.rows)[novoId := Registrado(request, novoId, passwordEncoder)]
    {
      if FindByEmail(usuarioRepository.rows, request.email.value).Some? {
        return Failure(IllegalArgument(EMAIL_IN_USE));
      }
      usuarioRepository.Save(novoId, Registrado(request, novoId, passwordEncoder));
      r := Success(());
    }
  }
}
