/**
 * service/UsuarioService.java: user administration over the model/usuario
 * user table, with the "ADMIN or self" access rule.
 */
module UsuarioService {
  import opened Wrappers
  import opened Errors
  import opened JavaLang
  import opened Repositories
  import opened Passwords
  import opened UsuarioEntity
  import opened ModelUsuarioDtos

  const ACCESS_DENIED := "Acesso negado."
  const EMAIL_IN_USE := "O e-mail informado já está em uso."
  const NOT_FOUND_BY_ID := "Usuário não encontrado com ID: "
  const NOT_FOUND := "Usuário não encontrado."

  /** validarAcesso: only an administrator or the user themself may touch a user. */
  function ValidarAcesso(idDoAlvo: Uuid, logado: Usuario): (r: Result<(), Error>)
    ensures r.Success? <==> logado.tipoUsuario == ADMIN || logado.id == idDoAlvo
    ensures r.Failure? ==> r.error == AccessDenied(ACCESS_DENIED)
  {
    if logado.tipoUsuario != ADMIN && logado.id != idDoAlvo then Failure(AccessDenied(ACCESS_DENIED))
    else Success(())
  }

  /** "ADMIN".equalsIgnoreCase(tipo) ? ADMIN : COMUM */
  function RoleFrom(tipo: Option<string>): (r: TipoUsuario)
    ensures r == ADMIN <==> tipo.Some? && EqualsIgnoreCase("ADMIN", tipo)
  {
    if EqualsIgnoreCase("ADMIN", tipo) then ADMIN else COMUM
  }

  /** The role text chooses ADMIN exactly when it is five letters spelling
      "admin" in any mixture of cases (the dotless and dotted capital I of
      Unicode also fold to i); null and everything else give COMUM. */
  lemma RoleFromText(tipo: Option<string>)
    ensures tipo.None? ==> RoleFrom(tipo) == COMUM
    ensures tipo.Some? ==>
              (RoleFrom(tipo) == ADMIN <==>
                 |tipo.value| == 5
                 && (tipo.value[0] == 'a' || tipo.value[0] == 'A')
                 && (tipo.value[1] == 'd' || tipo.value[1] == 'D')
                 && (tipo.value[2] == 'm' || tipo.value[2] == 'M')
                 && (tipo.value[3] == 'i' || tipo.value[3] == 'I' || tipo.value[3] == 'ı' || tipo.value[3] == 'İ')
                 && (tipo.value[4] == 'n' || tipo.value[4] == 'N'))
  {
    if tipo.Some? {
      AdminIgnoringCase(tipo.value);
    }
  }

  /** toResponseDTO: every column but the password, the role as its name. */
  function ToResponseDto(u: Usuario): (r: Response)
    ensures r.id == u.id && r.nome == u.nome && r.email == u.email && r.telefone == u.telefone
    ensures r.tipoUsuario == "ADMIN" || r.tipoUsuario == "COMUM"
    ensures r.tipoUsuario == "ADMIN" <==> u.tipoUsuario == ADMIN
  {
    Response(u.id, u.nome, u.email, u.telefone, Name(u.tipoUsuario))
  }

  /** The response shows every column but the password: two users have the same
      response exactly when they differ at most in their hash. */
  lemma ResponseOmitsPassword(u: Usuario, v: Usuario)
    ensures ToResponseDto(u) == ToResponseDto(v) <==> u.(senha := v.senha) == v
  {
  }

  /** buscarEntidadePorId */
  function BuscarEntidadePorId(rows: map<Uuid, Usuario>, id: Uuid): (r: Result<Usuario, Error>)
    ensures r.Success? <==> id in rows
    ensures r.Success? ==> r.value == rows[id]
    ensures r.Failure? ==> r.error == EntityNotFound(NOT_FOUND_BY_ID, Some(id))
  {
    FindById(rows, Some(id), EntityNotFound(NOT_FOUND_BY_ID, Some(id)))
  }

  /** buscarDtoPorId: the access check comes first, so a forbidden caller learns
      nothing about whether the user exists. */
  function BuscarDtoPorId(rows: map<Uuid, Usuario>, id: Uuid, logado: Usuario): (r: Result<Response, Error>)
    ensures ValidarAcesso(id, logado).Failure? ==> r == Failure(AccessDenied(ACCESS_DENIED))
    ensures r.Success? <==> ValidarAcesso(id, logado).Success? && id in rows
    ensures r.Success? ==> r.value == ToResponseDto(rows[id])
    ensures ValidarAcesso(id, logado).Success? && id !in rows ==> r == Failure(EntityNotFound(NOT_FOUND_BY_ID, Some(id)))
  {
    var _ :- ValidarAcesso(id, logado);
    var u :- BuscarEntidadePorId(rows, id);
    Success(ToResponseDto(u))
  }

  /** listarTodos: one response per stored user, in the order findAll yields them. */
  function ListarTodos(rows: map<Uuid, Usuario>, order: seq<Uuid>): (r: seq<Response>)
    requires IsEnumeration(order, rows)
    ensures |r| == |order| == |rows|
    ensures forall i :: 0 <= i < |r| ==> order[i] in rows && r[i] == ToResponseDto(rows[order[i]])
    ensures forall k :: k in rows ==> ToResponseDto(rows[k]) in r
  {
    EnumerationSize(order, rows);
    var r := seq(|order|, i requires 0 <= i < |order| => ToResponseDto(rows[order[i]]));
    assert forall k :: k in rows ==> ToResponseDto(rows[k]) in r by {
      forall k | k in rows ensures ToResponseDto(rows[k]) in r {
        var i :| 0 <= i < |order| && order[i] == k;
        assert r[i] == ToResponseDto(rows[k]);
      }
    }
    r
  }

  /** The row criarUsuario builds: the hash of the password and the role read from the text. */
  function NovoUsuario(dto: Create, id: Uuid, encoder: PasswordEncoder): (r: Usuario)
    requires dto.nome.Some? && dto.email.Some? && dto.telefone.Some? && dto.senha.Some?
    ensures r.id == id && r.nome == dto.nome.value && r.email == dto.email.value && r.telefone == dto.telefone.value
    ensures Consistent(encoder) ==> encoder.matches(dto.senha.value, r.senha)
    ensures r.tipoUsuario == ADMIN <==> dto.tipoUsuario.Some? && EqualsIgnoreCase("ADMIN", dto.tipoUsuario)
  {
    Usuario(id, dto.nome.value, dto.email.value, dto.telefone.value,
            encoder.encode(dto.senha.value), RoleFrom(dto.tipoUsuario))
  }

  /** The fields atualizarUsuario writes: name, e-mail and phone always; the hash
      only for a new password that is not blank; the role only when the caller
      is an administrator. */
  function Atualizado(u: Usuario, dto: Update, logado: Usuario, encoder: PasswordEncoder): (r: Usuario)
    requires dto.nome.Some? && dto.email.Some? && dto.telefone.Some?
    ensures r.id == u.id && r.nome == dto.nome.value && r.email == dto.email.value && r.telefone == dto.telefone.value
    ensures dto.novaSenha.Some? && !IsBlank(dto.novaSenha.value) && Consistent(encoder) ==>
              encoder.matches(dto.novaSenha.value, r.senha)
    ensures dto.novaSenha.None? || IsBlank(dto.novaSenha.value) ==> r.senha == u.senha
    ensures logado.tipoUsuario != ADMIN ==> r.tipoUsuario == u.tipoUsuario
    ensures logado.tipoUsuario == ADMIN ==>
              (r.tipoUsuario == ADMIN <==> dto.tipoUsuario.Some? && EqualsIgnoreCase("ADMIN", dto.tipoUsuario))
  {
    Usuario(u.id, dto.nome.value, dto.email.value, dto.telefone.value,
            if dto.novaSenha.Some? && !IsBlank(dto.novaSenha.value) then encoder.encode(dto.novaSenha.value) else u.senha,
            if logado.tipoUsuario == ADMIN then RoleFrom(dto.tipoUsuario) else u.tipoUsuario)
  }

  /** The stored hash is always the encoder's output for some password the user
      gave, so under a consistent encoder the new password is the one that
      matches; a blank or missing new password keeps the old hash. */
  lemma PasswordRules(u: Usuario, dto: Update, logado: Usuario, encoder: PasswordEncoder, c: Create, id: Uuid)
    requires dto.nome.Some? && dto.email.Some? && dto.telefone.Some?
    requires c.nome.Some? && c.email.Some? && c.telefone.Some? && c.senha.Some?
    requires Consistent(encoder)
    ensures encoder.matches(c.senha.value, NovoUsuario(c, id, encoder).senha)
    ensures dto.novaSenha.Some? && !IsBlank(dto.novaSenha.value) ==>
              encoder.matches(dto.novaSenha.value, Atualizado(u, dto, logado, encoder).senha)
    ensures dto.novaSenha.None? || IsBlank(dto.novaSenha.value) ==> Atualizado(u, dto, logado, encoder).senha == u.senha
  {
  }

  /** A caller who is not an administrator cannot change any role, their own included. */
  lemma RoleRules(u: Usuario, dto: Update, logado: Usuario, encoder: PasswordEncoder)
    requires dto.nome.Some? && dto.email.Some? && dto.telefone.Some?
    ensures logado.tipoUsuario == COMUM ==> Atualizado(u, dto, logado, encoder).tipoUsuario == u.tipoUsuario
    ensures logado.tipoUsuario == ADMIN ==>
              (Atualizado(u, dto, logado, encoder).tipoUsuario == ADMIN <==> EqualsIgnoreCase("ADMIN", dto.tipoUsuario))
    ensures Atualizado(u, dto, logado, encoder).id == u.id
  {
  }

  /** The e-mail column is unique: saving a row whose e-mail another row holds is refused. */
  predicate EmailTakenByOther(rows: map<Uuid, Usuario>, id: Uuid, email: string) {
    exists k :: k in rows && k != id && rows[k].email == email
  }

  /** Storing a row whose e-mail is held by no other row keeps the table valid. */
  lemma SaveKeepsTableValid(rows: map<Uuid, Usuario>, u: Usuario)
    requires TableValid(rows)
    requires !EmailTakenByOther(rows, u.id, u.email)
    ensures TableValid(rows[u.id := u])
  {
  }

  class UsuarioService {
    const usuarioRepository: Repository<Usuario>
    const passwordEncoder: PasswordEncoder

    constructor (repo: Repository<Usuario>, encoder: PasswordEncoder)
      ensures usuarioRepository == repo && passwordEncoder == encoder
    {
      usuarioRepository := repo;
      passwordEncoder := encoder;
    }

    /** criarUsuario: refuses an e-mail already in use; otherwise stores exactly one
        new user under the fresh id. */
    method CriarUsuario(dto: Create, novoId: Uuid) returns (r: Result<Response, Error>)
      requires dto.nome.Some? && dto.email.Some? && dto.telefone.Some? && dto.senha.Some?
      requires TableValid(usuarioRepository.rows)
      requires novoId !in usuarioRepository.rows
      modifies usuarioRepository
      ensures TableValid(usuarioRepository.rows)
      ensures EmailInUse(old(usuarioRepository.rows), dto.email.value) ==>
                r == Failure(IllegalArgument(EMAIL_IN_USE)) && usuarioRepository.rows == old(usuarioRepository.rows)
      ensures !EmailInUse(old(usuarioRepository.rows), dto.email.value) ==>
                usuarioRepository.rows == old(usuarioRepository.rows)[novoId := NovoUsuario(dto, novoId, passwordEncoder)]
                && r == Success(ToResponseDto(NovoUsuario(dto, novoId, passwordEncoder)))
    {
      if FindByEmail(usuarioRepository.rows, dto.email.value).Some? {
        return Failure(IllegalArgument(EMAIL_IN_USE));
      }
      var novo := NovoUsuario(dto, novoId, passwordEncoder);
      usuarioRepository.Save(novoId, novo);
      r := Success(ToResponseDto(novo));
    }

    /** atualizarUsuario: access check, then lookup, then the field updates and
        the save; the unique e-mail column can still refuse the save. */
    method AtualizarUsuario(id: Uuid, dto: Update, logado: Usuario) returns (r: Result<Response, Error>)
      requires dto.nome.Some? && dto.email.Some? && dto.telefone.Some?
      requires TableValid(usuarioRepository.rows)
      modifies usuarioRepository
      ensures TableValid(usuarioRepository.rows)
      ensures r.Failure? ==> usuarioRepository.rows == old(usuarioRepository.rows)
      ensures ValidarAcesso(id, logado).Failure? ==> r == Failure(AccessDenied(ACCESS_DENIED))
      ensures ValidarAcesso(id, logado).Success? && id !in old(usuarioRepository.rows) ==>
                r == Failure(EntityNotFound(NOT_FOUND_BY_ID, Some(id)))
      ensures ValidarAcesso(id, logado).Success? && id in old(usuarioRepository.rows) ==>
                var novo := Atualizado(old(usuarioRepository.rows)[id], dto, logado, passwordEncoder);
                if EmailTakenByOther(old(usuarioRepository.rows), id, dto.email.value) then
                  r == Failure(DataIntegrityViolation("email"))
                else
                  usuarioRepository.rows == old(usuarioRepository.rows)[id := novo] && r == Success(ToResponseDto(novo))
    {
      var acesso := ValidarAcesso(id, logado);
      if acesso.Failure? {
        return Failure(acesso.error);
      }
      var existente := BuscarEntidadePorId(usuarioRepository.rows, id);
      if existente.Failure? {
        return Failure(existente.error);
      }
      var novo := Atualizado(existente.value, dto, logado, passwordEncoder);
      if exists k :: k in usuarioRepository.rows && k != id && usuarioRepository.rows[k].email == novo.email {
        return Failure(DataIntegrityViolation("email"));
      }
      SaveKeepsTableValid(usuarioRepository.rows, novo);
      usuarioRepository.Save(id, novo);
      r := Success(ToResponseDto(novo));
    }

    /** deletar: access check, then existence check, then removal of that one row. */
    method Deletar(id: Uuid, logado: Usuario) returns (r: Result<(), Error>)
      requires TableValid(usuarioRepository.rows)
      modifies usuarioRepository
      ensures TableValid(usuarioRepository.rows)
      ensures ValidarAcesso(id, logado).Failure? ==> r == Failure(AccessDenied(ACCESS_DENIED))
      ensures ValidarAcesso(id, logado).Success? && id !in old(usuarioRepository.rows) ==>
                r == Failure(EntityNotFound(NOT_FOUND, None))
      ensures r.Success? <==> ValidarAcesso(id, logado).Success? && id in old(usuarioRepository.rows)
      ensures r.Success? ==> usuarioRepository.rows == old(usuarioRepository.rows) - {id}
      ensures r.Failure? ==> usuarioRepository.rows == old(usuarioRepository.rows)
    {
      var acesso := ValidarAcesso(id, logado);
      if acesso.Failure? {
        return Failure(acesso.error);
      }
      if id !in usuarioRepository.rows {
        return Failure(EntityNotFound(NOT_FOUND, None));
      }
      usuarioRepository.DeleteById(id);
      r := Success(());
    }
  }
}
