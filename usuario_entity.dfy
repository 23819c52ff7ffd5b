/** Password hashing as the services use it: PasswordEncoder.encode and matches. */
module Passwords {
  datatype PasswordEncoder = PasswordEncoder(encode: string -> string, matches: (string, string) -> bool)

  /** The one thing BCrypt promises: a password matches its own hash. */
  ghost predicate Consistent(e: PasswordEncoder) {
    forall p: string :: e.matches(p, e.encode(p))
  }
}

/** model/usuario/Usuario.java: the user entity the services and the infra filter use. */
module UsuarioEntity {
  import opened Wrappers
  import opened Errors

  datatype TipoUsuario = ADMIN | COMUM

  /** Enum.name(). */
  function Name(t: TipoUsuario): (r: string)
    ensures r == "ADMIN" || r == "COMUM"
    ensures t == ADMIN <==> r == "ADMIN"
  {
    match t
    case ADMIN => "ADMIN"
    case COMUM => "COMUM"
  }

  datatype Usuario = Usuario(id: Uuid, nome: string, email: string, telefone: string,
                             senha: string, tipoUsuario: TipoUsuario)
  {
    /** getAuthorities: the single authority "ROLE_" + role name. */
    function Authorities(): (r: seq<string>)
      ensures r == ["ROLE_ADMIN"] || r == ["ROLE_COMUM"]
      ensures r == ["ROLE_ADMIN"] <==> tipoUsuario == ADMIN
    {
      assert "ROLE_" + "ADMIN" == "ROLE_ADMIN" && "ROLE_" + "COMUM" == "ROLE_COMUM";
      ["ROLE_" + Name(tipoUsuario)]
    }

    /** getUsername: the e-mail. */
    function Username(): string {
      email
    }

    /** getPassword: the stored hash. */
    function Password(): string {
      senha
    }

    /** The four account-state flags of UserDetails. */
    predicate IsAccountNonExpired() { true }
    predicate IsAccountNonLocked() { true }
    predicate IsCredentialsNonExpired() { true }
    predicate IsEnabled() { true }
  }

  /** What Spring Security reads from a user: the e-mail as username, the hash
      as password, and an account that is never expired, locked or disabled. */
  lemma UserDetailsOf(u: Usuario)
    ensures u.Username() == u.email && u.Password() == u.senha
    ensures u.IsAccountNonExpired() && u.IsAccountNonLocked() && u.IsCredentialsNonExpired() && u.IsEnabled()
  {
  }

  /** Rows are stored under their own id, and the e-mail column is unique. */
  predicate TableValid(rows: map<Uuid, Usuario>) {
    (forall k :: k in rows ==> rows[k].id == k)
    && forall a, b :: a in rows && b in rows && rows[a].email == rows[b].email ==> a == b
  }

  /** findByEmail(email).isPresent() */
  predicate EmailInUse(rows: map<Uuid, Usuario>, email: string) {
    exists k :: k in rows && rows[k].email == email
  }

  /** findByEmail: the one user with that e-mail, if any. */
  function FindByEmail(rows: map<Uuid, Usuario>, email: string): (r: Option<Usuario>)
    requires TableValid(rows)
    ensures r.Some? <==> EmailInUse(rows, email)
    ensures r.Some? ==> r.value.id in rows && rows[r.value.id] == r.value && r.value.email == email
  {
    if exists k :: k in rows && rows[k].email == email then
      var k :| k in rows && rows[k].email == email;
      Some(rows[k])
    else None
  }
}

/** model/Usuario.java: the older user entity, used by the root-package
    security filter, JwtUtil and the config initializer. */
module RootUsuarioEntity {
  import opened Wrappers
  import opened Errors

  datatype TipoUsuario = ADMIN | COMUM

  function Name(t: TipoUsuario): (r: string)
    ensures r == "ADMIN" || r == "COMUM"
    ensures t == ADMIN <==> r == "ADMIN"
  {
    match t
    case ADMIN => "ADMIN"
    case COMUM => "COMUM"
  }

  datatype Usuario = Usuario(id: Uuid, nome: string, email: string, telefone: string,
                             senha: string, tipoUsuario: TipoUsuario)
  {
    function Authorities(): (r: seq<string>)
      ensures r == ["ROLE_ADMIN"] || r == ["ROLE_COMUM"]
      ensures r == ["ROLE_ADMIN"] <==> tipoUsuario == ADMIN
    {
      assert "ROLE_" + "ADMIN" == "ROLE_ADMIN" && "ROLE_" + "COMUM" == "ROLE_COMUM";
      ["ROLE_" + Name(tipoUsuario)]
    }

    function Username(): string {
      email
    }

    function Password(): string {
      senha
    }
  }

  /** The e-mail is the username and the hash the password. */
  lemma UserDetailsOf(u: Usuario)
    ensures u.Username() == u.email && u.Password() == u.senha
  {
  }

  predicate TableValid(rows: map<Uuid, Usuario>) {
    (forall k :: k in rows ==> rows[k].id == k)
    && forall a, b :: a in rows && b in rows && rows[a].email == rows[b].email ==> a == b
  }

  function FindByEmail(rows: map<Uuid, Usuario>, email: string): (r: Option<Usuario>)
    requires TableValid(rows)
    ensures r.Some? <==> exists k :: k in rows && rows[k].email == email
    ensures r.Some? ==> r.value.id in rows && rows[r.value.id] == r.value && r.value.email == email
  {
    if exists k :: k in rows && rows[k].email == email then
      var k :| k in rows && rows[k].email == email;
      Some(rows[k])
    else None
  }
}
