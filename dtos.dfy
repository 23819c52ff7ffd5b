/** model/usuario/UsuarioDTOs.java: the user requests UsuarioService takes. */
module ModelUsuarioDtos {
  import opened Wrappers
  import opened Errors
  import opened JavaLang
  import opened Constraints

  datatype Create = Create(nome: Option<string>, email: Option<string>, telefone: Option<string>,
                           senha: Option<string>, tipoUsuario: Option<string>)

  datatype Update = Update(nome: Option<string>, email: Option<string>, telefone: Option<string>,
                           novaSenha: Option<string>, tipoUsuario: Option<string>)

  /** The response carries no password field. */
  datatype Response = Response(id: Uuid, nome: string, email: string, telefone: string, tipoUsuario: string)

  predicate ValidCreate(d: Create, isEmail: string -> bool)
    ensures ValidCreate(d, isEmail) ==> d.nome.Some? && d.email.Some? && isEmail(d.email.value) && d.telefone.Some?
                                        && d.senha.Some? && Utf16Length(d.senha.value) >= 6
  {
    NotBlank(d.nome) && NotBlank(d.email) && Email(d.email, isEmail) && NotBlank(d.telefone)
    && NotBlank(d.senha) && SizeAtLeast(d.senha, 6)
  }

  predicate ValidUpdate(d: Update, isEmail: string -> bool)
    ensures ValidUpdate(d, isEmail) ==> d.nome.Some? && d.email.Some? && isEmail(d.email.value) && d.telefone.Some?
                                        && (d.novaSenha.Some? ==> Utf16Length(d.novaSenha.value) >= 6)
  {
    NotBlank(d.nome) && NotBlank(d.email) && Email(d.email, isEmail) && NotBlank(d.telefone)
    && SizeAtLeast(d.novaSenha, 6)
  }

  /** The role text is not validated at all. */
  lemma CreateConstraints(d: Create, isEmail: string -> bool, role: Option<string>)
    ensures ValidCreate(d, isEmail) == ValidCreate(d.(tipoUsuario := role), isEmail)
  {
  }

  /** novaSenha may be left out, and six spaces pass @Size although the service
      treats them as blank and keeps the old password. */
  lemma UpdatePasswordOptional(d: Update, isEmail: string -> bool)
    ensures ValidUpdate(d.(novaSenha := None), isEmail) <==>
              NotBlank(d.nome) && NotBlank(d.email) && Email(d.email, isEmail) && NotBlank(d.telefone)
    ensures ValidUpdate(d.(novaSenha := Some("      ")), isEmail) == ValidUpdate(d.(novaSenha := None), isEmail)
    ensures IsBlank("      ")
  {
    assert Utf16Length("      ") == 6;
  }
}

/** dto/UsuarioDTOs.java: the controller-side user requests; Update adds senhaAtual. */
module DtoUsuarioDtos {
  import opened Wrappers
  import opened Errors
  import opened JavaLang
  import opened Constraints

  datatype Create = Create(nome: Option<string>, email: Option<string>, telefone: Option<string>,
                           senha: Option<string>, tipoUsuario: Option<string>)

  datatype Update = Update(nome: Option<string>, email: Option<string>, telefone: Option<string>,
                           novaSenha: Option<string>, tipoUsuario: Option<string>, senhaAtual: Option<string>)

  datatype Response = Response(id: Uuid, nome: string, email: string, telefone: string, tipoUsuario: string)

  datatype UpdateResponse = UpdateResponse(usuario: Response, token: string)

  predicate ValidCreate(d: Create, isEmail: string -> bool)
    ensures ValidCreate(d, isEmail) ==> d.nome.Some? && d.email.Some? && isEmail(d.email.value) && d.telefone.Some?
                                        && d.senha.Some? && Utf16Length(d.senha.value) >= 6
  {
    NotBlank(d.nome) && NotBlank(d.email) && Email(d.email, isEmail) && NotBlank(d.telefone)
    && NotBlank(d.senha) && SizeAtLeast(d.senha, 6)
  }

  predicate ValidUpdate(d: Update, isEmail: string -> bool)
    ensures ValidUpdate(d, isEmail) ==> d.nome.Some? && d.email.Some? && isEmail(d.email.value) && d.telefone.Some?
                                        && (d.novaSenha.Some? ==> Utf16Length(d.novaSenha.value) >= 6)
  {
    NotBlank(d.nome) && NotBlank(d.email) && Email(d.email, isEmail) && NotBlank(d.telefone)
    && SizeAtLeast(d.novaSenha, 6)
  }

  lemma CreateConstraints(d: Create, isEmail: string -> bool, role: Option<string>)
    ensures ValidCreate(d, isEmail) == ValidCreate(d.(tipoUsuario := role), isEmail)
  {
  }

  /** Neither the new nor the current password is required, and the current one
      is not constrained at all. */
  lemma UpdatePasswordsOptional(d: Update, isEmail: string -> bool, atual: Option<string>)
    ensures ValidUpdate(d.(novaSenha := None), isEmail) <==>
              NotBlank(d.nome) && NotBlank(d.email) && Email(d.email, isEmail) && NotBlank(d.telefone)
    ensures ValidUpdate(d, isEmail) == ValidUpdate(d.(senhaAtual := atual), isEmail)
  {
  }
}

/** model/auth/AuthDTOs.java: the requests AuthService takes. */
module ModelAuthDtos {
  import opened Wrappers
  import opened Errors
  import opened JavaLang
  import opened Constraints

  datatype LoginRequest = LoginRequest(email: Option<string>, senha: Option<string>)

  datatype RegisterRequest = RegisterRequest(nome: Option<string>, email: Option<string>,
                                             telefone: Option<string>, senha: Option<string>)

  datatype JwtResponse = JwtResponse(token: string, usuarioId: Uuid, tipoUsuario: string, nome: string)

  predicate ValidLogin(r: LoginRequest, isEmail: string -> bool)
    ensures ValidLogin(r, isEmail) ==> r.email.Some? && isEmail(r.email.value) && r.senha.Some? && TrimNonEmpty(r.senha.value)
  {
    NotBlank(r.email) && Email(r.email, isEmail) && NotBlank(r.senha)
  }

  predicate ValidRegister(r: RegisterRequest, isEmail: string -> bool)
    ensures ValidRegister(r, isEmail) ==> r.nome.Some? && r.email.Some? && isEmail(r.email.value) && r.telefone.Some?
                                          && r.senha.Some? && Utf16Length(r.senha.value) >= 6
  {
    NotBlank(r.nome) && NotBlank(r.email) && Email(r.email, isEmail) && NotBlank(r.telefone)
    && NotBlank(r.senha) && SizeAtLeast(r.senha, 6)
  }

  /** Login checks only that a password is present; registration also wants six
      UTF-16 units. */
  lemma PasswordRules(email: string, isEmail: string -> bool)
    requires TrimNonEmpty(email) && isEmail(email)
    ensures ValidLogin(LoginRequest(Some(email), Some("abc")), isEmail)
    ensures forall nome, tel :: !ValidRegister(RegisterRequest(nome, Some(email), tel, Some("abc")), isEmail)
  {
    assert "abc"[0] > ' ';
    assert Utf16Length("abc") == 3;
  }
}

/** dto/AuthDTOs.java: the controller-side copies of the same requests. */
module DtoAuthDtos {
  import opened Wrappers
  import opened Errors
  import opened JavaLang
  import opened Constraints

  datatype LoginRequest = LoginRequest(email: Option<string>, senha: Option<string>)

  datatype RegisterRequest = RegisterRequest(nome: Option<string>, email: Option<string>,
                                             telefone: Option<string>, senha: Option<string>)

  datatype JwtResponse = JwtResponse(token: string, usuarioId: Uuid, tipoUsuario: string, nome: string)

  predicate ValidLogin(r: LoginRequest, isEmail: string -> bool)
    ensures ValidLogin(r, isEmail) ==> r.email.Some? && isEmail(r.email.value) && r.senha.Some? && TrimNonEmpty(r.senha.value)
  {
    NotBlank(r.email) && Email(r.email, isEmail) && NotBlank(r.senha)
  }

  predicate ValidRegister(r: RegisterRequest, isEmail: string -> bool)
    ensures ValidRegister(r, isEmail) ==> r.nome.Some? && r.email.Some? && isEmail(r.email.value) && r.telefone.Some?
                                          && r.senha.Some? && Utf16Length(r.senha.value) >= 6
  {
    NotBlank(r.nome) && NotBlank(r.email) && Email(r.email, isEmail) && NotBlank(r.telefone)
    && NotBlank(r.senha) && SizeAtLeast(r.senha, 6)
  }

  lemma PasswordRules(email: string, isEmail: string -> bool)
    requires TrimNonEmpty(email) && isEmail(email)
    ensures ValidLogin(LoginRequest(Some(email), Some("abc")), isEmail)
    ensures forall nome, tel :: !ValidRegister(RegisterRequest(nome, Some(email), tel, Some("abc")), isEmail)
  {
    assert "abc"[0] > ' ';
    assert Utf16Length("abc") == 3;
  }
}

/** model/propriedade/PropriedadeDTO.java: the property request PropriedadeService maps. */
module ModelPropriedadeDto {
  import opened Wrappers
  import opened Errors
  import opened JavaLang
  import opened Constraints

  datatype PropriedadeDto = PropriedadeDto(nome: Option<string>, cidadeId: Option<Uuid>, coordenadas: Option<string>,
                                           proprietario: Option<string>, telefoneProprietario: Option<string>,
                                           atividades: Option<seq<Uuid>>, vulnerabilidades: Option<seq<Uuid>>)

  predicate Valid(d: PropriedadeDto)
    ensures Valid(d) ==> d.cidadeId.Some? && d.atividades.Some? && |d.atividades.value| >= 1
                         && d.nome.Some? && 2 <= Utf16Length(d.nome.value) <= 255 && d.coordenadas.Some?
  {
    NotBlank(d.nome) && SizeBetween(d.nome, 2, 255) && NotNull(d.cidadeId) && NotBlank(d.coordenadas)
    && NotNull(d.atividades) && ListSizeAtLeast(d.atividades, 1)
  }

  /** Owner name, owner phone and vulnerabilities may be null. */
  lemma DtoConstraints(d: PropriedadeDto)
    ensures Valid(d) == Valid(d.(proprietario := None, telefoneProprietario := None, vulnerabilidades := None))
  {
  }
}

/** dto/PropriedadeDTOs.java: the controller-side property request. */
module DtoPropriedadeDtos {
  import opened Wrappers
  import opened Errors
  import opened JavaLang
  import opened Constraints
  import opened Repositories

  datatype Request = Request(nome: Option<string>, cidadeId: Option<Uuid>, coordenadas: Option<string>,
                             proprietario: Option<string>, telefoneProprietario: Option<string>,
                             atividades: Option<seq<Uuid>>, vulnerabilidades: Option<seq<Uuid>>)

  datatype SimpleUserDto = SimpleUserDto(id: Uuid, nome: string)

  datatype Response = Response(id: Uuid, nome: string, cidade: LookupDto, coordenadas: string,
                               proprietario: string, telefoneProprietario: string,
                               atividades: seq<LookupDto>, vulnerabilidades: seq<LookupDto>,
                               usuario: SimpleUserDto)

  predicate ValidRequest(d: Request)
    ensures ValidRequest(d) ==> d.cidadeId.Some? && d.atividades.Some? && |d.atividades.value| >= 1
                                && d.nome.Some? && 2 <= Utf16Length(d.nome.value) <= 255 && d.coordenadas.Some?
  {
    NotBlank(d.nome) && SizeBetween(d.nome, 2, 255) && NotNull(d.cidadeId) && NotBlank(d.coordenadas)
    && NotNull(d.atividades) && ListSizeAtLeast(d.atividades, 1)
  }

  lemma RequestConstraints(d: Request)
    ensures ValidRequest(d) == ValidRequest(d.(proprietario := None, telefoneProprietario := None, vulnerabilidades := None))
  {
  }

  /** A one-character name is too short even when it is not blank. */
  lemma NameTooShort(d: Request)
    ensures !ValidRequest(d.(nome := Some("A")))
  {
    assert Utf16Length("A") == 1;
  }
}

/** model/ocorrencia/OcorrenciaDTO.java: the occurrence request OcorrenciaService saves. */
module ModelOcorrenciaDto {
  import opened Wrappers
  import opened Errors
  import opened JavaLang
  import opened Constraints

  datatype OcorrenciaDto = OcorrenciaDto(tipoOcorrenciaId: Option<Uuid>, data: Option<Date>, descricao: Option<string>,
                                         propriedadeId: Option<Uuid>, incidentes: Option<seq<Uuid>>)

  predicate Valid(d: OcorrenciaDto, today: Date)
    ensures Valid(d, today) ==> d.tipoOcorrenciaId.Some? && d.data.Some? && d.data.value <= today
                                && d.descricao.Some? && TrimNonEmpty(d.descricao.value) && d.propriedadeId.Some?
  {
    NotNull(d.tipoOcorrenciaId) && NotNull(d.data) && PastOrPresent(d.data, today)
    && NotBlank(d.descricao) && NotNull(d.propriedadeId)
  }

  /** The date may be today but not tomorrow; the incident list is optional, and
      no length limit applies to the description. */
  lemma DtoConstraints(d: OcorrenciaDto, today: Date, incidentes: Option<seq<Uuid>>, longer: string)
    ensures Valid(d.(data := Some(today + 1)), today) == false
    ensures Valid(d.(data := Some(today)), today) == Valid(d.(data := Some(today - 1)), today)
    ensures Valid(d, today) == Valid(d.(incidentes := incidentes), today)
    ensures Valid(d, today) && TrimNonEmpty(longer) ==> Valid(d.(descricao := Some(d.descricao.value + longer)), today)
  {
    if Valid(d, today) && TrimNonEmpty(longer) {
      var i :| 0 <= i < |longer| && longer[i] > ' ';
      assert (d.descricao.value + longer)[|d.descricao.value| + i] == longer[i];
    }
  }
}

/** dto/OcorrenciaDTOs.java: the controller-side occurrence requests. */
module DtoOcorrenciaDtos {
  import opened Wrappers
  import opened Errors
  import opened JavaLang
  import opened Constraints

  datatype Request = Request(tipoOcorrenciaId: Option<Uuid>, data: Option<Date>, descricao: Option<string>,
                             propriedadeId: Option<Uuid>, incidentes: Option<seq<Uuid>>)

  datatype UpdateRequest = UpdateRequest(tipoOcorrenciaId: Option<Uuid>, data: Option<Date>, descricao: Option<string>,
                                         incidentes: Option<seq<Uuid>>, fotosParaExcluir: Option<seq<Uuid>>)

  predicate ValidRequest(d: Request, today: Date)
    ensures ValidRequest(d, today) ==> d.tipoOcorrenciaId.Some? && d.data.Some? && d.data.value <= today
                                       && d.descricao.Some? && TrimNonEmpty(d.descricao.value) && d.propriedadeId.Some?
  {
    NotNull(d.tipoOcorrenciaId) && NotNull(d.data) && PastOrPresent(d.data, today)
    && NotBlank(d.descricao) && NotNull(d.propriedadeId)
  }

  predicate ValidUpdate(d: UpdateRequest, today: Date)
    ensures ValidUpdate(d, today) ==> d.tipoOcorrenciaId.Some? && d.data.Some? && d.data.value <= today
                                      && d.descricao.Some? && TrimNonEmpty(d.descricao.value)
  {
    NotNull(d.tipoOcorrenciaId) && NotNull(d.data) && PastOrPresent(d.data, today) && NotBlank(d.descricao)
  }

  lemma RequestConstraints(d: Request, today: Date, incidentes: Option<seq<Uuid>>)
    ensures ValidRequest(d.(data := Some(today + 1)), today) == false
    ensures ValidRequest(d.(data := Some(today)), today) == ValidRequest(d.(data := Some(today - 1)), today)
    ensures ValidRequest(d, today) == ValidRequest(d.(incidentes := incidentes), today)
  {
  }

  /** An update needs no property; the incident and photo lists are optional. */
  lemma UpdateConstraints(d: UpdateRequest, today: Date, incidentes: Option<seq<Uuid>>, fotos: Option<seq<Uuid>>)
    ensures ValidUpdate(d, today) == ValidUpdate(d.(incidentes := incidentes, fotosParaExcluir := fotos), today)
  {
  }
}
