/**
 * service/PropriedadeService.java: building, saving, updating and deleting
 * properties, with the owner contact defaulted from the authenticated user.
 */
module PropriedadeService {
  import opened Wrappers
  import opened Errors
  import opened JavaLang
  import opened Repositories
  import opened UsuarioEntity
  import opened PropriedadeEntity
  import opened ModelPropriedadeDto
  import opened SecurityContextModel

  const NOT_FOUND := "Propriedade não encontrada"
  const NOT_FOUND_WITH_ID := "Propriedade não encontrada com id: "
  const CIDADE_NOT_FOUND := "Cidade não encontrada com ID: "
  const ATIVIDADE_NOT_FOUND := "Atividade não encontrada com ID: "
  const VULNERABILIDADE_NOT_FOUND := "Vulnerabilidade não encontrada com ID: "

  /** s == null || s.isBlank() */
  predicate BlankOrNull(s: Option<string>) {
    s.None? || IsBlank(s.value)
  }

  /** auth != null && auth.getPrincipal() instanceof Usuario usuario */
  function UsuarioAutenticado(auth: Option<Authentication<Usuario>>): (r: Option<Usuario>)
    ensures r.Some? <==> auth.Some? && auth.value.principal.UserPrincipal?
    ensures r.Some? ==> r.value == auth.value.principal.user
  {
    if auth.Some? && auth.value.principal.UserPrincipal? then Some(auth.value.principal.user) else None
  }

  /** Every stored property sits under its own id and has all its NOT NULL columns. */
  predicate RowsValid(rows: map<Uuid, Propriedade>) {
    forall k :: k in rows ==> rows[k].id == Some(k) && MissingColumn(rows[k]).None?
  }

  /** buscarPorId */
  function BuscarPorId(rows: map<Uuid, Propriedade>, id: Uuid): (r: Result<Propriedade, Error>)
    ensures r.Success? <==> id in rows
    ensures r.Success? ==> r.value == rows[id]
    ensures r.Failure? ==> r.error == EntityNotFound(NOT_FOUND, None)
  {
    FindById(rows, Some(id), EntityNotFound(NOT_FOUND, None))
  }

  /** ids.stream().map(service::buscarPorId): the lookups in order, stopping at the
      first id that is not stored. */
  function Resolver(ids: seq<Uuid>, rows: map<Uuid, Lookup>, message: string): (r: Result<seq<Lookup>, Error>)
    ensures r.Success? <==> forall i :: 0 <= i < |ids| ==> ids[i] in rows
    ensures r.Success? ==> |r.value| == |ids| && forall i :: 0 <= i < |ids| ==> r.value[i] == rows[ids[i]]
    ensures r.Failure? ==>
              exists i :: 0 <= i < |ids| && ids[i] !in rows && (forall j :: 0 <= j < i ==> ids[j] in rows)
                          && r.error == EntityNotFound(message, Some(ids[i]))
  {
    match ResolveAll(ids, rows)
    case Success(v) => Success(v)
    case Failure(id) => Failure(EntityNotFound(message, Some(id)))
  }

  /** All references of the request resolve. */
  predicate ReferencesResolve(dto: PropriedadeDto, cidades: map<Uuid, Lookup>, atividades: map<Uuid, Lookup>,
                              vulnerabilidades: map<Uuid, Lookup>)
  {
    dto.cidadeId.Some? && dto.cidadeId.value in cidades
    && (dto.atividades.Some? ==> forall i :: 0 <= i < |dto.atividades.value| ==> dto.atividades.value[i] in atividades)
    && (dto.vulnerabilidades.Some? ==>
          forall i :: 0 <= i < |dto.vulnerabilidades.value| ==> dto.vulnerabilidades.value[i] in vulnerabilidades)
  }

  /** fromDTO as written: every @NonNull setter is called with the request's value,
      so a null owner name or phone throws, and so does a null vulnerability list. */
  function FromDto(dto: PropriedadeDto, usuario: Option<Usuario>, cidades: map<Uuid, Lookup>,
                   atividades: map<Uuid, Lookup>, vulnerabilidades: map<Uuid, Lookup>): (r: Result<Propriedade, Error>)
    ensures r.Success? <==>
              dto.nome.Some? && dto.coordenadas.Some? && dto.proprietario.Some? && dto.telefoneProprietario.Some?
              && usuario.Some? && dto.atividades.Some? && dto.vulnerabilidades.Some?
              && ReferencesResolve(dto, cidades, atividades, vulnerabilidades)
    ensures r.Success? ==>
              var p := r.value;
              p.id.None? && p.nome == dto.nome && p.cidade == Some(cidades[dto.cidadeId.value])
              && p.coordenadas == dto.coordenadas && p.proprietario == dto.proprietario
              && p.telefoneProprietario == dto.telefoneProprietario && p.usuario == usuario
              && p.atividades.Some? && |p.atividades.value| == |dto.atividades.value|
              && (forall i :: 0 <= i < |dto.atividades.value| ==> p.atividades.value[i] == atividades[dto.atividades.value[i]])
              && p.vulnerabilidades.Some? && |p.vulnerabilidades.value| == |dto.vulnerabilidades.value|
              && (forall i :: 0 <= i < |dto.vulnerabilidades.value| ==>
                    p.vulnerabilidades.value[i] == vulnerabilidades[dto.vulnerabilidades.value[i]])
    ensures dto.nome.None? ==> r == Failure(NullPointer("nome"))
    ensures dto.nome.Some? && dto.cidadeId.None? ==> r == Failure(IllegalArgument(NULL_ID_MESSAGE))
    ensures dto.nome.Some? && dto.cidadeId.Some? && dto.cidadeId.value !in cidades ==>
              r == Failure(EntityNotFound(CIDADE_NOT_FOUND, dto.cidadeId))
  {
    var p :- Nova.SetNome(dto.nome);
    var cidade :- FindById(cidades, dto.cidadeId, EntityNotFound(CIDADE_NOT_FOUND, dto.cidadeId));
    var p := p.(cidade := Some(cidade));
    var p :- p.SetCoordenadas(dto.coordenadas);
    var p :- p.SetProprietario(dto.proprietario);
    var p :- p.SetTelefoneProprietario(dto.telefoneProprietario);
    var p :- p.SetUsuario(usuario);
    var ids :- NonNull(dto.atividades, "atividades");
    var acts :- Resolver(ids, atividades, ATIVIDADE_NOT_FOUND);
    var p := p.(atividades := Some(acts));
    var vids :- NonNull(dto.vulnerabilidades, "vulnerabilidades");
    var vs :- Resolver(vids, vulnerabilidades, VULNERABILIDADE_NOT_FOUND);
    Success(p.SetVulnerabilidades(Some(vs)))
  }

  /** A request that passes validation, leaves the owner out as the request type
      invites, and names only stored references, is still refused by fromDTO. */
  lemma FromDtoRejectsOmittedOwner(dto: PropriedadeDto, usuario: Usuario, cidades: map<Uuid, Lookup>,
                                   atividades: map<Uuid, Lookup>, vulnerabilidades: map<Uuid, Lookup>)
    requires Valid(dto) && dto.proprietario.None?
    requires ReferencesResolve(dto, cidades, atividades, vulnerabilidades)
    ensures FromDto(dto, Some(usuario), cidades, atividades, vulnerabilidades) == Failure(NullPointer("proprietario"))
  {
  }

  /** The same for a request without its optional vulnerability list. */
  lemma FromDtoRejectsOmittedVulnerabilidades(dto: PropriedadeDto, usuario: Usuario, cidades: map<Uuid, Lookup>,
                                              atividades: map<Uuid, Lookup>, vulnerabilidades: map<Uuid, Lookup>)
    requires Valid(dto) && dto.proprietario.Some? && dto.telefoneProprietario.Some? && dto.vulnerabilidades.None?
    requires ReferencesResolve(dto, cidades, atividades, vulnerabilidades)
    ensures FromDto(dto, Some(usuario), cidades, atividades, vulnerabilidades) == Failure(NullPointer("vulnerabilidades"))
  {
  }

  /** fromDTO as the request type documents it: a missing owner name or phone is
      left unset for salvar to fill in, and a missing vulnerability list is left
      unset, which the entity allows. */
  function FromDtoCorrigido(dto: PropriedadeDto, usuario: Option<Usuario>, cidades: map<Uuid, Lookup>,
                            atividades: map<Uuid, Lookup>, vulnerabilidades: map<Uuid, Lookup>): (r: Result<Propriedade, Error>)
    ensures r.Success? <==>
              dto.nome.Some? && dto.coordenadas.Some? && usuario.Some? && dto.atividades.Some?
              && ReferencesResolve(dto, cidades, atividades, vulnerabilidades)
    ensures r.Success? ==>
              var p := r.value;
              p.id.None? && p.nome == dto.nome && p.cidade == Some(cidades[dto.cidadeId.value])
              && p.coordenadas == dto.coordenadas && p.proprietario == dto.proprietario
              && p.telefoneProprietario == dto.telefoneProprietario && p.usuario == usuario
              && p.atividades.Some? && |p.atividades.value| == |dto.atividades.value|
              && (forall i :: 0 <= i < |dto.atividades.value| ==> p.atividades.value[i] == atividades[dto.atividades.value[i]])
              && (p.vulnerabilidades.Some? <==> dto.vulnerabilidades.Some?)
              && (dto.vulnerabilidades.Some? ==>
                    |p.vulnerabilidades.value| == |dto.vulnerabilidades.value|
                    && forall i :: 0 <= i < |dto.vulnerabilidades.value| ==>
                         p.vulnerabilidades.value[i] == vulnerabilidades[dto.vulnerabilidades.value[i]])
  {
    var p :- Nova.SetNome(dto.nome);
    var cidade :- FindById(cidades, dto.cidadeId, EntityNotFound(CIDADE_NOT_FOUND, dto.cidadeId));
    var p := p.(cidade := Some(cidade));
    var p :- p.SetCoordenadas(dto.coordenadas);
    var p := if dto.proprietario.Some? then p.(proprietario := dto.proprietario) else p;
    var p := if dto.telefoneProprietario.Some? then p.(telefoneProprietario := dto.telefoneProprietario) else p;
    var p :- p.SetUsuario(usuario);
    var ids :- NonNull(dto.atividades, "atividades");
    var acts :- Resolver(ids, atividades, ATIVIDADE_NOT_FOUND);
    var p := p.(atividades := Some(acts));
    if dto.vulnerabilidades.None? then Success(p)
    else
      var vs :- Resolver(dto.vulnerabilidades.value, vulnerabilidades, VULNERABILIDADE_NOT_FOUND);
      Success(p.SetVulnerabilidades(Some(vs)))
  }

  /** salvar's defaulting step: one non-blank contact field, or no authenticated
      user, keeps the property exactly as given; two blank ones take the user's
      name and phone and make the user the owner; the other fields never change. */
  function Defaulted(p: Propriedade, auth: Option<Authentication<Usuario>>): (r: Propriedade)
    ensures !BlankOrNull(p.proprietario) || !BlankOrNull(p.telefoneProprietario) ==> r == p
    ensures UsuarioAutenticado(auth).None? ==> r == p
    ensures BlankOrNull(p.proprietario) && BlankOrNull(p.telefoneProprietario) && auth.Some? && auth.value.principal.UserPrincipal? ==>
              var u := auth.value.principal.user;
              r.proprietario == Some(u.nome) && r.telefoneProprietario == Some(u.telefone) && r.usuario == Some(u)
    ensures r.(proprietario := p.proprietario, telefoneProprietario := p.telefoneProprietario, usuario := p.usuario) == p
  {
    if BlankOrNull(p.proprietario) && BlankOrNull(p.telefoneProprietario) && UsuarioAutenticado(auth).Some? then
      var u := UsuarioAutenticado(auth).value;
      p.(proprietario := Some(u.nome), telefoneProprietario := Some(u.telefone), usuario := Some(u))
    else p
  }

  /** With the corrected fromDTO, a valid request that leaves out the owner and
      comes from an authenticated user becomes a property owned by that user,
      with that user's name and phone, and every NOT NULL column set. */
  lemma {:induction false} OmittedOwnerIsDefaulted(dto: PropriedadeDto, u: Usuario, auth: Authentication<Usuario>,
                                                   cidades: map<Uuid, Lookup>, atividades: map<Uuid, Lookup>,
                                                   vulnerabilidades: map<Uuid, Lookup>)
    requires Valid(dto) && dto.proprietario.None? && dto.telefoneProprietario.None?
    requires ReferencesResolve(dto, cidades, atividades, vulnerabilidades)
    requires auth.principal == UserPrincipal(u)
    ensures FromDtoCorrigido(dto, Some(u), cidades, atividades, vulnerabilidades).Success?
    ensures var p := Defaulted(FromDtoCorrigido(dto, Some(u), cidades, atividades, vulnerabilidades).value, Some(auth));
            p.proprietario == Some(u.nome) && p.telefoneProprietario == Some(u.telefone) && p.usuario == Some(u)
            && MissingColumn(p).None?
  {
    var p := FromDtoCorrigido(dto, Some(u), cidades, atividades, vulnerabilidades).value;
    assert p.proprietario.None? && p.telefoneProprietario.None?;
    assert UsuarioAutenticado(Some(auth)) == Some(u);
  }

  /** The fields atualizar writes onto the stored property p: name, city,
      coordinates and both lists from nova; the contact from nova unless both of
      its fields are blank, in which case from the authenticated user, and with
      no such user the @NonNull setter throws on the null it is given. */
  function Atualizado(p: Propriedade, nova: Propriedade, auth: Option<Authentication<Usuario>>): (r: Result<Propriedade, Error>)
    ensures r.Success? ==> r.value.id == p.id && r.value.usuario == p.usuario
    ensures r.Success? ==>
              r.value.nome == nova.nome && r.value.cidade == nova.cidade && r.value.coordenadas == nova.coordenadas
              && r.value.atividades == nova.atividades && r.value.vulnerabilidades == nova.vulnerabilidades
    ensures r.Success? <==>
              nova.nome.Some? && nova.cidade.Some? && nova.coordenadas.Some? && nova.atividades.Some?
              && if BlankOrNull(nova.proprietario) && BlankOrNull(nova.telefoneProprietario) then
                   UsuarioAutenticado(auth).Some?
                 else nova.proprietario.Some? && nova.telefoneProprietario.Some?
    ensures r.Success? && BlankOrNull(nova.proprietario) && BlankOrNull(nova.telefoneProprietario) ==>
              r.value.proprietario == Some(UsuarioAutenticado(auth).value.nome)
              && r.value.telefoneProprietario == Some(UsuarioAutenticado(auth).value.telefone)
    ensures r.Success? && !(BlankOrNull(nova.proprietario) && BlankOrNull(nova.telefoneProprietario)) ==>
              r.value.proprietario == nova.proprietario && r.value.telefoneProprietario == nova.telefoneProprietario
    ensures nova.nome.Some? && nova.cidade.Some? && nova.coordenadas.Some?
            && BlankOrNull(nova.proprietario) && BlankOrNull(nova.telefoneProprietario) && UsuarioAutenticado(auth).None? ==>
              r == Failure(NullPointer("proprietario"))
  {
    var q :- p.SetNome(nova.nome);
    var q :- q.SetCidade(nova.cidade);
    var q :- q.SetCoordenadas(nova.coordenadas);
    var q :- if BlankOrNull(nova.proprietario) && BlankOrNull(nova.telefoneProprietario) then
               match UsuarioAutenticado(auth)
               case Some(u) => Success(q.(proprietario := Some(u.nome), telefoneProprietario := Some(u.telefone)))
               case None => q.SetProprietario(None)
             else
               var q :- q.SetProprietario(nova.proprietario);
               q.SetTelefoneProprietario(nova.telefoneProprietario);
    var q :- q.SetAtividades(nova.atividades);
    Success(q.SetVulnerabilidades(nova.vulnerabilidades))
  }

  /** A property accepted by atualizar is never short of a NOT NULL column. */
  lemma AtualizadoPersistable(p: Propriedade, nova: Propriedade, auth: Option<Authentication<Usuario>>)
    requires MissingColumn(p).None?
    requires Atualizado(p, nova, auth).Success?
    ensures MissingColumn(Atualizado(p, nova, auth).value).None?
  {
  }

  class PropriedadeService {
    const propriedadeRepository: Repository<Propriedade>

    constructor (repo: Repository<Propriedade>)
      ensures propriedadeRepository == repo
    {
      propriedadeRepository := repo;
    }

    /** salvar: the defaulting step, then save; a property still short of a NOT
        NULL column is refused and nothing is stored. A property with an id that
        is stored is overwritten; otherwise it is inserted under the fresh id. */
    method Salvar(p: Propriedade, auth: Option<Authentication<Usuario>>, novoId: Uuid) returns (r: Result<Propriedade, Error>)
      requires RowsValid(propriedadeRepository.rows)
      requires novoId !in propriedadeRepository.rows
      modifies propriedadeRepository
      ensures RowsValid(propriedadeRepository.rows)
      ensures var q := Defaulted(p, auth);
              if MissingColumn(q).Some? then
                r == Failure(ConstraintViolation(MissingColumn(q).value))
                && propriedadeRepository.rows == old(propriedadeRepository.rows)
              else
                var id := if q.id.Some? && q.id.value in old(propriedadeRepository.rows) then q.id.value else novoId;
                r == Success(q.(id := Some(id)))
                && propriedadeRepository.rows == old(propriedadeRepository.rows)[id := q.(id := Some(id))]
    {
      var q := Defaulted(p, auth);
      var missing := MissingColumn(q);
      if missing.Some? {
        return Failure(ConstraintViolation(missing.value));
      }
      var id := if q.id.Some? && q.id.value in propriedadeRepository.rows then q.id.value else novoId;
      var salva := q.(id := Some(id));
      propriedadeRepository.Save(id, salva);
      r := Success(salva);
    }

    /** atualizar: not-found for an absent id, the field updates, then the save;
        on any failure nothing is stored. */
    method Atualizar(id: Uuid, nova: Propriedade, auth: Option<Authentication<Usuario>>) returns (r: Result<Propriedade, Error>)
      requires RowsValid(propriedadeRepository.rows)
      modifies propriedadeRepository
      ensures RowsValid(propriedadeRepository.rows)
      ensures id !in old(propriedadeRepository.rows) ==>
                r == Failure(EntityNotFound(NOT_FOUND_WITH_ID, Some(id)))
      ensures id in old(propriedadeRepository.rows) ==> r == Atualizado(old(propriedadeRepository.rows)[id], nova, auth)
      ensures r.Success? ==> propriedadeRepository.rows == old(propriedadeRepository.rows)[id := r.value]
      ensures r.Failure? ==> propriedadeRepository.rows == old(propriedadeRepository.rows)
    {
      if id !in propriedadeRepository.rows {
        return Failure(EntityNotFound(NOT_FOUND_WITH_ID, Some(id)));
      }
      r := Atualizado(propriedadeRepository.rows[id], nova, auth);
      if r.Success? {
        AtualizadoPersistable(propriedadeRepository.rows[id], nova, auth);
        propriedadeRepository.Save(id, r.value);
      }
    }

    /** deletar: not-found for an absent id; otherwise exactly that property goes. */
    method Deletar(id: Uuid) returns (r: Result<(), Error>)
      requires RowsValid(propriedadeRepository.rows)
      modifies propriedadeRepository
      ensures RowsValid(propriedadeRepository.rows)
      ensures r.Success? <==> id in old(propriedadeRepository.rows)
      ensures r.Failure? ==> r.error == EntityNotFound(NOT_FOUND, None)
                             && propriedadeRepository.rows == old(propriedadeRepository.rows)
      ensures r.Success? ==> propriedadeRepository.rows == old(propriedadeRepository.rows) - {id}
    {
      var encontrada := BuscarPorId(propriedadeRepository.rows, id);
      if encontrada.Failure? {
        return Failure(encontrada.error);
      }
      propriedadeRepository.DeleteById(id);
      r := Success(());
    }
  }
}
