/**
 * model/propriedade/Propriedade.java: the property entity PropriedadeService
 * works on. Every column but vulnerabilidades is NOT NULL and @NotNull, and
 * Lombok's @NonNull makes the generated setters throw on null. The no-argument
 * constructor leaves every field null, so each field is optional here.
 */
module PropriedadeEntity {
  import opened Wrappers
  import opened Errors
  import opened Repositories
  import opened UsuarioEntity

  datatype Propriedade = Propriedade(id: Option<Uuid>, nome: Option<string>, cidade: Option<Lookup>,
                                     coordenadas: Option<string>, proprietario: Option<string>,
                                     telefoneProprietario: Option<string>, usuario: Option<Usuario>,
                                     atividades: Option<seq<Lookup>>, vulnerabilidades: Option<seq<Lookup>>)
  {
    /** The Lombok setters: the @NonNull ones throw on null, setVulnerabilidades does not. */
    function SetNome(v: Option<string>): (r: Result<Propriedade, Error>)
      ensures r.Success? <==> v.Some?
      ensures r.Success? ==> r.value == Propriedade(id, v, cidade, coordenadas, proprietario, telefoneProprietario, usuario, atividades, vulnerabilidades)
      ensures r.Failure? ==> r.error == NullPointer("nome")
    {
      var x :- NonNull(v, "nome"); Success(this.(nome := Some(x)))
    }
    function SetCidade(v: Option<Lookup>): (r: Result<Propriedade, Error>)
      ensures r.Success? <==> v.Some?
      ensures r.Success? ==> r.value == Propriedade(id, nome, v, coordenadas, proprietario, telefoneProprietario, usuario, atividades, vulnerabilidades)
      ensures r.Failure? ==> r.error == NullPointer("cidade")
    {
      var x :- NonNull(v, "cidade"); Success(this.(cidade := Some(x)))
    }
    function SetCoordenadas(v: Option<string>): (r: Result<Propriedade, Error>)
      ensures r.Success? <==> v.Some?
      ensures r.Success? ==> r.value == Propriedade(id, nome, cidade, v, proprietario, telefoneProprietario, usuario, atividades, vulnerabilidades)
      ensures r.Failure? ==> r.error == NullPointer("coordenadas")
    {
      var x :- NonNull(v, "coordenadas"); Success(this.(coordenadas := Some(x)))
    }
    function SetProprietario(v: Option<string>): (r: Result<Propriedade, Error>)
      ensures r.Success? <==> v.Some?
      ensures r.Success? ==> r.value == Propriedade(id, nome, cidade, coordenadas, v, telefoneProprietario, usuario, atividades, vulnerabilidades)
      ensures r.Failure? ==> r.error == NullPointer("proprietario")
    {
      var x :- NonNull(v, "proprietario"); Success(this.(proprietario := Some(x)))
    }
    function SetTelefoneProprietario(v: Option<string>): (r: Result<Propriedade, Error>)
      ensures r.Success? <==> v.Some?
      ensures r.Success? ==> r.value == Propriedade(id, nome, cidade, coordenadas, proprietario, v, usuario, atividades, vulnerabilidades)
      ensures r.Failure? ==> r.error == NullPointer("telefoneProprietario")
    {
      var x :- NonNull(v, "telefoneProprietario"); Success(this.(telefoneProprietario := Some(x)))
    }
    function SetUsuario(v: Option<Usuario>): (r: Result<Propriedade, Error>)
      ensures r.Success? <==> v.Some?
      ensures r.Success? ==> r.value == Propriedade(id, nome, cidade, coordenadas, proprietario, telefoneProprietario, v, atividades, vulnerabilidades)
      ensures r.Failure? ==> r.error == NullPointer("usuario")
    {
      var x :- NonNull(v, "usuario"); Success(this.(usuario := Some(x)))
    }
    function SetAtividades(v: Option<seq<Lookup>>): (r: Result<Propriedade, Error>)
      ensures r.Success? <==> v.Some?
      ensures r.Success? ==> r.value == Propriedade(id, nome, cidade, coordenadas, proprietario, telefoneProprietario, usuario, v, vulnerabilidades)
      ensures r.Failure? ==> r.error == NullPointer("atividades")
    {
      var x :- NonNull(v, "atividades"); Success(this.(atividades := Some(x)))
    }
    function SetVulnerabilidades(v: Option<seq<Lookup>>): (r: Propriedade)
      ensures r == Propriedade(id, nome, cidade, coordenadas, proprietario, telefoneProprietario, usuario, atividades, v)
    {
      this.(vulnerabilidades := v)
    }
  }

  /** new Propriedade() */
  const Nova := Propriedade(None, None, None, None, None, None, None, None, None)

  /** Lombok's null check in front of a @NonNull setter. */
  function NonNull<T>(v: Option<T>, field: string): (r: Result<T, Error>)
    ensures r.Success? <==> v.Some?
    ensures r.Success? ==> r.value == v.value
    ensures r.Failure? ==> r.error == NullPointer(field)
  {
    if v.None? then Failure(NullPointer(field)) else Success(v.value)
  }

  /** The first NOT NULL column, in declaration order, that the entity leaves null;
      persisting the entity fails on it. */
  function MissingColumn(p: Propriedade): (r: Option<string>)
    ensures r.None? <==>
              p.nome.Some? && p.cidade.Some? && p.coordenadas.Some? && p.proprietario.Some?
              && p.telefoneProprietario.Some? && p.usuario.Some? && p.atividades.Some?
    ensures r.Some? ==> r.value in {"nome", "cidade", "coordenadas", "proprietario", "telefoneProprietario", "usuario", "atividades"}
  {
    if p.nome.None? then Some("nome")
    else if p.cidade.None? then Some("cidade")
    else if p.coordenadas.None? then Some("coordenadas")
    else if p.proprietario.None? then Some("proprietario")
    else if p.telefoneProprietario.None? then Some("telefoneProprietario")
    else if p.usuario.None? then Some("usuario")
    else if p.atividades.None? then Some("atividades")
    else None
  }

  /** Only null is refused: a blank owner name or phone is stored as it is, and
      vulnerabilidades may be null. */
  lemma BlankContactPersists(p: Propriedade)
    requires MissingColumn(p).None?
    ensures MissingColumn(p.(proprietario := Some(""), telefoneProprietario := Some(" "), vulnerabilidades := None)).None?
  {
  }
}

/**
 * model/Propriedade.java: the older property entity. Its text columns are
 * @NotBlank, city and owner @NotNull; the lists are shared many-to-many
 * references, and ocorrencias is the unowned inverse side, with no cascade.
 */
module RootPropriedadeEntity {
  import opened Wrappers
  import opened Errors
  import opened Constraints
  import opened Repositories
  import opened RootUsuarioEntity

  datatype Propriedade = Propriedade(id: Option<Uuid>, nome: Option<string>, cidade: Option<Lookup>,
                                     coordenadas: Option<string>, proprietario: Option<string>,
                                     telefoneProprietario: Option<string>, usuario: Option<Usuario>,
                                     atividades: Option<seq<Lookup>>, vulnerabilidades: Option<seq<Lookup>>,
                                     ocorrencias: Option<seq<Uuid>>)

  /** Bean Validation of the entity at persist time. */
  predicate Valid(p: Propriedade) {
    NotBlank(p.nome) && NotNull(p.cidade) && NotBlank(p.coordenadas) && NotBlank(p.proprietario)
    && NotBlank(p.telefoneProprietario) && NotNull(p.usuario)
  }

  /** Unlike the newer entity, this one refuses a blank owner name or phone; it
      places no constraint on the lists. */
  lemma ValidityRules(p: Propriedade, a: Option<seq<Lookup>>, v: Option<seq<Lookup>>, o: Option<seq<Uuid>>)
    ensures Valid(p) ==> p.cidade.Some? && p.usuario.Some? && p.proprietario.Some? && p.telefoneProprietario.Some?
    ensures !Valid(p.(proprietario := Some("   ")))
    ensures !Valid(p.(telefoneProprietario := Some("")))
    ensures Valid(p) == Valid(p.(atividades := a, vulnerabilidades := v, ocorrencias := o))
  {
    assert !JavaLang.TrimNonEmpty("   ");
  }
}
