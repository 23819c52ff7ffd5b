/**
 * model/ocorrencia/Ocorrencia.java and its FotoOcorrencia: an occurrence on a
 * property. The photos belong to the occurrence (cascade ALL, orphan
 * removal), so they are part of its row here: a photo leaves the table
 * exactly when it leaves the list or its occurrence is deleted. Incidents are
 * shared rows of their own table that the occurrence only refers to.
 */
module OcorrenciaEntity {
  import opened Wrappers
  import opened Errors
  import opened JavaLang
  import opened Constraints
  import opened Repositories
  import opened PropriedadeEntity

  /** A photo: the name the client gave, the stored file name, and its occurrence. */
  datatype FotoOcorrencia = FotoOcorrencia(nome: Option<string>, caminho: Option<string>, ocorrencia: Option<Uuid>)

  datatype Ocorrencia = Ocorrencia(id: Option<Uuid>, tipoOcorrencia: Option<Lookup>, data: Option<Date>,
                                   descricao: Option<string>, fotos: Option<seq<FotoOcorrencia>>,
                                   propriedade: Option<Propriedade>, incidentes: Option<seq<Lookup>>)

  /** new Ocorrencia() */
  const Nova := Ocorrencia(None, None, None, None, None, None, None)

  /** @Column(length): a string column of that many characters. */
  predicate FitsColumn(s: Option<string>, length: nat) {
    s.None? || Utf16Length(s.value) <= length
  }

  const DESCRICAO_LENGTH := 2000

  /** Why saving the occurrence, and with it its photos, is refused: a @NotNull
      field that is null, a photo without a non-blank stored name or without its
      occurrence, or a description longer than the column. */
  function SaveError(o: Ocorrencia): (r: Option<Error>)
    ensures r.None? <==>
              o.tipoOcorrencia.Some? && o.data.Some? && o.propriedade.Some? && FitsColumn(o.descricao, DESCRICAO_LENGTH)
              && (o.fotos.Some? ==> forall i :: 0 <= i < |o.fotos.value| ==>
                    NotBlank(o.fotos.value[i].caminho) && o.fotos.value[i].ocorrencia.Some?)
  {
    if o.tipoOcorrencia.None? then Some(ConstraintViolation("tipoOcorrencia"))
    else if o.data.None? then Some(ConstraintViolation("data"))
    else if o.propriedade.None? then Some(ConstraintViolation("propriedade"))
    else if o.fotos.Some? && exists i :: 0 <= i < |o.fotos.value| && !NotBlank(o.fotos.value[i].caminho) then
      Some(ConstraintViolation("caminho"))
    else if o.fotos.Some? && exists i :: 0 <= i < |o.fotos.value| && o.fotos.value[i].ocorrencia.None? then
      Some(DataIntegrityViolation("ocorrencia_id"))
    else if !FitsColumn(o.descricao, DESCRICAO_LENGTH) then Some(DataIntegrityViolation("descricao"))
    else None
  }
}

/**
 * model/Ocorrencia.java and model/FotoOcorrencia.java: the older occurrence,
 * the same shape with a 500-character description column.
 */
module RootOcorrenciaEntity {
  import opened Wrappers
  import opened Errors
  import opened JavaLang
  import opened Constraints
  import opened Repositories
  import OcorrenciaEntity

  datatype FotoOcorrencia = FotoOcorrencia(nome: Option<string>, caminho: Option<string>, ocorrencia: Option<Uuid>)

  datatype Ocorrencia = Ocorrencia(id: Option<Uuid>, tipoOcorrencia: Option<Lookup>, data: Option<Date>,
                                   descricao: Option<string>, fotos: Option<seq<FotoOcorrencia>>,
                                   propriedade: Option<Uuid>, incidentes: Option<seq<Lookup>>)

  const DESCRICAO_LENGTH := 500

  /** The row and its photos can be stored. */
  predicate Storable(o: Ocorrencia) {
    o.tipoOcorrencia.Some? && o.data.Some? && o.propriedade.Some?
    && OcorrenciaEntity.FitsColumn(o.descricao, DESCRICAO_LENGTH)
    && (o.fotos.Some? ==> forall i :: 0 <= i < |o.fotos.value| ==>
          NotBlank(o.fotos.value[i].caminho) && o.fotos.value[i].ocorrencia.Some?)
  }

  /** The older row o and the newer row n carry the same columns: the same type,
      date, description and incidents, a property on both or on neither, and
      photos with the same stored names and owners, in the same order. */
  predicate SameRow(o: Ocorrencia, n: OcorrenciaEntity.Ocorrencia) {
    o.tipoOcorrencia == n.tipoOcorrencia && o.data == n.data && o.descricao == n.descricao
    && o.incidentes == n.incidentes && o.propriedade.Some? == n.propriedade.Some?
    && o.fotos.Some? == n.fotos.Some?
    && (o.fotos.Some? ==>
          |o.fotos.value| == |n.fotos.value|
          && forall i :: 0 <= i < |o.fotos.value| ==>
               o.fotos.value[i].caminho == n.fotos.value[i].caminho
               && o.fotos.value[i].ocorrencia == n.fotos.value[i].ocorrencia)
  }

  /** The two entities refuse the same rows, except that the older column also
      refuses a description of 501 to 2000 UTF-16 units that the newer one takes. */
  lemma {:induction false} StorableMatchesNewer(o: Ocorrencia, n: OcorrenciaEntity.Ocorrencia)
    requires SameRow(o, n)
    ensures Storable(o) <==> OcorrenciaEntity.SaveError(n).None? && OcorrenciaEntity.FitsColumn(o.descricao, DESCRICAO_LENGTH)
    ensures OcorrenciaEntity.SaveError(n).None? && !Storable(o) ==>
              DESCRICAO_LENGTH < Utf16Length(o.descricao.value) <= OcorrenciaEntity.DESCRICAO_LENGTH
  {
  }
}
