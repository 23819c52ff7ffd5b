/**
 * Spring Data repositories: a table is a map from primary key to row. The
 * lookup entities (Atividade, Cidade, Incidente, TipoOcorrencia,
 * Vulnerabilidade) are an identifier and a name.
 */
module Repositories {
  import opened Wrappers
  import opened Errors

  class Repository<T> {
    var rows: map<Uuid, T>

    constructor (initial: map<Uuid, T>)
      ensures rows == initial
    {
      rows := initial;
    }

    /** save: inserts the row, or overwrites the row with the same key. */
    method Save(id: Uuid, entity: T)
      modifies this
      ensures rows == old(rows)[id := entity]
    {
      rows := rows[id := entity];
    }

    /** deleteById / delete: the row goes; a missing key is ignored. */
    method DeleteById(id: Uuid)
      modifies this
      ensures rows == old(rows) - {id}
    {
      rows := rows - {id};
    }
  }

  /** findById(id).orElseThrow(...) for a possibly null identifier. */
  function FindById<T>(rows: map<Uuid, T>, id: Option<Uuid>, notFound: Error): (r: Result<T, Error>)
    ensures r.Success? <==> id.Some? && id.value in rows
    ensures r.Success? ==> r.value == rows[id.value]
    ensures id.None? ==> r == Failure(IllegalArgument(NULL_ID_MESSAGE))
    ensures id.Some? && id.value !in rows ==> r == Failure(notFound)
  {
    if id.None? then Failure(IllegalArgument(NULL_ID_MESSAGE))
    else if id.value in rows then Success(rows[id.value])
    else Failure(notFound)
  }

  /** The order in which findAll returns rows: every key exactly once. */
  predicate IsEnumeration<T>(order: seq<Uuid>, rows: map<Uuid, T>) {
    (forall i :: 0 <= i < |order| ==> order[i] in rows)
    && (forall k :: k in rows ==> k in order)
    && (forall i, j :: 0 <= i < j < |order| ==> order[i] != order[j])
  }

  /** A listing built from findAll has one element per stored row. */
  lemma {:induction false} EnumerationSize<T>(order: seq<Uuid>, rows: map<Uuid, T>)
    requires IsEnumeration(order, rows)
    ensures |order| == |rows|
  {
    if order == [] {
      assert rows.Keys == {};
    } else {
      var k := order[0];
      var rest := rows - {k};
      assert rest.Keys == rows.Keys - {k};
      assert forall i :: 0 <= i < |order[1..]| ==> order[1..][i] == order[i + 1];
      forall x | x in rest ensures x in order[1..] {
        var i :| 0 <= i < |order| && order[i] == x;
        assert i != 0;
      }
      EnumerationSize(order[1..], rest);
    }
  }

  /** Maps identifiers to rows in order; the first identifier the table lacks
      stops the mapping and is reported. */
  function ResolveAll<T>(ids: seq<Uuid>, rows: map<Uuid, T>): (r: Result<seq<T>, Uuid>)
    ensures r.Success? <==> forall i :: 0 <= i < |ids| ==> ids[i] in rows
    ensures r.Success? ==>
              |r.value| == |ids| && forall i :: 0 <= i < |ids| ==> r.value[i] == rows[ids[i]]
    ensures r.Failure? ==>
              exists i :: (0 <= i < |ids| && ids[i] == r.error && ids[i] !in rows
                           && forall j :: 0 <= j < i ==> ids[j] in rows)
  {
    if ids == [] then Success([])
    else if ids[0] !in rows then Failure(ids[0])
    else
      match ResolveAll(ids[1..], rows)
      case Success(rest) => Success([rows[ids[0]]] + rest)
      case Failure(missing) =>
        ghost var i :| 0 <= i < |ids[1..]| && ids[1..][i] == missing && ids[1..][i] !in rows
          && forall j :: 0 <= j < i ==> ids[1..][j] in rows;
        assert ids[i + 1] == missing && forall j :: 0 <= j < i + 1 ==> ids[j] in rows;
        Failure(missing)
  }

  /** An identifier and a name: the shape of every lookup entity. */
  datatype Lookup = Lookup(id: Uuid, nome: string)

  /** LookupDTO and BuscaDTO. */
  datatype LookupDto = LookupDto(id: Uuid, nome: string)

  function ToLookupDto(e: Lookup): LookupDto {
    LookupDto(e.id, e.nome)
  }

  /** Each row is stored under its own identifier. */
  predicate KeysMatch(rows: map<Uuid, Lookup>) {
    forall k :: k in rows ==> rows[k].id == k
  }

  /** The table lists every row in findAll order, as (id, nome) pairs. */
  function ListAll(rows: map<Uuid, Lookup>, order: seq<Uuid>): (r: seq<LookupDto>)
    requires IsEnumeration(order, rows)
    requires KeysMatch(rows)
    ensures |r| == |rows|
    ensures forall i :: 0 <= i < |r| ==> r[i].id in rows && r[i].nome == rows[r[i].id].nome
    ensures forall k :: k in rows ==> LookupDto(k, rows[k].nome) in r
    ensures forall i, j :: 0 <= i < j < |r| ==> r[i].id != r[j].id
  {
    EnumerationSize(order, rows);
    var r := seq(|order|, i requires 0 <= i < |order| => ToLookupDto(rows[order[i]]));
    assert forall k :: k in rows ==> LookupDto(k, rows[k].nome) in r by {
      forall k | k in rows ensures LookupDto(k, rows[k].nome) in r {
        var i :| 0 <= i < |order| && order[i] == k;
        assert r[i] == LookupDto(k, rows[k].nome);
      }
    }
    r
  }
}
