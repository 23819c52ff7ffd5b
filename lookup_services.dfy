/**
 * service/IncidenteService.java: the incident lookup table, which users may
 * extend and shrink.
 */
module IncidenteService {
  import opened Wrappers
  import opened Errors
  import opened Constraints
  import opened Repositories

  const NOT_FOUND := "Incidente não encontrado com ID: "

  /** BuscaDTO: the request body of salvar; its id is never read. */
  datatype BuscaDto = BuscaDto(id: Option<Uuid>, nome: Option<string>)

  /** The incident table: rows under their own id, names unique (the unique column). */
  predicate RowsValid(rows: map<Uuid, Lookup>) {
    KeysMatch(rows) && forall a, b :: a in rows && b in rows && rows[a].nome == rows[b].nome ==> a == b
  }

  /** buscarEntidadePorId */
  function BuscarEntidadePorId(rows: map<Uuid, Lookup>, id: Uuid): (r: Result<Lookup, Error>)
    ensures r.Success? <==> id in rows
    ensures r.Success? ==> r.value == rows[id]
    ensures r.Failure? ==> r.error == EntityNotFound(NOT_FOUND, Some(id))
  {
    FindById(rows, Some(id), EntityNotFound(NOT_FOUND, Some(id)))
  }

  /** buscarDtoPorId: the stored (id, nome) pair. */
  function BuscarDtoPorId(rows: map<Uuid, Lookup>, id: Uuid): (r: Result<LookupDto, Error>)
    requires KeysMatch(rows)
    ensures r.Success? <==> id in rows
    ensures r.Success? ==> r.value == LookupDto(id, rows[id].nome)
    ensures r.Failure? ==> r.error == EntityNotFound(NOT_FOUND, Some(id))
  {
    var e :- BuscarEntidadePorId(rows, id);
    Success(ToLookupDto(e))
  }

  /** listarTodos */
  function ListarTodos(rows: map<Uuid, Lookup>, order: seq<Uuid>): (r: seq<LookupDto>)
    requires IsEnumeration(order, rows) && KeysMatch(rows)
    ensures |r| == |rows|
    ensures forall k :: k in rows ==> LookupDto(k, rows[k].nome) in r
    ensures forall i :: 0 <= i < |r| ==> r[i].id in rows && r[i].nome == rows[r[i].id].nome
  {
    ListAll(rows, order)
  }

  class IncidenteService {
    const incidenteRepository: Repository<Lookup>

    constructor (repo: Repository<Lookup>)
      ensures incidenteRepository == repo
    {
      incidenteRepository := repo;
    }

    /** salvar: a new incident with the request's name under a fresh id, whatever
        id the request carries; a blank name is refused by validation and a name
        already stored by the unique column, and then nothing is stored. */
    method Salvar(dto: BuscaDto, novoId: Uuid) returns (r: Result<LookupDto, Error>)
      requires RowsValid(incidenteRepository.rows)
      requires novoId !in incidenteRepository.rows
      modifies incidenteRepository
      ensures RowsValid(incidenteRepository.rows)
      ensures !NotBlank(dto.nome) ==>
                r == Failure(ConstraintViolation("nome")) && incidenteRepository.rows == old(incidenteRepository.rows)
      ensures NotBlank(dto.nome) && (exists k :: k in old(incidenteRepository.rows) && old(incidenteRepository.rows)[k].nome == dto.nome.value) ==>
                r == Failure(DataIntegrityViolation("nome")) && incidenteRepository.rows == old(incidenteRepository.rows)
      ensures r.Success? ==>
                r.value == LookupDto(novoId, dto.nome.value)
                && incidenteRepository.rows == old(incidenteRepository.rows)[novoId := Lookup(novoId, dto.nome.value)]
      ensures r.Success? <==>
                NotBlank(dto.nome) && !exists k :: k in old(incidenteRepository.rows) && old(incidenteRepository.rows)[k].nome == dto.nome.value
    {
      if !NotBlank(dto.nome) {
        return Failure(ConstraintViolation("nome"));
      }
      var nome := dto.nome.value;
      if exists k :: k in incidenteRepository.rows && incidenteRepository.rows[k].nome == nome {
        return Failure(DataIntegrityViolation("nome"));
      }
      var incidente := Lookup(novoId, nome);
      incidenteRepository.Save(novoId, incidente);
      r := Success(ToLookupDto(incidente));
    }

    /** excluir: not-found for an absent id; otherwise exactly that row goes. */
    method Excluir(id: Uuid) returns (r: Result<(), Error>)
      requires RowsValid(incidenteRepository.rows)
      modifies incidenteRepository
      ensures RowsValid(incidenteRepository.rows)
      ensures r.Success? <==> id in old(incidenteRepository.rows)
      ensures r.Failure? ==>
                r.error == EntityNotFound(NOT_FOUND, Some(id)) && incidenteRepository.rows == old(incidenteRepository.rows)
      ensures r.Success? ==> incidenteRepository.rows == old(incidenteRepository.rows) - {id}
    {
      if id !in incidenteRepository.rows {
        return Failure(EntityNotFound(NOT_FOUND, Some(id)));
      }
      incidenteRepository.DeleteById(id);
      r := Success(());
    }
  }
}

/**
 * service/VulnerabilidadeService.java: the vulnerability lookup table, listed
 * in order of name.
 */
module VulnerabilidadeService {
  import opened Wrappers
  import opened Errors
  import opened Repositories

  const NOT_FOUND := "Vulnerabilidade não encontrada com ID: "

  /** a <= b in code-point order: the shorter string first when it is a prefix,
      otherwise the smaller code point at the first difference. */
  predicate NomeLe(a: string, b: string)
    decreases |a|
  {
    a == [] || (b != [] && (a[0] < b[0] || (a[0] == b[0] && NomeLe(a[1..], b[1..]))))
  }

  lemma {:induction false} NomeLeTotal(a: string, b: string)
    ensures NomeLe(a, b) || NomeLe(b, a)
    decreases |a|
  {
    if a != [] && b != [] && a[0] == b[0] {
      NomeLeTotal(a[1..], b[1..]);
    }
  }

  lemma {:induction false} NomeLeTrans(a: string, b: string, c: string)
    requires NomeLe(a, b) && NomeLe(b, c)
    ensures NomeLe(a, c)
    decreases |a|
  {
    if a != [] && b != [] && c != [] && a[0] == b[0] && b[0] == c[0] {
      NomeLeTrans(a[1..], b[1..], c[1..]);
    }
  }

  /** Ascending by name. */
  predicate Sorted(s: seq<LookupDto>) {
    forall i, j :: 0 <= i < j < |s| ==> NomeLe(s[i].nome, s[j].nome)
  }

  /** Places x in front of the first element it does not come after. */
  function Insert(x: LookupDto, s: seq<LookupDto>): (r: seq<LookupDto>)
    ensures multiset(r) == multiset(s) + multiset{x}
    decreases |s|
  {
    if s == [] then [x]
    else if NomeLe(x.nome, s[0].nome) then [x] + s
    else
      assert s == [s[0]] + s[1..];
      [s[0]] + Insert(x, s[1..])
  }

  /** A head no greater than any element of a sorted tail keeps it sorted. */
  lemma ConsSorted(h: LookupDto, t: seq<LookupDto>)
    requires Sorted(t)
    requires forall j :: 0 <= j < |t| ==> NomeLe(h.nome, t[j].nome)
    ensures Sorted([h] + t)
  {
    var s := [h] + t;
    forall i, j | 0 <= i < j < |s| ensures NomeLe(s[i].nome, s[j].nome) {
      if i == 0 {
        assert s[j] == t[j - 1];
      } else {
        assert s[i] == t[i - 1] && s[j] == t[j - 1];
      }
    }
  }

  /** Inserting into a sorted sequence keeps it sorted. */
  lemma {:induction false} InsertSorted(x: LookupDto, s: seq<LookupDto>)
    requires Sorted(s)
    ensures Sorted(Insert(x, s))
    decreases |s|
  {
    if s == [] {
    } else if NomeLe(x.nome, s[0].nome) {
      forall j | 0 <= j < |s| ensures NomeLe(x.nome, s[j].nome) {
        if j > 0 { NomeLeTrans(x.nome, s[0].nome, s[j].nome); }
      }
      ConsSorted(x, s);
    } else {
      var tail := s[1..];
      assert Sorted(tail) by {
        forall i, j | 0 <= i < j < |tail| ensures NomeLe(tail[i].nome, tail[j].nome) {
          assert tail[i] == s[i + 1] && tail[j] == s[j + 1];
        }
      }
      var rest := Insert(x, tail);
      InsertSorted(x, tail);
      NomeLeTotal(x.nome, s[0].nome);
      forall j | 0 <= j < |rest| ensures NomeLe(s[0].nome, rest[j].nome) {
        assert rest[j] in multiset(rest);
        if rest[j] != x {
          assert rest[j] in multiset(tail);
          var k :| 0 <= k < |tail| && tail[k] == rest[j];
          assert s[k + 1] == rest[j];
        }
      }
      ConsSorted(s[0], rest);
    }
  }

  /** Insertion sort by name. */
  function SortByNome(s: seq<LookupDto>): (r: seq<LookupDto>)
    ensures multiset(r) == multiset(s)
  {
    if s == [] then []
    else
      assert s == [s[0]] + s[1..];
      Insert(s[0], SortByNome(s[1..]))
  }

  lemma {:induction false} SortByNomeSorted(s: seq<LookupDto>)
    ensures Sorted(SortByNome(s))
  {
    if s != [] {
      SortByNomeSorted(s[1..]);
      InsertSorted(s[0], SortByNome(s[1..]));
    }
  }

  /** listarTodas: findAll(Sort.by("nome")) mapped to (id, nome): every stored
      vulnerability once, in ascending order of name. */
  function ListarTodas(rows: map<Uuid, Lookup>, order: seq<Uuid>): (r: seq<LookupDto>)
    requires IsEnumeration(order, rows) && KeysMatch(rows)
    ensures |r| == |rows|
    ensures Sorted(r)
    ensures forall k :: k in rows ==> LookupDto(k, rows[k].nome) in r
    ensures forall i :: 0 <= i < |r| ==> r[i].id in rows && r[i].nome == rows[r[i].id].nome
  {
    var all := ListAll(rows, order);
    var r := SortByNome(all);
    SortByNomeSorted(all);
    SameElements(r, all);
    assert forall i :: 0 <= i < |r| ==> r[i].id in rows && r[i].nome == rows[r[i].id].nome by {
      forall i | 0 <= i < |r| ensures r[i].id in rows && r[i].nome == rows[r[i].id].nome {
        assert r[i] in all;
        var j :| 0 <= j < |all| && all[j] == r[i];
      }
    }
    r
  }

  /** Sequences with the same multiset have the same length and members. */
  lemma SameElements(a: seq<LookupDto>, b: seq<LookupDto>)
    requires multiset(a) == multiset(b)
    ensures |a| == |b|
    ensures forall d :: d in a <==> d in b
  {
    assert |a| == |multiset(a)|;
    assert |b| == |multiset(b)|;
    forall d ensures d in a <==> d in b {
      assert d in a <==> d in multiset(a);
      assert d in b <==> d in multiset(b);
    }
  }

  /** buscarPorId */
  function BuscarPorId(rows: map<Uuid, Lookup>, id: Uuid): (r: Result<Lookup, Error>)
    ensures r.Success? <==> id in rows
    ensures r.Success? ==> r.value == rows[id]
    ensures r.Failure? ==> r.error == EntityNotFound(NOT_FOUND, Some(id))
  {
    FindById(rows, Some(id), EntityNotFound(NOT_FOUND, Some(id)))
  }

  /** toDto */
  function ToDto(v: Lookup): (d: LookupDto)
    ensures d.id == v.id && d.nome == v.nome
  {
    ToLookupDto(v)
  }
}
