/**
 * The seed-if-empty step both DataInitializer components repeat per table:
 * when the table has no rows, one row per listed name is saved.
 */
module Seeds {
  import opened Wrappers
  import opened Errors
  import opened Repositories

  /** The seeded rows: the i-th name under the i-th identifier the database
      hands out to an empty table. */
  function SeedTable(names: seq<string>): (t: map<Uuid, Lookup>)
    ensures forall k: Uuid :: k in t <==> k < |names|
    ensures forall k :: k in t ==> t[k] == Lookup(k, names[k])
  {
    map i | 0 <= i < |names| :: Lookup(i, names[i])
  }

  /** if (repo.count() == 0) repo.saveAll(names mapped to entities) */
  function Seeded(rows: map<Uuid, Lookup>, names: seq<string>): map<Uuid, Lookup> {
    if |rows| == 0 then SeedTable(names) else rows
  }

  /** No name is listed twice. */
  predicate Distinct(names: seq<string>) {
    forall i, j :: 0 <= i < j < |names| ==> names[i] != names[j]
  }

  /** The i-th name does not occur again later in the list. */
  predicate DistinctFrom(names: seq<string>, i: nat) {
    forall j :: i < j < |names| ==> names[i] != names[j]
  }

  /** Rows under their own key with unique names: what the entity's unique
      name column demands. */
  predicate UniqueNames(rows: map<Uuid, Lookup>) {
    KeysMatch(rows) && forall a, b :: a in rows && b in rows && rows[a].nome == rows[b].nome ==> a == b
  }

  /** The seeded table holds exactly the listed names, one row each, and
      satisfies the unique constraint when the list has no repeats. */
  lemma SeedTableContents(names: seq<string>)
    ensures |SeedTable(names)| == |names|
    ensures forall n :: n in names <==> exists k :: k in SeedTable(names) && SeedTable(names)[k].nome == n
    ensures Distinct(names) ==> UniqueNames(SeedTable(names))
  {
    var t := SeedTable(names);
    SeedTableSize(names);
    forall n ensures n in names <==> exists k :: k in t && t[k].nome == n {
      if n in names {
        var i :| 0 <= i < |names| && names[i] == n;
        assert i in t && t[i].nome == n;
      }
    }
  }

  lemma {:induction false} SeedTableSize(names: seq<string>)
    ensures |SeedTable(names)| == |names|
  {
    if names != [] {
      var n := |names| - 1;
      var init := names[..n];
      SeedTableSize(init);
      assert SeedTable(names) == SeedTable(init)[n := Lookup(n, names[n])];
      assert n !in SeedTable(init);
    }
  }

  /** Seeding twice is seeding once, and a table with rows is left alone. */
  lemma SeedIdempotent(rows: map<Uuid, Lookup>, names: seq<string>)
    ensures |rows| > 0 ==> Seeded(rows, names) == rows
    ensures Seeded(Seeded(rows, names), names) == Seeded(rows, names)
  {
    if |rows| == 0 && names != [] {
      assert 0 in SeedTable(names);
    }
  }

  /** Seeding a table with rows of its own never empties it; seeding an empty
      one with a non-empty list fills it. */
  lemma SeededNonEmpty(rows: map<Uuid, Lookup>, names: seq<string>)
    requires names != []
    ensures |Seeded(rows, names)| > 0
  {
    if |rows| == 0 {
      assert 0 in SeedTable(names);
    }
  }

  /** The guarded saveAll, row by row. */
  method SeedIfEmpty(repo: Repository<Lookup>, names: seq<string>)
    modifies repo
    ensures repo.rows == Seeded(old(repo.rows), names)
  {
    if |repo.rows| == 0 {
      var i := 0;
      assert repo.rows == SeedTable(names[..0]);
      while i < |names|
        invariant 0 <= i <= |names|
        invariant repo.rows == SeedTable(names[..i])
      {
        repo.Save(i, Lookup(i, names[i]));
        assert repo.rows == SeedTable(names[..i + 1]);
        i := i + 1;
      }
      assert names[..|names|] == names;
    }
  }
}

/** config/DataInitializer.java: seeds five reference tables and the root
    model's admin user, each only when its table is empty. */
module ConfigDataInitializer {
  import opened Wrappers
  import opened Errors
  import opened Repositories
  import opened Passwords
  import opened Seeds
  import RootUsuarioEntity

  const ATIVIDADES: seq<string> := [
    "Criação de bovinos", "Criação de búfalos", "Criação de equinos", "Criação de asininos",
    "Criação de muares", "Criação de suínos", "Criação de caprinos", "Criação de ovinos",
    "Criação de galinhas e similares", "Criação de codornas", "Criação de outras aves",
    "Criação de coelhos", "Criação de abelhas", "Criação de peixes, camarões e moluscos",
    "Criação de rãs", "Criação de bicho-da-seda", "Pesca", "Lavoura Temporária",
    "Lavoura Permanente", "Horticultura", "Extração Vegetal", "Floricultura",
    "Silvicultura e seus produtos", "Agroindústria Vegetal", "Agroindústria Animal",
    "Atividade de turismo rural", "Exploração mineral", "Atividades não agrícolas"]

  const VULNERABILIDADES: seq<string> := [
    "Área sujeitas a deslizamentos", "Área sujeitas a alagamento", "Área sujeita a secas",
    "Acesso por pontes sujeitas a inundações", "Acesso por estradas sujeitas a inundações"]

  const CIDADES: seq<string> := [
    "Agudo", "Cacequi", "Cachoeira do Sul", "Capão do Cipó", "Cerro Branco",
    "Dilermando de Aguiar", "Dona Francisca", "Faxinal do Soturno", "Itaara",
    "Ivorá", "Jaguari", "Júlio de Castilhos", "Mata", "Nova Esperança do Sul",
    "Nova Palma", "Novo Cabrais", "Paraíso do Sul", "Santa Maria", "Santiago",
    "São Francisco de Assis", "São João do Polêsine", "São Martinho da Serra",
    "São Sepé", "São Vicente do Sul", "Silveira Martins", "Unistalda"]

  const INCIDENTES: seq<string> := [
    "Perda de animais", "Perda de equipamentos", "Perda de fertilizantes",
    "Perda de lavoura", "Dano estrutural"]

  const TIPOS_OCORRENCIA: seq<string> := ["Alagamento", "Seca", "Tempestade", "Queimada"]

  const ADMIN_SENHA := "admin060504"

  /** The default administrator, with the encoded password. */
  function Admin(id: Uuid, encoder: PasswordEncoder): (u: RootUsuarioEntity.Usuario)
    ensures u.id == id && u.tipoUsuario == RootUsuarioEntity.ADMIN
    ensures u.nome == "ADMINISTRADOR" && u.email == "admin@email.com" && u.telefone == "00000000000"
    ensures u.senha == encoder.encode(ADMIN_SENHA)
  {
    RootUsuarioEntity.Usuario(id, "ADMINISTRADOR", "admin@email.com", "00000000000",
                              encoder.encode(ADMIN_SENHA), RootUsuarioEntity.ADMIN)
  }

  /** initAdminUser on a user table. */
  function WithAdmin(rows: map<Uuid, RootUsuarioEntity.Usuario>, id: Uuid, encoder: PasswordEncoder)
    : map<Uuid, RootUsuarioEntity.Usuario>
  {
    if |rows| == 0 then map[id := Admin(id, encoder)] else rows
  }

  /** The seed lists have the sizes the source lists and no repeated name, so
      seeding never trips a unique name column. */
  lemma SeedListSizes()
    ensures |ATIVIDADES| == 28 && |VULNERABILIDADES| == 5 && |CIDADES| == 26
    ensures |INCIDENTES| == 5 && |TIPOS_OCORRENCIA| == 4
  {
  }

  /** No later activity repeats the i-th one. */
  lemma AtividadeUnique(i: nat)
    requires i < |ATIVIDADES|
    ensures DistinctFrom(ATIVIDADES, i)
  {
  }

  lemma AtividadesDistinct()
    ensures Distinct(ATIVIDADES)
  {
    forall i | 0 <= i < |ATIVIDADES| ensures DistinctFrom(ATIVIDADES, i) {
      AtividadeUnique(i);
    }
  }

  /** No later city repeats the i-th one. */
  lemma CidadeUnique(i: nat)
    requires i < |CIDADES|
    ensures DistinctFrom(CIDADES, i)
  {
  }

  lemma CidadesDistinct()
    ensures Distinct(CIDADES)
  {
    forall i | 0 <= i < |CIDADES| ensures DistinctFrom(CIDADES, i) {
      CidadeUnique(i);
    }
  }

  lemma OthersDistinct()
    ensures Distinct(VULNERABILIDADES) && Distinct(INCIDENTES) && Distinct(TIPOS_OCORRENCIA)
  {
  }

  /** Every seeded table satisfies its unique name column, so no saveAll that
      init makes is refused by a unique constraint. */
  lemma SeedsRespectUniqueColumns()
    ensures UniqueNames(SeedTable(ATIVIDADES)) && UniqueNames(SeedTable(VULNERABILIDADES))
    ensures UniqueNames(SeedTable(CIDADES)) && UniqueNames(SeedTable(INCIDENTES))
    ensures UniqueNames(SeedTable(TIPOS_OCORRENCIA))
  {
    AtividadesDistinct();
    CidadesDistinct();
    OthersDistinct();
    SeedTableContents(ATIVIDADES);
    SeedTableContents(VULNERABILIDADES);
    SeedTableContents(CIDADES);
    SeedTableContents(INCIDENTES);
    SeedTableContents(TIPOS_OCORRENCIA);
  }

  /** After init every reference table has rows, so a second init saves
      nothing. */
  lemma InitLeavesTablesNonEmpty(at: map<Uuid, Lookup>, vu: map<Uuid, Lookup>, ci: map<Uuid, Lookup>,
                                 inc: map<Uuid, Lookup>, ti: map<Uuid, Lookup>)
    ensures |Seeded(at, ATIVIDADES)| > 0 && |Seeded(vu, VULNERABILIDADES)| > 0 && |Seeded(ci, CIDADES)| > 0
    ensures |Seeded(inc, INCIDENTES)| > 0 && |Seeded(ti, TIPOS_OCORRENCIA)| > 0
    ensures Seeded(Seeded(at, ATIVIDADES), ATIVIDADES) == Seeded(at, ATIVIDADES)
    ensures Seeded(Seeded(vu, VULNERABILIDADES), VULNERABILIDADES) == Seeded(vu, VULNERABILIDADES)
    ensures Seeded(Seeded(ci, CIDADES), CIDADES) == Seeded(ci, CIDADES)
    ensures Seeded(Seeded(inc, INCIDENTES), INCIDENTES) == Seeded(inc, INCIDENTES)
    ensures Seeded(Seeded(ti, TIPOS_OCORRENCIA), TIPOS_OCORRENCIA) == Seeded(ti, TIPOS_OCORRENCIA)
  {
    SeededNonEmpty(at, ATIVIDADES);
    SeededNonEmpty(vu, VULNERABILIDADES);
    SeededNonEmpty(ci, CIDADES);
    SeededNonEmpty(inc, INCIDENTES);
    SeededNonEmpty(ti, TIPOS_OCORRENCIA);
    SeedIdempotent(at, ATIVIDADES);
    SeedIdempotent(vu, VULNERABILIDADES);
    SeedIdempotent(ci, CIDADES);
    SeedIdempotent(inc, INCIDENTES);
    SeedIdempotent(ti, TIPOS_OCORRENCIA);
  }

  /** The admin row keeps the user table valid and is the only row. */
  lemma AdminRules(rows: map<Uuid, RootUsuarioEntity.Usuario>, id: Uuid, encoder: PasswordEncoder)
    requires RootUsuarioEntity.TableValid(rows)
    ensures RootUsuarioEntity.TableValid(WithAdmin(rows, id, encoder))
    ensures |rows| > 0 ==> WithAdmin(rows, id, encoder) == rows
    ensures |rows| == 0 ==> WithAdmin(rows, id, encoder).Keys == {id}
                            && WithAdmin(rows, id, encoder)[id].tipoUsuario == RootUsuarioEntity.ADMIN
    ensures |WithAdmin(rows, id, encoder)| > 0
    ensures WithAdmin(WithAdmin(rows, id, encoder), id, encoder) == WithAdmin(rows, id, encoder)
  {
    if |rows| == 0 {
      assert id in WithAdmin(rows, id, encoder);
    }
  }

  class DataInitializer {
    const atividadeRepo: Repository<Lookup>
    const vulnerabilidadeRepo: Repository<Lookup>
    const cidadeRepo: Repository<Lookup>
    const usuarioRepo: Repository<RootUsuarioEntity.Usuario>
    const incidenteRepo: Repository<Lookup>
    const tipoOcorrenciaRepo: Repository<Lookup>
    const passwordEncoder: PasswordEncoder

    /** The five lookup repositories are different tables. */
    predicate DistinctTables() {
      atividadeRepo != vulnerabilidadeRepo && atividadeRepo != cidadeRepo
      && atividadeRepo != incidenteRepo && atividadeRepo != tipoOcorrenciaRepo
      && vulnerabilidadeRepo != cidadeRepo && vulnerabilidadeRepo != incidenteRepo
      && vulnerabilidadeRepo != tipoOcorrenciaRepo && cidadeRepo != incidenteRepo
      && cidadeRepo != tipoOcorrenciaRepo && incidenteRepo != tipoOcorrenciaRepo
    }

    constructor (atividades: Repository<Lookup>, vulnerabilidades: Repository<Lookup>,
                 cidades: Repository<Lookup>, usuarios: Repository<RootUsuarioEntity.Usuario>,
                 incidentes: Repository<Lookup>, tipos: Repository<Lookup>, encoder: PasswordEncoder)
      ensures atividadeRepo == atividades && vulnerabilidadeRepo == vulnerabilidades
      ensures cidadeRepo == cidades && usuarioRepo == usuarios
      ensures incidenteRepo == incidentes && tipoOcorrenciaRepo == tipos
      ensures passwordEncoder == encoder
    {
      atividadeRepo := atividades;
      vulnerabilidadeRepo := vulnerabilidades;
      cidadeRepo := cidades;
      usuarioRepo := usuarios;
      incidenteRepo := incidentes;
      tipoOcorrenciaRepo := tipos;
      passwordEncoder := encoder;
    }

    /** initAdminUser: the admin is saved only into an empty user table. */
    method InitAdminUser(adminId: Uuid)
      modifies usuarioRepo
      ensures usuarioRepo.rows == WithAdmin(old(usuarioRepo.rows), adminId, passwordEncoder)
    {
      if |usuarioRepo.rows| == 0 {
        var admin := Admin(adminId, passwordEncoder);
        usuarioRepo.Save(adminId, admin);
      }
    }

    /** init: the six guarded steps in order; each table that already has
        rows is left as it was. */
    method Init(adminId: Uuid)
      requires DistinctTables()
      modifies atividadeRepo, vulnerabilidadeRepo, cidadeRepo, usuarioRepo, incidenteRepo, tipoOcorrenciaRepo
      ensures atividadeRepo.rows == Seeded(old(atividadeRepo.rows), ATIVIDADES)
      ensures vulnerabilidadeRepo.rows == Seeded(old(vulnerabilidadeRepo.rows), VULNERABILIDADES)
      ensures cidadeRepo.rows == Seeded(old(cidadeRepo.rows), CIDADES)
      ensures incidenteRepo.rows == Seeded(old(incidenteRepo.rows), INCIDENTES)
      ensures tipoOcorrenciaRepo.rows == Seeded(old(tipoOcorrenciaRepo.rows), TIPOS_OCORRENCIA)
      ensures usuarioRepo.rows == WithAdmin(old(usuarioRepo.rows), adminId, passwordEncoder)
    {
      SeedIfEmpty(atividadeRepo, ATIVIDADES);
      SeedIfEmpty(vulnerabilidadeRepo, VULNERABILIDADES);
      SeedIfEmpty(cidadeRepo, CIDADES);
      SeedIfEmpty(incidenteRepo, INCIDENTES);
      SeedIfEmpty(tipoOcorrenciaRepo, TIPOS_OCORRENCIA);
      InitAdminUser(adminId);
    }
  }
}

/** infra/initializer/DataInitializer.java: seeds activities, vulnerabilities,
    cities and the model/usuario admin user, each only when its table is
    empty; incidents and occurrence types are not seeded here. */
module InfraDataInitializer {
  import opened Wrappers
  import opened Errors
  import opened Repositories
  import opened Passwords
  import opened Seeds
  import UsuarioEntity
  import ModelAuthDtos
  import AuthService
  import InfraJwtUtil
  import ConfigDataInitializer

  /** The same three lists as the config initializer, in the same order. */
  const ATIVIDADES: seq<string> := ConfigDataInitializer.ATIVIDADES
  const VULNERABILIDADES: seq<string> := ConfigDataInitializer.VULNERABILIDADES
  const CIDADES: seq<string> := ConfigDataInitializer.CIDADES

  const ADMIN_EMAIL := "admin@email.com"
  const ADMIN_SENHA := "admin060504"

  function Admin(id: Uuid, encoder: PasswordEncoder): (u: UsuarioEntity.Usuario)
    ensures u.id == id && u.tipoUsuario == UsuarioEntity.ADMIN
    ensures u.nome == "ADMINISTRADOR" && u.email == ADMIN_EMAIL && u.telefone == "00000000000"
    ensures u.senha == encoder.encode(ADMIN_SENHA)
  {
    UsuarioEntity.Usuario(id, "ADMINISTRADOR", ADMIN_EMAIL, "00000000000",
                          encoder.encode(ADMIN_SENHA), UsuarioEntity.ADMIN)
  }

  function WithAdmin(rows: map<Uuid, UsuarioEntity.Usuario>, id: Uuid, encoder: PasswordEncoder)
    : map<Uuid, UsuarioEntity.Usuario>
  {
    if |rows| == 0 then map[id := Admin(id, encoder)] else rows
  }

  /** On a fresh database the seeded administrator can log in with the
      seeded password, and gets the ADMIN role in the response. */
  lemma AdminCanLogIn(id: Uuid, encoder: PasswordEncoder, jwt: InfraJwtUtil.JwtUtil, now: int)
    requires Consistent(encoder)
    ensures UsuarioEntity.TableValid(WithAdmin(map[], id, encoder))
    ensures var r := AuthService.Login(WithAdmin(map[], id, encoder),
                                       ModelAuthDtos.LoginRequest(Some(ADMIN_EMAIL), Some(ADMIN_SENHA)),
                                       encoder, jwt, now);
            r.Success? && r.value.usuarioId == id && r.value.tipoUsuario == "ADMIN"
  {
    var rows := WithAdmin(map[], id, encoder);
    assert rows == map[id := Admin(id, encoder)];
    assert UsuarioEntity.EmailInUse(rows, ADMIN_EMAIL) by {
      assert id in rows && rows[id].email == ADMIN_EMAIL;
    }
    var u := UsuarioEntity.FindByEmail(rows, ADMIN_EMAIL).value;
    assert u == rows[id];
    assert encoder.matches(ADMIN_SENHA, encoder.encode(ADMIN_SENHA));
  }

  /** A user table with rows is left alone, and init is idempotent on it. */
  lemma AdminRules(rows: map<Uuid, UsuarioEntity.Usuario>, id: Uuid, encoder: PasswordEncoder)
    requires UsuarioEntity.TableValid(rows)
    ensures UsuarioEntity.TableValid(WithAdmin(rows, id, encoder))
    ensures |rows| > 0 ==> WithAdmin(rows, id, encoder) == rows
    ensures |rows| == 0 ==> WithAdmin(rows, id, encoder).Keys == {id}
    ensures WithAdmin(WithAdmin(rows, id, encoder), id, encoder) == WithAdmin(rows, id, encoder)
  {
    if |rows| == 0 {
      assert id in WithAdmin(rows, id, encoder);
    }
  }

  class DataInitializer {
    const atividadeRepo: Repository<Lookup>
    const vulnerabilidadeRepo: Repository<Lookup>
    const cidadeRepo: Repository<Lookup>
    const usuarioRepo: Repository<UsuarioEntity.Usuario>
    const passwordEncoder: PasswordEncoder

    constructor (atividades: Repository<Lookup>, vulnerabilidades: Repository<Lookup>,
                 cidades: Repository<Lookup>, usuarios: Repository<UsuarioEntity.Usuario>,
                 encoder: PasswordEncoder)
      ensures atividadeRepo == atividades && vulnerabilidadeRepo == vulnerabilidades
      ensures cidadeRepo == cidades && usuarioRepo == usuarios && passwordEncoder == encoder
    {
      atividadeRepo := atividades;
      vulnerabilidadeRepo := vulnerabilidades;
      cidadeRepo := cidades;
      usuarioRepo := usuarios;
      passwordEncoder := encoder;
    }

    /** init: four guarded steps in order. */
    method Init(adminId: Uuid)
      requires atividadeRepo != vulnerabilidadeRepo && atividadeRepo != cidadeRepo
      requires vulnerabilidadeRepo != cidadeRepo
      modifies atividadeRepo, vulnerabilidadeRepo, cidadeRepo, usuarioRepo
      ensures atividadeRepo.rows == Seeded(old(atividadeRepo.rows), ATIVIDADES)
      ensures vulnerabilidadeRepo.rows == Seeded(old(vulnerabilidadeRepo.rows), VULNERABILIDADES)
      ensures cidadeRepo.rows == Seeded(old(cidadeRepo.rows), CIDADES)
      ensures usuarioRepo.rows == WithAdmin(old(usuarioRepo.rows), adminId, passwordEncoder)
    {
      SeedIfEmpty(atividadeRepo, ATIVIDADES);
      SeedIfEmpty(vulnerabilidadeRepo, VULNERABILIDADES);
      SeedIfEmpty(cidadeRepo, CIDADES);
      if |usuarioRepo.rows| == 0 {
        var admin := Admin(adminId, passwordEncoder);
        usuarioRepo.Save(adminId, admin);
      }
    }
  }
}
