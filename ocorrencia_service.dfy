/**
 * service/OcorrenciaService.java: creating an occurrence from a request and a
 * list of uploaded photos, and deleting one. The photo bytes go to files under
 * uploads/; the generated UUIDs are an input, uuid(i) being the text of the
 * i-th one the loop draws.
 */
module OcorrenciaService {
  import opened Wrappers
  import opened Errors
  import opened Repositories
  import opened Paths
  import opened FileStore
  import opened PropriedadeEntity
  import opened OcorrenciaEntity
  import opened ModelOcorrenciaDto

  const PROPRIEDADE_NOT_FOUND := "Propriedade não encontrada"
  const TIPO_NOT_FOUND := "Tipo de ocorrência não encontrado"
  const INCIDENTE_NOT_FOUND := "Incidente não encontrado: "

  /** A MultipartFile: the client's file name (possibly null), its bytes, and
      whether transferTo throws an IOException for it. */
  datatype Upload = Upload(originalFilename: Option<string>, content: Bytes, transferFails: bool)

  /** String concatenation renders null as "null". */
  function StringValueOf(s: Option<string>): (r: string)
    ensures s.Some? ==> r == s.value
    ensures s.None? ==> r == "null"
  {
    if s.None? then "null" else s.value
  }

  /** UUID.toString(): 36 characters, hexadecimal digits and dashes. */
  predicate UuidText(s: string) {
    |s| == 36 && forall i :: 0 <= i < |s| ==> s[i] in "0123456789abcdef-"
  }

  /** The stored name of the i-th upload: its UUID, "_", and the client's name. */
  function NomeArquivo(uuid: nat -> string, i: nat, a: Upload): string {
    uuid(i) + "_" + StringValueOf(a.originalFilename)
  }

  /** The stored name splits back into the UUID, the "_" and the client's name
      as string concatenation renders it. */
  lemma StoredNameParts(uuid: nat -> string, i: nat, a: Upload)
    ensures var name := NomeArquivo(uuid, i, a);
      |name| == |uuid(i)| + 1 + |StringValueOf(a.originalFilename)|
      && name[..|uuid(i)|] == uuid(i) && name[|uuid(i)|] == '_'
      && name[|uuid(i)| + 1..] == StringValueOf(a.originalFilename)
  {
  }

  /** The file map after the first n uploads were written, in order, each at its
      normalised destination. */
  function Gravados(files: map<FsPath, StoredFile>, arquivos: seq<Upload>, uuid: nat -> string, n: nat): map<FsPath, StoredFile>
    requires n <= |arquivos|
  {
    if n == 0 then files
    else Gravados(files, arquivos, uuid, n - 1)[Local(uuid, n - 1, arquivos[n - 1]) := StoredFile(arquivos[n - 1].content, true)]
  }

  /** The photo records of the first n uploads, all pointing at occurrence ocId. */
  function Fotos(arquivos: seq<Upload>, uuid: nat -> string, n: nat, ocId: Uuid): (r: seq<FotoOcorrencia>)
    requires n <= |arquivos|
    ensures |r| == n
    ensures forall i :: 0 <= i < n ==>
              r[i].nome == arquivos[i].originalFilename && r[i].caminho == Some(NomeArquivo(uuid, i, arquivos[i]))
              && r[i].ocorrencia == Some(ocId)
  {
    seq(n, i requires 0 <= i < n => FotoOcorrencia(arquivos[i].originalFilename, Some(NomeArquivo(uuid, i, arquivos[i])), Some(ocId)))
  }

  /** One more upload adds its photo record at the end. */
  lemma FotosStep(arquivos: seq<Upload>, uuid: nat -> string, n: nat, ocId: Uuid)
    requires n < |arquivos|
    ensures Fotos(arquivos, uuid, n + 1, ocId)
            == Fotos(arquivos, uuid, n, ocId)
               + [FotoOcorrencia(arquivos[n].originalFilename, Some(NomeArquivo(uuid, n, arquivos[n])), Some(ocId))]
  {
  }

  /** Whether uploads/ was created by the process once step 3 has run
      `if (!Files.exists(pastaUpload)) Files.createDirectories(pastaUpload)`:
      it was created before, or nothing was there and it is created now. A
      regular file named uploads exists, so it stays a file. */
  function PastaApos(files: map<FsPath, StoredFile>, uploadsExists: bool): bool {
    uploadsExists || !Exists(files, uploadsExists, UPLOADS)
  }

  /** On a disk a real file system can be in, uploads/ is a directory once the
      check-and-create has run exactly when no regular file is called uploads. */
  lemma UploadsReadyUnlessFile(d: Disk)
    requires Consistent(d)
    ensures IsDirectory(d.files, PastaApos(d.files, d.uploadsExists), UPLOADS) <==> UPLOADS !in d.files
  {
    if UPLOADS in d.files {
      assert !d.uploadsExists;
      assert forall q :: q in d.files ==> !Below(q, UPLOADS);
    }
  }

  /** transferTo succeeds for the i-th upload on the given files, pasta telling
      whether uploads/ was created: it does not throw on its own and its
      destination can be opened. */
  predicate Transfere(files: map<FsPath, StoredFile>, pasta: bool, uuid: nat -> string, i: nat, a: Upload) {
    !a.transferFails && Writable(files, pasta, Destino(uuid, i, a))
  }

  /** The i-th transfer succeeds once the ones before it were written. */
  predicate Passa(files: map<FsPath, StoredFile>, pasta: bool, arquivos: seq<Upload>, uuid: nat -> string, j: nat)
    requires j < |arquivos|
  {
    Transfere(Gravados(files, arquivos, uuid, j), pasta, uuid, j, arquivos[j])
  }

  /** The outcome of each transfer, once the ones before it were written. */
  function Resultados(files: map<FsPath, StoredFile>, pasta: bool, arquivos: seq<Upload>, uuid: nat -> string): (b: seq<bool>)
    ensures |b| == |arquivos|
    ensures forall j :: 0 <= j < |b| ==> b[j] == Passa(files, pasta, arquivos, uuid, j)
  {
    seq(|arquivos|, j requires 0 <= j < |arquivos| => Passa(files, pasta, arquivos, uuid, j))
  }

  /** The first false entry from the i-th on: every entry before it is true, and
      there is none only when all of them are. */
  function PrimeiroFalso(b: seq<bool>, i: nat): (r: Option<nat>)
    requires i <= |b|
    ensures r.Some? ==> i <= r.value < |b| && !b[r.value] && forall j :: i <= j < r.value ==> b[j]
    ensures r.None? ==> forall j :: i <= j < |b| ==> b[j]
    decreases |b| - i
  {
    if i == |b| then None
    else if !b[i] then Some(i)
    else PrimeiroFalso(b, i + 1)
  }

  /** A false entry at i after true ones from s is the first false one from s. */
  lemma {:induction false} PrimeiroFalsoAt(b: seq<bool>, s: nat, i: nat)
    requires s <= i < |b| && !b[i]
    requires forall j :: s <= j < i ==> b[j]
    ensures PrimeiroFalso(b, s) == Some(i)
    decreases i - s
  {
    if s < i {
      PrimeiroFalsoAt(b, s + 1, i);
    }
  }

  /** With every entry from s on true, there is no false one. */
  lemma {:induction false} PrimeiroFalsoNone(b: seq<bool>, s: nat)
    requires s <= |b|
    requires forall j :: s <= j < |b| ==> b[j]
    ensures PrimeiroFalso(b, s) == None
    decreases |b| - s
  {
    if s < |b| {
      PrimeiroFalsoNone(b, s + 1);
    }
  }

  /** The first upload whose transfer throws, if any. */
  function PrimeiraFalha(files: map<FsPath, StoredFile>, pasta: bool, arquivos: seq<Upload>, uuid: nat -> string): (r: Option<nat>)
    ensures r.Some? ==>
              r.value < |arquivos| && !Passa(files, pasta, arquivos, uuid, r.value) && NoneFails(files, pasta, arquivos, uuid, r.value)
    ensures r.None? ==> NoneFails(files, pasta, arquivos, uuid, |arquivos|)
  {
    PrimeiroFalso(Resultados(files, pasta, arquivos, uuid), 0)
  }

  /** None of the first n transfers throws. */
  predicate NoneFails(files: map<FsPath, StoredFile>, pasta: bool, arquivos: seq<Upload>, uuid: nat -> string, n: nat)
    requires n <= |arquivos|
  {
    forall j :: 0 <= j < n ==> Passa(files, pasta, arquivos, uuid, j)
  }

  /** An upload that throws after a run of ones that did not is the first failure. */
  lemma PrimeiraFalhaAt(files: map<FsPath, StoredFile>, pasta: bool, arquivos: seq<Upload>, uuid: nat -> string, i: nat)
    requires i < |arquivos| && !Passa(files, pasta, arquivos, uuid, i)
    requires NoneFails(files, pasta, arquivos, uuid, i)
    ensures PrimeiraFalha(files, pasta, arquivos, uuid) == Some(i)
  {
  }

  /** Uploads none of which throws have no first failure. */
  lemma PrimeiraFalhaNone(files: map<FsPath, StoredFile>, pasta: bool, arquivos: seq<Upload>, uuid: nat -> string)
    requires NoneFails(files, pasta, arquivos, uuid, |arquivos|)
    ensures PrimeiraFalha(files, pasta, arquivos, uuid) == None
  {
  }

  /** Step 1 of salvar: the property, then the type, then every listed incident
      in order; a null or empty incident list gives no incidents. */
  function Referencias(dto: OcorrenciaDto, propriedades: map<Uuid, Propriedade>, tipos: map<Uuid, Lookup>,
                       incidentes: map<Uuid, Lookup>): (r: Result<(Propriedade, Lookup, seq<Lookup>), Error>)
    ensures r.Success? <==>
              dto.propriedadeId.Some? && dto.propriedadeId.value in propriedades
              && dto.tipoOcorrenciaId.Some? && dto.tipoOcorrenciaId.value in tipos
              && (dto.incidentes.Some? ==> forall i :: 0 <= i < |dto.incidentes.value| ==> dto.incidentes.value[i] in incidentes)
    ensures r.Success? ==>
              r.value.0 == propriedades[dto.propriedadeId.value] && r.value.1 == tipos[dto.tipoOcorrenciaId.value]
              && (dto.incidentes.None? ==> r.value.2 == [])
              && (dto.incidentes.Some? ==>
                    |r.value.2| == |dto.incidentes.value|
                    && forall i :: 0 <= i < |dto.incidentes.value| ==> r.value.2[i] == incidentes[dto.incidentes.value[i]])
    ensures dto.propriedadeId.Some? && dto.propriedadeId.value !in propriedades ==>
              r == Failure(EntityNotFound(PROPRIEDADE_NOT_FOUND, None))
    ensures dto.propriedadeId.Some? && dto.propriedadeId.value in propriedades
            && dto.tipoOcorrenciaId.Some? && dto.tipoOcorrenciaId.value !in tipos ==>
              r == Failure(Runtime(TIPO_NOT_FOUND, None))
    ensures r.Failure? && r.error.Runtime? && r.error.id.Some? ==>
              r.error.message == INCIDENTE_NOT_FOUND && dto.incidentes.Some? && r.error.id.value in dto.incidentes.value
              && r.error.id.value !in incidentes
  {
    var propriedade :- FindById(propriedades, dto.propriedadeId, EntityNotFound(PROPRIEDADE_NOT_FOUND, None));
    var tipo :- FindById(tipos, dto.tipoOcorrenciaId, Runtime(TIPO_NOT_FOUND, None));
    if dto.incidentes.None? || dto.incidentes.value == [] then Success((propriedade, tipo, []))
    else
      match ResolveAll(dto.incidentes.value, incidentes)
      case Success(lista) => Success((propriedade, tipo, lista))
      case Failure(id) => Failure(Runtime(INCIDENTE_NOT_FOUND, Some(id)))
  }

  /** DtoParaEntidade: property, type, incidents, date and description straight
      from its inputs, no photos and no id yet. */
  function DtoParaEntidade(dto: OcorrenciaDto, propriedade: Propriedade, tipo: Lookup, incidentes: seq<Lookup>): (o: Ocorrencia)
    ensures o.id.None? && o.fotos.None?
    ensures o.propriedade == Some(propriedade) && o.tipoOcorrencia == Some(tipo) && o.incidentes == Some(incidentes)
    ensures o.data == dto.data && o.descricao == dto.descricao
  {
    OcorrenciaEntity.Nova.(propriedade := Some(propriedade), tipoOcorrencia := Some(tipo), incidentes := Some(incidentes),
          data := dto.data, descricao := dto.descricao)
  }

  /** The outcome of ocorrenciaRepository.save(o) for a new occurrence given id novoId. */
  predicate Persisted(before: map<Uuid, Ocorrencia>, after: map<Uuid, Ocorrencia>, o: Ocorrencia, novoId: Uuid,
                      r: Result<Ocorrencia, Error>)
  {
    if SaveError(o).Some? then r == Failure(SaveError(o).value) && after == before
    else r == Success(o.(id := Some(novoId))) && after == before[novoId := o.(id := Some(novoId))]
  }

  /** Two different draws give different stored names, whatever the clients
      called their files, as long as the UUIDs differ. */
  lemma StoredNamesDistinct(uuid: nat -> string, arquivos: seq<Upload>, i: nat, j: nat)
    requires i < |arquivos| && j < |arquivos| && i != j
    requires UuidText(uuid(i)) && UuidText(uuid(j)) && uuid(i) != uuid(j)
    ensures NomeArquivo(uuid, i, arquivos[i]) != NomeArquivo(uuid, j, arquivos[j])
  {
    var a, b := NomeArquivo(uuid, i, arquivos[i]), NomeArquivo(uuid, j, arquivos[j]);
    assert a[..36] == uuid(i);
    assert b[..36] == uuid(j);
  }

  /** The UUID and the "_" after it hold no '/'. */
  lemma {:induction false} NamePrefixPlain(uuid: nat -> string, i: nat, a: Upload)
    requires UuidText(uuid(i))
    ensures var name := NomeArquivo(uuid, i, a);
      |name| > 36 && (forall k :: 0 <= k <= 36 ==> name[k] != '/') && name[36] == '_'
  {
    var name := NomeArquivo(uuid, i, a);
    forall k | 0 <= k < 36 ensures name[k] != '/' {
      assert name[k] == uuid(i)[k];
      assert uuid(i)[k] in "0123456789abcdef-";
    }
  }

  /** A client name without '/' gives a stored name without '/'. */
  lemma {:induction false} PlainStoredName(uuid: nat -> string, i: nat, a: Upload)
    requires UuidText(uuid(i))
    requires '/' !in StringValueOf(a.originalFilename)
    ensures var name := NomeArquivo(uuid, i, a); '/' !in name && |name| > 2
  {
    var name := NomeArquivo(uuid, i, a);
    NamePrefixPlain(uuid, i, a);
    forall k | 0 <= k < |name| ensures name[k] != '/' {
      if k > 36 {
        assert name[k] == StringValueOf(a.originalFilename)[k - 37];
      }
    }
  }

  /** A stored name without '/' from the client lands directly in uploads/. */
  lemma StoredNameInUploads(uuid: nat -> string, i: nat, a: Upload)
    requires UuidText(uuid(i))
    requires '/' !in StringValueOf(a.originalFilename)
    ensures Local(uuid, i, a) == FsPath(false, ["uploads", NomeArquivo(uuid, i, a)])
    ensures Destino(uuid, i, a) == FsPath(false, ["uploads", NomeArquivo(uuid, i, a)])
  {
    var name := NomeArquivo(uuid, i, a);
    PlainStoredName(uuid, i, a);
    PlainNameStaysInUploads(name);
    assert name[0] in name;
    NamesOfSingleName(name);
  }

  /** With a plain client name, and nothing already below its destination, a
      transfer that does not throw on its own succeeds exactly when uploads/ is
      a directory; a regular file named uploads makes it throw. */
  lemma SafeNameTransfers(files: map<FsPath, StoredFile>, pasta: bool, uuid: nat -> string, i: nat, a: Upload)
    requires UuidText(uuid(i)) && '/' !in StringValueOf(a.originalFilename) && !a.transferFails
    requires forall q :: q in files ==> !Below(q, Local(uuid, i, a))
    ensures Transfere(files, pasta, uuid, i, a) <==> IsDirectory(files, pasta, UPLOADS)
  {
    StoredNameInUploads(uuid, i, a);
    var d := Destino(uuid, i, a);
    assert d.names[..1] == ["uploads"];
    assert Normalize(FsPath(false, ["uploads"])) == UPLOADS by {
      assert NormalizeFrom(false, [], ["uploads"]) == NormalizeFrom(false, ["uploads"], []);
    }
    assert FsPath(d.absolute, d.names[..1]) == FsPath(false, ["uploads"]);
    assert Walkable(files, pasta, d) <==> IsDirectory(files, pasta, UPLOADS);
  }

  /** A client name with a '/' inside, such as "a/b.jpg" or "/../../x", makes
      the stored name a path below uploads/<uuid>_<prefix>; that directory does
      not exist for a fresh UUID, so the transfer throws. */
  lemma SlashedNameFails(files: map<FsPath, StoredFile>, pasta: bool, uuid: nat -> string, i: nat, a: Upload)
    requires UuidText(uuid(i))
    requires |Names(NomeArquivo(uuid, i, a))| >= 2
    requires forall q :: q in files ==> !Below(q, FsPath(false, ["uploads", Names(NomeArquivo(uuid, i, a))[0]]))
    ensures !Transfere(files, pasta, uuid, i, a)
  {
    var name := NomeArquivo(uuid, i, a);
    NamePrefixPlain(uuid, i, a);
    var n := NameLength(name);
    assert n > 36;
    var c0 := Names(name)[0];
    assert c0 == name[..n];
    assert |c0| > 2;
    var d := Destino(uuid, i, a);
    assert d == FsPath(false, ["uploads"] + Names(name));
    var dir := FsPath(false, d.names[..2]);
    assert dir.names == ["uploads", c0];
    assert Normalize(dir) == dir by {
      assert IsNormal(false, ["uploads", c0]);
      assert [] + ["uploads", c0] == ["uploads", c0];
      NormalizeFromNormal(false, [], ["uploads", c0]);
    }
    assert !IsDirectory(files, pasta, dir);
  }

  /** The path transferTo is given for the i-th upload: uploads/<stored name>,
      resolved but not normalised. Since the stored name starts with the UUID,
      it is never absolute, so its elements follow "uploads" as they are, ".."
      and "." included. */
  function Destino(uuid: nat -> string, i: nat, a: Upload): (r: FsPath)
    ensures UuidText(uuid(i)) ==>
              !r.absolute && r.names == ["uploads"] + Names(NomeArquivo(uuid, i, a)) && |r.names| >= 2
  {
    if UuidText(uuid(i)) then NamePrefixPlain(uuid, i, a); Resolve(UPLOADS, NomeArquivo(uuid, i, a))
    else Resolve(UPLOADS, NomeArquivo(uuid, i, a))
  }

  /** Where the bytes of the i-th upload land when its transfer succeeds. */
  function Local(uuid: nat -> string, i: nat, a: Upload): FsPath {
    UploadPath(NomeArquivo(uuid, i, a))
  }

  /** The conditions under which uploads cannot collide: distinct UUIDs and no
      '/' in the client's file names. */
  predicate SafeNames(arquivos: seq<Upload>, uuid: nat -> string, n: nat)
    requires n <= |arquivos|
  {
    (forall i :: 0 <= i < n ==> UuidText(uuid(i)) && '/' !in StringValueOf(arquivos[i].originalFilename))
    && forall i, j :: 0 <= i < j < n ==> uuid(i) != uuid(j)
  }

  /** Under safe names, different uploads are written to different files. */
  lemma LocaisDistinct(arquivos: seq<Upload>, uuid: nat -> string, n: nat, i: nat, j: nat)
    requires n <= |arquivos| && SafeNames(arquivos, uuid, n)
    requires i < j < n
    ensures Local(uuid, i, arquivos[i]) != Local(uuid, j, arquivos[j])
  {
    StoredNameInUploads(uuid, i, arquivos[i]);
    StoredNameInUploads(uuid, j, arquivos[j]);
    StoredNamesDistinct(uuid, arquivos, i, j);
    assert Local(uuid, i, arquivos[i]).names[1] == NomeArquivo(uuid, i, arquivos[i]);
  }

  /** No two of the first n uploads are written to the same file. */
  predicate LocaisApart(arquivos: seq<Upload>, uuid: nat -> string, n: nat)
    requires n <= |arquivos|
  {
    forall i, j :: 0 <= i < j < n ==> Local(uuid, i, arquivos[i]) != Local(uuid, j, arquivos[j])
  }

  /** Safe names keep every pair of destinations apart. */
  lemma SafeNamesKeepLocaisApart(arquivos: seq<Upload>, uuid: nat -> string, n: nat)
    requires n <= |arquivos| && SafeNames(arquivos, uuid, n)
    ensures LocaisApart(arquivos, uuid, n)
  {
    forall i, j | 0 <= i < j < n
      ensures Local(uuid, i, arquivos[i]) != Local(uuid, j, arquivos[j])
    {
      LocaisDistinct(arquivos, uuid, n, i, j);
    }
  }

  /** With destinations apart, the i-th upload survives the later writes. */
  lemma {:induction false} WrittenFileSurvives(files: map<FsPath, StoredFile>, arquivos: seq<Upload>,
                                               uuid: nat -> string, n: nat, i: nat)
    requires n <= |arquivos| && LocaisApart(arquivos, uuid, n)
    requires i < n
    ensures Local(uuid, i, arquivos[i]) in Gravados(files, arquivos, uuid, n)
    ensures Gravados(files, arquivos, uuid, n)[Local(uuid, i, arquivos[i])] == StoredFile(arquivos[i].content, true)
  {
    if i < n - 1 {
      assert LocaisApart(arquivos, uuid, n - 1);
      WrittenFileSurvives(files, arquivos, uuid, n - 1, i);
      assert Local(uuid, i, arquivos[i]) != Local(uuid, n - 1, arquivos[n - 1]);
    }
  }

  /** Under safe names, after n writes each of the first n uploads sits,
      readable and with its own bytes, at its destination. */
  lemma UploadStored(files: map<FsPath, StoredFile>, arquivos: seq<Upload>,
                     uuid: nat -> string, n: nat, i: nat)
    requires n <= |arquivos| && SafeNames(arquivos, uuid, n)
    requires i < n
    ensures Local(uuid, i, arquivos[i]) in Gravados(files, arquivos, uuid, n)
    ensures Gravados(files, arquivos, uuid, n)[Local(uuid, i, arquivos[i])] == StoredFile(arquivos[i].content, true)
  {
    SafeNamesKeepLocaisApart(arquivos, uuid, n);
    WrittenFileSurvives(files, arquivos, uuid, n, i);
  }

  /** Writing the uploads leaves every file at any other path as it was. */
  lemma {:induction false} OtherFilesKept(files: map<FsPath, StoredFile>, arquivos: seq<Upload>,
                                          uuid: nat -> string, n: nat, q: FsPath)
    requires n <= |arquivos|
    requires q in files
    requires forall i :: 0 <= i < n ==> q != Local(uuid, i, arquivos[i])
    ensures q in Gravados(files, arquivos, uuid, n) && Gravados(files, arquivos, uuid, n)[q] == files[q]
  {
    if n > 0 {
      OtherFilesKept(files, arquivos, uuid, n - 1, q);
    }
  }

  /** Every file after n writes was there before or is one of the written ones. */
  lemma {:induction false} GravadosKeys(files: map<FsPath, StoredFile>, arquivos: seq<Upload>,
                                        uuid: nat -> string, n: nat, q: FsPath)
    requires n <= |arquivos|
    requires q in Gravados(files, arquivos, uuid, n)
    ensures q in files || exists i :: 0 <= i < n && q == Local(uuid, i, arquivos[i])
  {
    if n > 0 && q != Local(uuid, n - 1, arquivos[n - 1]) {
      GravadosKeys(files, arquivos, uuid, n - 1, q);
    }
  }

  /** With safe names, transfers that do not throw on their own and destinations
      below which nothing lies yet, every upload is written when uploads/ is a
      directory, and otherwise the very first transfer throws. */
  lemma AllSafeUploadsPass(files: map<FsPath, StoredFile>, pasta: bool, arquivos: seq<Upload>, uuid: nat -> string)
    requires SafeNames(arquivos, uuid, |arquivos|)
    requires forall i :: 0 <= i < |arquivos| ==> !arquivos[i].transferFails
    requires forall q, i :: q in files && 0 <= i < |arquivos| ==> !Below(q, Local(uuid, i, arquivos[i]))
    ensures PrimeiraFalha(files, pasta, arquivos, uuid)
            == if arquivos == [] || IsDirectory(files, pasta, UPLOADS) then None else Some(0)
  {
    if arquivos != [] && !IsDirectory(files, pasta, UPLOADS) {
      SafeNameTransfers(files, pasta, uuid, 0, arquivos[0]);
      PrimeiraFalhaAt(files, pasta, arquivos, uuid, 0);
      return;
    }
    forall j | 0 <= j < |arquivos| ensures Passa(files, pasta, arquivos, uuid, j) {
      var g := Gravados(files, arquivos, uuid, j);
      StoredNameInUploads(uuid, j, arquivos[j]);
      forall q | q in g ensures !Below(q, Local(uuid, j, arquivos[j])) {
        GravadosKeys(files, arquivos, uuid, j, q);
        if q !in files {
          var i :| 0 <= i < j && q == Local(uuid, i, arquivos[i]);
          StoredNameInUploads(uuid, i, arquivos[i]);
        }
      }
      if j > 0 {
        StoredNameInUploads(uuid, j - 1, arquivos[j - 1]);
        assert Below(Local(uuid, j - 1, arquivos[j - 1]), UPLOADS);
      }
      assert IsDirectory(g, pasta, UPLOADS);
      SafeNameTransfers(g, pasta, uuid, j, arquivos[j]);
    }
    PrimeiraFalhaNone(files, pasta, arquivos, uuid);
  }

  /** A regular file named uploads on the disk: Files.exists is true for it, so
      no directory is created, and the first transfer throws whatever the
      client called the file. */
  lemma UploadsFileFailsFirst(d: Disk, arquivos: seq<Upload>, uuid: nat -> string)
    requires Consistent(d) && UPLOADS in d.files
    requires arquivos != [] && UuidText(uuid(0))
    ensures !PastaApos(d.files, d.uploadsExists)
    ensures PrimeiraFalha(d.files, PastaApos(d.files, d.uploadsExists), arquivos, uuid) == Some(0)
  {
    var pasta := PastaApos(d.files, d.uploadsExists);
    UploadsReadyUnlessFile(d);
    var dest := Destino(uuid, 0, arquivos[0]);
    assert FsPath(dest.absolute, dest.names[..1]) == FsPath(false, ["uploads"]);
    assert Normalize(FsPath(false, ["uploads"])) == UPLOADS by {
      assert NormalizeFrom(false, [], ["uploads"]) == NormalizeFrom(false, ["uploads"], []);
    }
    assert !Walkable(d.files, pasta, dest);
    PrimeiraFalhaAt(d.files, pasta, arquivos, uuid, 0);
  }

  class OcorrenciaService {
    const ocorrenciaRepository: Repository<Ocorrencia>
    const propriedadeRepository: Repository<Propriedade>
    const tipoOcorrenciaRepository: Repository<Lookup>
    const incidenteRepository: Repository<Lookup>
    const store: FileStore

    constructor (ocorrencias: Repository<Ocorrencia>, propriedades: Repository<Propriedade>,
                 tipos: Repository<Lookup>, incidentes: Repository<Lookup>, files: FileStore)
      ensures ocorrenciaRepository == ocorrencias && propriedadeRepository == propriedades
      ensures tipoOcorrenciaRepository == tipos && incidenteRepository == incidentes && store == files
    {
      ocorrenciaRepository := ocorrencias;
      propriedadeRepository := propriedades;
      tipoOcorrenciaRepository := tipos;
      incidenteRepository := incidentes;
      store := files;
    }

    /** The start of step 3: Files.exists, then createDirectories when nothing
        is there. */
    method CriarPasta()
      modifies store
      ensures store.files == old(store.files)
      ensures store.uploadsExists == PastaApos(old(store.files), old(store.uploadsExists))
    {
      if !Exists(store.files, store.uploadsExists, UPLOADS) {
        store.CreateUploads();
      }
    }

    /** arquivo.transferTo(destino) for the i-th upload, the earlier ones
        written: it succeeds as Passa says, and then the bytes are at its
        normalised destination. */
    method Transferir(arqs: seq<Upload>, uuid: nat -> string, i: nat,
                      ghost antes: map<FsPath, StoredFile>, ghost pasta: bool) returns (ok: bool)
      requires i < |arqs|
      requires store.files == Gravados(antes, arqs, uuid, i) && store.uploadsExists == pasta
      modifies store
      ensures store.uploadsExists == pasta
      ensures ok == Resultados(antes, pasta, arqs, uuid)[i]
      ensures store.files == if ok then Gravados(antes, arqs, uuid, i + 1) else old(store.files)
    {
      var a := arqs[i];
      ok := store.Write(Destino(uuid, i, a), a.content, a.transferFails);
    }

    /** The loop of step 3: writes each upload in order, uploads/ being a
        directory or not as it is now, and builds its photo record; the first
        transfer that throws ends the loop, the earlier files staying. */
    method EscreverFotos(arqs: seq<Upload>, uuid: nat -> string, novoId: Uuid) returns (r: Result<seq<FotoOcorrencia>, Error>)
      modifies store
      ensures store.uploadsExists == old(store.uploadsExists)
      ensures match PrimeiroFalso(Resultados(old(store.files), old(store.uploadsExists), arqs, uuid), 0)
              case Some(k) =>
                store.files == Gravados(old(store.files), arqs, uuid, k) && r == Failure(IOFailure(NomeArquivo(uuid, k, arqs[k])))
              case None =>
                store.files == Gravados(old(store.files), arqs, uuid, |arqs|) && r == Success(Fotos(arqs, uuid, |arqs|, novoId))
    {
      ghost var antes := old(store.files);
      ghost var pasta := store.uploadsExists;
      ghost var b := Resultados(antes, pasta, arqs, uuid);
      var fotos: seq<FotoOcorrencia> := [];
      var i := 0;
      while i < |arqs|
        invariant 0 <= i <= |arqs|
        invariant store.uploadsExists == pasta
        invariant store.files == Gravados(antes, arqs, uuid, i)
        invariant forall j :: 0 <= j < i ==> b[j]
        invariant fotos == Fotos(arqs, uuid, i, novoId)
      {
        var nomeArquivo := NomeArquivo(uuid, i, arqs[i]);
        var ok := Transferir(arqs, uuid, i, antes, pasta);
        if !ok {
          PrimeiroFalsoAt(b, 0, i);
          return Failure(IOFailure(nomeArquivo));
        }
        FotosStep(arqs, uuid, i, novoId);
        fotos := fotos + [FotoOcorrencia(arqs[i].originalFilename, Some(nomeArquivo), Some(novoId))];
        i := i + 1;
      }
      PrimeiroFalsoNone(b, 0);
      r := Success(fotos);
    }

    /** Step 3 of salvar for a non-empty upload list: creates uploads/ if nothing
        of that name exists, then writes the uploads in order; a regular file
        named uploads is left in place, so the transfers into it throw. */
    method GravarFotos(arqs: seq<Upload>, uuid: nat -> string, novoId: Uuid) returns (r: Result<seq<FotoOcorrencia>, Error>)
      requires arqs != []
      modifies store
      ensures store.uploadsExists == PastaApos(old(store.files), old(store.uploadsExists))
      ensures match PrimeiraFalha(old(store.files), PastaApos(old(store.files), old(store.uploadsExists)), arqs, uuid)
              case Some(k) =>
                store.files == Gravados(old(store.files), arqs, uuid, k) && r == Failure(IOFailure(NomeArquivo(uuid, k, arqs[k])))
              case None =>
                store.files == Gravados(old(store.files), arqs, uuid, |arqs|) && r == Success(Fotos(arqs, uuid, |arqs|, novoId))
    {
      CriarPasta();
      r := EscreverFotos(arqs, uuid, novoId);
    }

    /** salvar(dto, arquivos): every reference is resolved before any file is
        touched; with uploads, uploads/ is created when nothing of that name exists and each file is
        written in order, the first failing transfer ending the call with the
        earlier files left in place and nothing saved; finally the occurrence,
        with one photo per upload when there were uploads, is saved. */
    method Salvar(dto: OcorrenciaDto, arquivos: Option<seq<Upload>>, uuid: nat -> string, novoId: Uuid)
      returns (r: Result<Ocorrencia, Error>)
      requires novoId !in ocorrenciaRepository.rows
      modifies ocorrenciaRepository, store
      ensures var refs := Referencias(dto, propriedadeRepository.rows, tipoOcorrenciaRepository.rows, incidenteRepository.rows);
              if refs.Failure? then
                r == Failure(refs.error) && ocorrenciaRepository.rows == old(ocorrenciaRepository.rows)
                && store.files == old(store.files) && store.uploadsExists == old(store.uploadsExists)
              else
                var o := DtoParaEntidade(dto, refs.value.0, refs.value.1, refs.value.2);
                if arquivos.None? || arquivos.value == [] then
                  store.files == old(store.files) && store.uploadsExists == old(store.uploadsExists)
                  && Persisted(old(ocorrenciaRepository.rows), ocorrenciaRepository.rows, o, novoId, r)
                else
                  var arqs := arquivos.value;
                  store.uploadsExists == PastaApos(old(store.files), old(store.uploadsExists))
                  && match PrimeiraFalha(old(store.files), PastaApos(old(store.files), old(store.uploadsExists)), arqs, uuid)
                     case Some(k) =>
                       store.files == Gravados(old(store.files), arqs, uuid, k)
                       && r == Failure(IOFailure(NomeArquivo(uuid, k, arqs[k])))
                       && ocorrenciaRepository.rows == old(ocorrenciaRepository.rows)
                     case None =>
                       store.files == Gravados(old(store.files), arqs, uuid, |arqs|)
                       && Persisted(old(ocorrenciaRepository.rows), ocorrenciaRepository.rows,
                                    o.(fotos := Some(Fotos(arqs, uuid, |arqs|, novoId))), novoId, r)
    {
      var refs := Referencias(dto, propriedadeRepository.rows, tipoOcorrenciaRepository.rows, incidenteRepository.rows);
      if refs.Failure? {
        return Failure(refs.error);
      }
      var ocorrencia := DtoParaEntidade(dto, refs.value.0, refs.value.1, refs.value.2);

      if arquivos.Some? && arquivos.value != [] {
        var fotos := GravarFotos(arquivos.value, uuid, novoId);
        if fotos.Failure? {
          return Failure(fotos.error);
        }
        ocorrencia := ocorrencia.(fotos := Some(fotos.value));
      }

      var erro := SaveError(ocorrencia);
      if erro.Some? {
        return Failure(erro.value);
      }
      var salva := ocorrencia.(id := Some(novoId));
      ocorrenciaRepository.Save(novoId, salva);
      r := Success(salva);
    }

    /** excluir: deleteById; the photos go with their occurrence, the files stay. */
    method Excluir(id: Uuid)
      modifies ocorrenciaRepository
      ensures ocorrenciaRepository.rows == old(ocorrenciaRepository.rows) - {id}
    {
      ocorrenciaRepository.DeleteById(id);
    }
  }
}
