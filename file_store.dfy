/**
 * The local file system under the working directory, as the upload code sees
 * it: regular files by normalised path, and whether uploads/ exists.
 */
module FileStore {
  import opened Paths

  type Bytes = seq<bv8>

  /** A regular file: its content and whether the process may read it. */
  datatype StoredFile = StoredFile(content: Bytes, readable: bool)

  class FileStore {
    var files: map<FsPath, StoredFile>
    var uploadsExists: bool

    constructor (files: map<FsPath, StoredFile>, uploadsExists: bool)
      ensures this.files == files && this.uploadsExists == uploadsExists
    {
      this.files := files;
      this.uploadsExists := uploadsExists;
    }

    /** Files.createDirectories(uploads). */
    method CreateUploads()
      modifies this
      ensures uploadsExists && files == old(files)
    {
      uploadsExists := true;
    }

    /** MultipartFile.transferTo(path): opens path for writing, which needs every
        directory on the way to exist and the target not to be a directory; the
        bytes land at the normalised path. An IOException of the transfer's own
        is an input. */
    method Write(p: FsPath, content: Bytes, fails: bool) returns (ok: bool)
      modifies this
      ensures ok == (!fails && Writable(old(files), old(uploadsExists), p))
      ensures files == if ok then old(files)[Normalize(p) := StoredFile(content, true)] else old(files)
      ensures uploadsExists == old(uploadsExists)
    {
      ok := !fails && Writable(files, uploadsExists, p);
      if ok {
        files := files[Normalize(p) := StoredFile(content, true)];
      }
    }

    /** Removes the file at p, if there is one. */
    method Remove(p: FsPath)
      modifies this
      ensures files == old(files) - {p} && uploadsExists == old(uploadsExists)
    {
      files := files - {p};
    }

    /** Removes the empty uploads/ directory. */
    method RemoveUploads()
      modifies this
      ensures !uploadsExists && files == old(files)
    {
      uploadsExists := false;
    }
  }

  /** The disk as a value: the files and whether uploads/ exists. */
  datatype Disk = Disk(files: map<FsPath, StoredFile>, uploadsExists: bool)

  /** q lies strictly below p. */
  predicate Below(q: FsPath, p: FsPath) {
    q.absolute == p.absolute && |p.names| < |q.names| && q.names[..|p.names|] == p.names
  }

  /** p is a directory: the root or working directory, uploads/ once created, or
      a parent of some file. */
  predicate IsDirectory(files: map<FsPath, StoredFile>, uploadsExists: bool, p: FsPath) {
    p.names == [] || (p == UPLOADS && uploadsExists) || exists q :: q in files && Below(q, p)
  }

  /** Opening p for writing walks every directory before its last element:
      each of them, resolved, must exist. */
  predicate Walkable(files: map<FsPath, StoredFile>, uploadsExists: bool, p: FsPath) {
    forall k :: 1 <= k < |p.names| ==> IsDirectory(files, uploadsExists, Normalize(FsPath(p.absolute, p.names[..k])))
  }

  /** Files.newOutputStream(p) succeeds: the way there exists and p is no directory. */
  predicate Writable(files: map<FsPath, StoredFile>, uploadsExists: bool, p: FsPath) {
    Walkable(files, uploadsExists, p) && !IsDirectory(files, uploadsExists, Normalize(p))
  }

  /** A disk a real file system can be in: a file is never a directory, so no
      file lies below another, none is the root or working directory, and
      uploads/ is a file or a directory but not both. */
  predicate Consistent(d: Disk) {
    (forall p, q :: p in d.files && q in d.files ==> !Below(q, p))
    && (forall p :: p in d.files ==> p.names != [])
    && (UPLOADS in d.files ==> !d.uploadsExists)
  }

  /** Resource.exists(). */
  predicate Exists(files: map<FsPath, StoredFile>, uploadsExists: bool, p: FsPath) {
    p in files || IsDirectory(files, uploadsExists, p)
  }

  /** Resource.isReadable() for a file URL: a readable regular file, never a directory. */
  predicate Readable(files: map<FsPath, StoredFile>, p: FsPath) {
    p in files && files[p].readable
  }
}

/** service/FileStorageService.java: serves and deletes files in uploads/. */
module FileStorageService {
  import opened Wrappers
  import opened Errors
  import opened Paths
  import opened FileStore

  /** loadAsResource: the resource for uploads/<filename> after normalising, when it
      exists and is readable. */
  function LoadAsResource(store: FileStore, filename: string): (r: Result<FsPath, Error>)
    reads store
    ensures r.Success? <==> Readable(store.files, UploadPath(filename))
    ensures r.Success? ==> r.value == UploadPath(filename)
    ensures r.Failure? ==> r.error == Runtime("Não foi possível ler o arquivo: " + filename, None)
  {
    var p := UploadPath(filename);
    if Exists(store.files, store.uploadsExists, p) && Readable(store.files, p) then Success(p)
    else Failure(Runtime("Não foi possível ler o arquivo: " + filename, None))
  }

  /** uploads/ is addressed, exists, and holds nothing. */
  predicate EmptyUploads(d: Disk, p: FsPath) {
    p == UPLOADS && d.uploadsExists && forall q :: q in d.files ==> !Below(q, UPLOADS)
  }

  /** delete: Files.deleteIfExists on uploads/<filename> after normalising. A file
      is removed; an empty uploads/ is removed too; a name that addresses
      nothing changes nothing. A directory with something in it, the working
      directory, or an I/O failure (an input here) throws an IOException,
      rethrown as a RuntimeException, and changes nothing. */
  function Deletado(d: Disk, filename: string, ioFails: bool): (r: (Result<(), Error>, Disk))
    ensures var p := UploadPath(filename);
      r.0.Failure? <==> ioFails || (p !in d.files && IsDirectory(d.files, d.uploadsExists, p) && !EmptyUploads(d, p))
    ensures r.0.Failure? ==> r.0 == Failure(Runtime("Falha ao deletar o arquivo: " + filename, None)) && r.1 == d
    ensures var p := UploadPath(filename);
      forall q :: q in d.files && q != p ==> q in r.1.files && r.1.files[q] == d.files[q]
    ensures forall q :: q in r.1.files ==> q in d.files
    ensures r.1.uploadsExists != d.uploadsExists ==> UploadPath(filename) == UPLOADS && !r.1.uploadsExists
    ensures Consistent(d) ==> Consistent(r.1)
    ensures Consistent(d) && r.0.Success? ==> !Exists(r.1.files, r.1.uploadsExists, UploadPath(filename))
  {
    var p := UploadPath(filename);
    var fail := Failure(Runtime("Falha ao deletar o arquivo: " + filename, None));
    if ioFails then (fail, d)
    else if p in d.files then
      assert Consistent(d) ==> !IsDirectory(d.files - {p}, d.uploadsExists, p);
      (Success(()), d.(files := d.files - {p}))
    else if EmptyUploads(d, p) then (Success(()), d.(uploadsExists := false))
    else if IsDirectory(d.files, d.uploadsExists, p) then (fail, d)
    else (Success(()), d)
  }

  /** delete on the store: the new disk is the one Deletado describes. */
  method Delete(store: FileStore, filename: string, ioFails: bool) returns (r: Result<(), Error>)
    modifies store
    ensures (r, Disk(store.files, store.uploadsExists))
            == Deletado(Disk(old(store.files), old(store.uploadsExists)), filename, ioFails)
  {
    var p := UploadPath(filename);
    if ioFails {
      return Failure(Runtime("Falha ao deletar o arquivo: " + filename, None));
    }
    if p in store.files {
      store.Remove(p);
    } else if EmptyUploads(Disk(store.files, store.uploadsExists), p) {
      store.RemoveUploads();
    } else if IsDirectory(store.files, store.uploadsExists, p) {
      return Failure(Runtime("Falha ao deletar o arquivo: " + filename, None));
    }
    r := Success(());
  }

  /** Deleting a second time finds nothing and changes nothing more. */
  lemma DeleteIdempotent(d: Disk, filename: string)
    requires Consistent(d)
    ensures Deletado(d, filename, false).0.Success? ==>
              Deletado(Deletado(d, filename, false).1, filename, false) == (Success(()), Deletado(d, filename, false).1)
  {
    var d1 := Deletado(d, filename, false).1;
    var p := UploadPath(filename);
    if Deletado(d, filename, false).0.Success? {
      assert !Exists(d1.files, d1.uploadsExists, p);
      assert !EmptyUploads(d1, p);
    }
  }

  /** An empty uploads/ is what "" and "." address, and deleteIfExists removes it. */
  lemma DeleteEmptyUploads(filename: string)
    requires filename == "" || filename == "."
    ensures Deletado(Disk(map[], true), filename, false) == (Success(()), Disk(map[], false))
  {
    assert UploadPath("") == UPLOADS by {
      assert Names("") == [];
      assert Resolve(UPLOADS, "") == UPLOADS;
      assert NormalizeFrom(false, [], ["uploads"]) == NormalizeFrom(false, ["uploads"], []);
    }
    assert UploadPath(".") == UPLOADS by {
      NamesOfSingleName(".");
      assert Resolve(UPLOADS, ".") == FsPath(false, ["uploads", "."]);
      assert NormalizeFrom(false, [], ["uploads", "."]) == NormalizeFrom(false, ["uploads"], ["."]);
      assert ["uploads", "."][1..] == ["."] && ["."][1..] == [];
    }
  }

  /** A uploads/ with a file in it is refused: DirectoryNotEmptyException. */
  lemma DeleteFullUploads(d: Disk, f: FsPath)
    requires Consistent(d) && d.uploadsExists && f in d.files && Below(f, UPLOADS)
    ensures Deletado(d, "", false).0 == Failure(Runtime("Falha ao deletar o arquivo: ", None))
  {
    assert UploadPath("") == UPLOADS by {
      assert Names("") == [];
      assert Resolve(UPLOADS, "") == UPLOADS;
      assert NormalizeFrom(false, [], ["uploads"]) == NormalizeFrom(false, ["uploads"], []);
    }
    assert UPLOADS !in d.files;
    assert !EmptyUploads(d, UPLOADS);
    assert IsDirectory(d.files, d.uploadsExists, UPLOADS);
    assert "Falha ao deletar o arquivo: " + "" == "Falha ao deletar o arquivo: ";
  }
}

/** service/ArquivosService.java: the older download service. */
module ArquivosService {
  import FileStorageService
  import opened Wrappers
  import opened Errors
  import opened Paths
  import opened FileStore

  /** loadAsResource: like FileStorageService's, but accepts a path that exists OR is readable. */
  function LoadAsResource(store: FileStore, filename: string): (r: Result<FsPath, Error>)
    reads store
    ensures r.Success? <==> Exists(store.files, store.uploadsExists, UploadPath(filename))
    ensures r.Success? ==> r.value == UploadPath(filename)
    ensures r.Failure? ==> r.error == Runtime("Não foi possível ler o arquivo: " + filename, None)
  {
    var p := UploadPath(filename);
    if Exists(store.files, store.uploadsExists, p) || Readable(store.files, p) then Success(p)
    else Failure(Runtime("Não foi possível ler o arquivo: " + filename, None))
  }

  /** ArquivosService serves everything FileStorageService serves, and also
      unreadable files and directories: the empty name gives uploads/ itself. */
  lemma AcceptsMoreThanFileStorage(store: FileStore, filename: string)
    ensures FileStorageService.LoadAsResource(store, filename).Success? ==> LoadAsResource(store, filename).Success?
    ensures store.uploadsExists && UPLOADS !in store.files ==>
      LoadAsResource(store, "").Success? && FileStorageService.LoadAsResource(store, "").Failure?
  {
    assert Names("") == [];
    assert Resolve(UPLOADS, "") == FsPath(false, ["uploads"] + []);
    assert ["uploads"] + [] == ["uploads"];
    assert [] + ["uploads"] == ["uploads"] && ["uploads"][1..] == [];
    assert UploadPath("") == UPLOADS;
  }

  /** probeContentType, with what Files.probeContentType does as input: its
      IOException propagates unchanged, null becomes
      "application/octet-stream", and any other type is returned as it is. */
  function ProbeContentType(probed: Result<Option<string>, Error>): (r: Result<string, Error>)
    ensures r.Failure? <==> probed.Failure?
    ensures probed.Failure? ==> r.error == probed.error
    ensures probed == Success(None) ==> r == Success("application/octet-stream")
    ensures probed.Success? && probed.value.Some? ==> r == Success(probed.value.value)
  {
    var tipo :- probed;
    if tipo.None? then Success("application/octet-stream") else Success(tipo.value)
  }
}
