# smpp-backend service core in Dafny

This is a model of the service layer of smpp-backend (package `br.ufsm.smpp`), a Spring Boot backend. It records rural properties, the occurrences that hit them (floods, droughts, storms, fires) and the photos of those occurrences. The model covers the following parts:

- **User administration and login.** `UsuarioService` enforces the "ADMIN or self" access rule, unique e-mails, the role read from text, and conditional password and role updates. `AuthService` covers login and self-registration.
- **Properties.** `PropriedadeService` builds a property from a request, fills in the owner contact from the authenticated user, overwrites fields on update, and resolves references.
- **Occurrences.** `OcorrenciaService` saves an occurrence along with its uploaded photos, using a file store whose directory is `uploads/`.
- **File services.** The two file services that serve and delete those files.
- **Lookup tables.** The incident and vulnerability lookup services.
- **Initializers.** Both seed-if-empty initializers.
- **Tokens and filters.** Both JWT utilities and both authentication filters.
- **Validation.** The Bean Validation rules on every request DTO and on the property and occurrence entities.

The repository is in the middle of a refactor: root-package classes (`model.*`, `security.*`, `config.*`) sit beside newer `model.<entity>.*` and `infra.*` versions. Each version is modelled in its own module, and lemmas state where the versions differ.

How the Java maps onto Dafny:

- **Tables.** A table is a `Repositories.Repository<T>` object: a `rows: map<Uuid, T>` field that `Save` and `DeleteById` update in place. Service classes hold their repositories as `const` fields. Commands are methods whose `ensures` state the whole new table. Queries are functions of the table value.
- **Entities, DTOs and nulls.** Entities and DTOs are datatypes. A Java reference that may be `null` is an `Option`. Exceptions are `Result` failures that carry an `Errors.Error` naming the exception class and its message.
- **Oracles.** Whatever the code cannot compute is a parameter:
  - the fresh identifier a save assigns (`novoId`, required to be absent from the table);
  - the UUID texts drawn for upload names (`uuid: nat -> string`);
  - the clock (`now`, `today`);
  - whether an I/O call fails;
  - what the content-type probe answers, or the IOException it throws;
  - the `@Email` pattern.
- **Passwords.** The `PasswordEncoder` is an opaque `encode`/`matches` pair. Lemmas that need it assume only `matches(p, encode(p))`.
- **JWT library.** The JWT library is an opaque `Codec(sign, parse)`. Lemmas about issued tokens take `Jwt.RoundTrips(codec)` as a hypothesis: a token the key signed parses back to its claims, with its dates cut to whole seconds, until it expires.
- **Java arithmetic and text.** Java semantics are written out where they matter:
  - 32- and 64-bit wrap-around (`1000*60*60*24` in int arithmetic; `now + day` in long arithmetic);
  - division that truncates toward zero;
  - the UTF-16 length that `@Size` counts;
  - `String.isBlank` versus Hibernate's trim-based `@NotBlank`;
  - `equalsIgnoreCase`;
  - `Path.resolve` and `normalize`.

## Model

| member | source | states |
|---|---|---|
| UsuarioService.ValidarAcesso | src/main/java/br/ufsm/smpp/service/UsuarioService.java:98-106 | access is granted exactly when the caller is ADMIN or is the target user; otherwise AccessDenied("Acesso negado.") |
| UsuarioService.RoleFromText | src/main/java/br/ufsm/smpp/service/UsuarioService.java:50-52 | the role is ADMIN exactly for five-letter texts spelling "admin" in any case (including the dotless and dotted I that Java folds to i); null and anything else give COMUM |
| UsuarioService.RoleFrom | src/main/java/br/ufsm/smpp/service/UsuarioService.java:50-52 | ADMIN if and only if the text is present and equals "ADMIN" ignoring case |
| UsuarioService.BuscarEntidadePorId | src/main/java/br/ufsm/smpp/service/UsuarioService.java:93-96 | the stored user when the id is present, otherwise EntityNotFound with the id |
| UsuarioService.BuscarDtoPorId | src/main/java/br/ufsm/smpp/service/UsuarioService.java:34-38 | a forbidden caller gets AccessDenied whether or not the user exists; otherwise the response of the stored user, or not-found |
| UsuarioService.ListarTodos | src/main/java/br/ufsm/smpp/service/UsuarioService.java:28-32 | one response per stored user, in findAll order, with every stored user present |
| UsuarioService.ResponseOmitsPassword | src/main/java/br/ufsm/smpp/service/UsuarioService.java:108-116 | two users have equal responses exactly when they differ at most in the password hash |
| UsuarioService.ToResponseDto | src/main/java/br/ufsm/smpp/service/UsuarioService.java:108-116 | the response carries the id, name, e-mail and phone of the row, and its role as "ADMIN" exactly for an admin, otherwise "COMUM" |
| UsuarioService.NovoUsuario | src/main/java/br/ufsm/smpp/service/UsuarioService.java:45-52 | the new row takes the request's name, e-mail and phone; under a consistent encoder its hash matches the password; its role is ADMIN exactly when the role text equals "ADMIN" ignoring case |
| UsuarioService.Atualizado | src/main/java/br/ufsm/smpp/service/UsuarioService.java:63-76 | the id stays; name, e-mail and phone come from the request; a non-blank new password gives a hash that matches it, otherwise the old hash stays; only an admin caller changes the role, to ADMIN exactly for "ADMIN" ignoring case |
| UsuarioService.PasswordRules | src/main/java/br/ufsm/smpp/service/UsuarioService.java:49-69 | under a consistent encoder, the stored hash matches the password given on create and the new password on update; a null or blank new password keeps the old hash |
| UsuarioService.RoleRules | src/main/java/br/ufsm/smpp/service/UsuarioService.java:72-76 | a non-admin caller never changes a role (their own included); an admin sets ADMIN exactly for "ADMIN" ignoring case; the id never changes |
| UsuarioService.SaveKeepsTableValid | src/main/java/br/ufsm/smpp/model/usuario/Usuario.java:34-35 | saving a row whose e-mail no other row holds keeps ids matching keys and e-mails unique |
| UsuarioService.UsuarioService.CriarUsuario | src/main/java/br/ufsm/smpp/service/UsuarioService.java:40-56 | an e-mail in use gives IllegalArgument and an unchanged table; otherwise exactly one new row (hashed password, role from the text) under the fresh id, and its response |
| UsuarioService.UsuarioService.AtualizarUsuario | src/main/java/br/ufsm/smpp/service/UsuarioService.java:58-80 | access check first, then not-found, then the field updates; an e-mail taken by another row is refused by the unique column; every failure leaves the table unchanged |
| UsuarioService.UsuarioService.Deletar | src/main/java/br/ufsm/smpp/service/UsuarioService.java:82-89 | access check first; an absent id gives not-found and no change; a present id removes exactly that row |
| AuthService.Login | src/main/java/br/ufsm/smpp/service/AuthService.java:24-44 | an unknown e-mail and a wrong password both give BadCredentials("Credenciais inválidas."); success exactly for a stored e-mail whose hash matches the password, returning a token for that e-mail with the user's id, role name and name |
| AuthService.RespostaPara | src/main/java/br/ufsm/smpp/service/AuthService.java:35-43 | the response has the user's id and name, the role name "ADMIN" exactly for an admin, and a token whose subject reads back as the user's e-mail |
| AuthService.Registrado | src/main/java/br/ufsm/smpp/service/AuthService.java:52-58 | the registered row has role COMUM, the request's name, e-mail and phone, and the encoded password |
| AuthService.LoginAfterRegister | src/main/java/br/ufsm/smpp/service/AuthService.java:24-60 | registering and then logging in with the same e-mail and password succeeds as a COMUM user with the new id |
| AuthService.AuthService.Register | src/main/java/br/ufsm/smpp/service/AuthService.java:46-60 | fails exactly when the e-mail is in use, then with IllegalArgument and no change; otherwise adds exactly the registered row under the fresh id |
| PropriedadeService.UsuarioAutenticado | src/main/java/br/ufsm/smpp/service/PropriedadeService.java:44-45 | the principal when an authentication is present and its principal is a user, otherwise none |
| PropriedadeService.BuscarPorId | src/main/java/br/ufsm/smpp/service/PropriedadeService.java:35-38 | the stored property, or EntityNotFound("Propriedade não encontrada") |
| PropriedadeService.Resolver | src/main/java/br/ufsm/smpp/service/PropriedadeService.java:67-80 | every id resolves, giving the rows in the same order and length, or it fails naming the first id that does not resolve |
| PropriedadeService.FromDto | src/main/java/br/ufsm/smpp/service/PropriedadeService.java:56-83 | fromDTO as written: success exactly when every @NonNull setter gets a value (owner name, phone and vulnerability list included) and the city and every listed id resolve; the result copies the request and holds the resolved rows in order |
| PropriedadeService.FromDtoRejectsOmittedOwner | src/main/java/br/ufsm/smpp/service/PropriedadeService.java:65-66 | a valid request that leaves out the owner, with every reference stored, is refused with a null-pointer failure on proprietario |
| PropriedadeService.FromDtoRejectsOmittedVulnerabilidades | src/main/java/br/ufsm/smpp/service/PropriedadeService.java:77-80 | a valid request without its optional vulnerability list is refused with a null-pointer failure on vulnerabilidades |
| PropriedadeService.FromDtoCorrigido | src/main/java/br/ufsm/smpp/service/PropriedadeService.java:56-83 | fromDTO as the request type documents it: a missing owner name, phone or vulnerability list is left unset; otherwise the same resolution and copying |
| PropriedadeService.Defaulted | src/main/java/br/ufsm/smpp/service/PropriedadeService.java:42-50 | one non-blank contact field, or no authenticated user, keeps the property as given; two blank fields take the user's name and phone and make the user the owner; no other field changes |
| PropriedadeService.OmittedOwnerIsDefaulted | src/main/java/br/ufsm/smpp/service/PropriedadeService.java:42-53 | with the corrected fromDTO, a valid request without owner from an authenticated user becomes a property owned by that user, with their contact and every NOT NULL column set |
| PropriedadeService.Atualizado | src/main/java/br/ufsm/smpp/service/PropriedadeService.java:85-113 | name, city, coordinates and both lists come from the new data, and the id and owner never change; two blank contact fields take the user's contact, and with no user the @NonNull setter fails; otherwise both contact fields are copied verbatim |
| PropriedadeService.AtualizadoPersistable | src/main/java/br/ufsm/smpp/model/propriedade/Propriedade.java:28-68 | an accepted update never leaves a NOT NULL column null |
| PropriedadeService.PropriedadeService.Salvar | src/main/java/br/ufsm/smpp/service/PropriedadeService.java:40-54 | the defaulting step and then the save; a property still short of a NOT NULL column is refused and nothing is stored |
| PropriedadeService.PropriedadeService.Atualizar | src/main/java/br/ufsm/smpp/service/PropriedadeService.java:85-116 | an absent id gives EntityNotFound and no change; otherwise the updated property is stored under the same id, or nothing changes on failure |
| PropriedadeService.PropriedadeService.Deletar | src/main/java/br/ufsm/smpp/service/PropriedadeService.java:118-121 | fails with not-found exactly when the id is absent; otherwise removes exactly that property |
| PropriedadeEntity.NonNull | src/main/java/br/ufsm/smpp/model/propriedade/Propriedade.java:20-68 | Lombok's null check: the value when present, otherwise a null-pointer failure naming the field |
| PropriedadeEntity.MissingColumn | src/main/java/br/ufsm/smpp/model/propriedade/Propriedade.java:28-68 | none exactly when every NOT NULL column (all but vulnerabilidades) is set, otherwise the name of one that is not |
| PropriedadeEntity.BlankContactPersists | src/main/java/br/ufsm/smpp/model/propriedade/Propriedade.java:44-76 | only null is refused: a blank owner name or phone, and a null vulnerability list, are stored |
| PropriedadeEntity.Propriedade.SetNome | src/main/java/br/ufsm/smpp/model/propriedade/Propriedade.java:28-31 | the Lombok @NonNull setter: succeeds exactly when given a value, then changes nome to it and no other field; null gives NullPointerException naming nome |
| PropriedadeEntity.Propriedade.SetCidade | src/main/java/br/ufsm/smpp/model/propriedade/Propriedade.java:33-37 | the Lombok @NonNull setter: succeeds exactly when given a value, then changes cidade to it and no other field; null gives NullPointerException naming cidade |
| PropriedadeEntity.Propriedade.SetCoordenadas | src/main/java/br/ufsm/smpp/model/propriedade/Propriedade.java:39-42 | the Lombok @NonNull setter: succeeds exactly when given a value, then changes coordenadas to it and no other field; null gives NullPointerException naming coordenadas |
| PropriedadeEntity.Propriedade.SetProprietario | src/main/java/br/ufsm/smpp/model/propriedade/Propriedade.java:44-47 | the Lombok @NonNull setter: succeeds exactly when given a value, then changes proprietario to it and no other field; null gives NullPointerException naming proprietario |
| PropriedadeEntity.Propriedade.SetTelefoneProprietario | src/main/java/br/ufsm/smpp/model/propriedade/Propriedade.java:49-52 | the Lombok @NonNull setter: succeeds exactly when given a value, then changes telefoneProprietario to it and no other field; null gives NullPointerException naming telefoneProprietario |
| PropriedadeEntity.Propriedade.SetUsuario | src/main/java/br/ufsm/smpp/model/propriedade/Propriedade.java:54-58 | the Lombok @NonNull setter: succeeds exactly when given a value, then changes usuario to it and no other field; null gives NullPointerException naming usuario |
| PropriedadeEntity.Propriedade.SetAtividades | src/main/java/br/ufsm/smpp/model/propriedade/Propriedade.java:60-68 | the Lombok @NonNull setter: succeeds exactly when given a value, then changes atividades to it and no other field; null gives NullPointerException naming atividades |
| PropriedadeEntity.Propriedade.SetVulnerabilidades | src/main/java/br/ufsm/smpp/model/propriedade/Propriedade.java:70-76 | the plain setter: null is accepted, and only vulnerabilidades changes |
| RootPropriedadeEntity.ValidityRules | src/main/java/br/ufsm/smpp/model/Propriedade.java:39-134 | a valid property has a city and an owner; a blank owner name or phone is invalid; the lists and the inverse occurrence side carry no constraint |
| OcorrenciaService.StringValueOf | src/main/java/br/ufsm/smpp/service/OcorrenciaService.java:71 | string concatenation writes a null file name as "null" |
| OcorrenciaService.Fotos | src/main/java/br/ufsm/smpp/service/OcorrenciaService.java:78-84 | one photo per upload, in order; its name is the client's file name, its stored name is the UUID + "_" + that name, and it points at the new occurrence |
| OcorrenciaService.PrimeiraFalha | src/main/java/br/ufsm/smpp/service/OcorrenciaService.java:69-76 | the index of the first upload whose transferTo throws once the earlier ones were written, given whether uploads/ is a created directory: the upload fails on its own, or a directory on the way to its unnormalised destination is missing (uploads/ itself included, when it is a regular file), or the destination is a directory; none when every transfer succeeds |
| OcorrenciaService.UploadsReadyUnlessFile | src/main/java/br/ufsm/smpp/service/OcorrenciaService.java:63-65 | on a consistent disk, after `if (!Files.exists(pastaUpload)) createDirectories`, uploads/ is a directory exactly when no regular file is called uploads |
| OcorrenciaService.UploadsFileFailsFirst | src/main/java/br/ufsm/smpp/service/OcorrenciaService.java:63-74 | when uploads is a regular file, Files.exists is true, no directory is created, and the very first transferTo throws, whatever the client's file name |
| OcorrenciaService.PrimeiroFalsoAt | src/main/java/br/ufsm/smpp/service/OcorrenciaService.java:69-76 | the loop stops at the first throwing transfer: a false outcome after true ones is the first false one |
| OcorrenciaService.PrimeiroFalsoNone | src/main/java/br/ufsm/smpp/service/OcorrenciaService.java:69-76 | with every outcome true, the loop runs to the end |
| OcorrenciaService.Referencias | src/main/java/br/ufsm/smpp/service/OcorrenciaService.java:46-57 | the property first, then the type, then every listed incident in order, each with its own failure; a null or empty incident list gives no incidents |
| OcorrenciaService.DtoParaEntidade | src/main/java/br/ufsm/smpp/service/OcorrenciaService.java:97-105 | property, type, incidents, date and description come straight from the inputs; there is no id and no photo list |
| OcorrenciaService.StoredNamesDistinct | src/main/java/br/ufsm/smpp/service/OcorrenciaService.java:71 | two uploads with different UUIDs get different stored names, whatever the clients called their files |
| OcorrenciaService.StoredNameInUploads | src/main/java/br/ufsm/smpp/service/OcorrenciaService.java:72 | a client name without '/' gives a destination, and a place where the bytes land, directly in uploads/ under the stored name |
| OcorrenciaService.StoredNameParts | src/main/java/br/ufsm/smpp/service/OcorrenciaService.java:71 | the stored name splits back into the UUID text, "_", and the client's name as concatenation renders it |
| OcorrenciaService.Destino | src/main/java/br/ufsm/smpp/service/OcorrenciaService.java:72 | resolve without normalize: the destination is relative, "uploads" followed by every element of the stored name, ".." and "." included, at least two elements |
| OcorrenciaService.SafeNameTransfers | src/main/java/br/ufsm/smpp/service/OcorrenciaService.java:72-75 | with a plain client name and nothing already below its destination, a transfer that does not fail on its own succeeds exactly when uploads/ is a directory; a regular file named uploads makes it throw |
| OcorrenciaService.SlashedNameFails | src/main/java/br/ufsm/smpp/service/OcorrenciaService.java:72-75 | a client name with '/' inside, such as "a/b.jpg", puts the destination below a directory uploads/&lt;uuid&gt;_a that does not exist, so transferTo throws |
| OcorrenciaService.AllSafeUploadsPass | src/main/java/br/ufsm/smpp/service/OcorrenciaService.java:69-76 | with distinct UUIDs, plain client names, no transfer failing on its own and nothing already below any destination: no upload fails when uploads/ is a directory, and otherwise the first one fails |
| OcorrenciaService.LocaisDistinct | src/main/java/br/ufsm/smpp/service/OcorrenciaService.java:71-72 | with distinct UUIDs and no '/' in client names, different uploads land in different files |
| OcorrenciaService.UploadStored | src/main/java/br/ufsm/smpp/service/OcorrenciaService.java:69-85 | with safe names, after the loop each upload is stored, readable and with its own bytes, where its transfer put it |
| OcorrenciaService.OtherFilesKept | src/main/java/br/ufsm/smpp/service/OcorrenciaService.java:75 | writing the uploads leaves every other file as it was |
| OcorrenciaService.OcorrenciaService.CriarPasta | src/main/java/br/ufsm/smpp/service/OcorrenciaService.java:63-65 | creates uploads/ only when nothing of that name exists; a regular file named uploads stays a file; no file changes |
| OcorrenciaService.OcorrenciaService.Transferir | src/main/java/br/ufsm/smpp/service/OcorrenciaService.java:72-74 | one transferTo: it succeeds as the i-th outcome says, and then the bytes are at the normalised destination, nothing else changing |
| OcorrenciaService.OcorrenciaService.EscreverFotos | src/main/java/br/ufsm/smpp/service/OcorrenciaService.java:68-86 | writes the uploads in order; the first throwing transfer ends the loop with IOException and the earlier files kept; otherwise every file is written and one photo per upload is returned |
| OcorrenciaService.OcorrenciaService.GravarFotos | src/main/java/br/ufsm/smpp/service/OcorrenciaService.java:63-86 | creates uploads/ only when nothing of that name exists (a regular file named uploads stays, and every transfer into it throws), then writes the uploads in order; the first failing transfer ends the step with IOException and the earlier files kept; otherwise every file is written and one photo per upload is returned |
| OcorrenciaService.OcorrenciaService.Salvar | src/main/java/br/ufsm/smpp/service/OcorrenciaService.java:42-91 | a reference failure happens before any file is touched or anything saved; with no uploads, no directory is created and no photo list is set; a failing transfer saves nothing; otherwise the occurrence, with its photos, is saved under the fresh id or refused by the entity's constraints |
| OcorrenciaService.OcorrenciaService.Excluir | src/main/java/br/ufsm/smpp/service/OcorrenciaService.java:107-109 | exactly that row (and with it its photos) goes; no file is touched |
| OcorrenciaEntity.SaveError | src/main/java/br/ufsm/smpp/model/ocorrencia/Ocorrencia.java:31-65 | the save succeeds exactly when type, date and property are set, the description fits 2000 characters, and every photo has a non-blank stored name and its occurrence |
| RootOcorrenciaEntity.StorableMatchesNewer | src/main/java/br/ufsm/smpp/model/Ocorrencia.java:39-101 | for rows with the same columns, the older entity stores exactly what the newer one stores and whose description fits 500 units; the only rows the newer one takes and the older one refuses have a description of 501 to 2000 units |
| FileStorageService.LoadAsResource | src/main/java/br/ufsm/smpp/service/FileStorageService.java:35-48 | succeeds exactly when uploads/&lt;name&gt;, normalised, is a readable file; otherwise RuntimeException("Não foi possível ler o arquivo: " + name) |
| FileStorageService.Delete | src/main/java/br/ufsm/smpp/service/FileStorageService.java:56-63 | the result and the new file store are exactly what Deletado gives for the old store, so every promise of Deletado holds of the real method |
| FileStorageService.Deletado | src/main/java/br/ufsm/smpp/service/FileStorageService.java:56-63 | deleteIfExists at uploads/&lt;name&gt;, normalised: a file is removed; an empty uploads/ (the name "" or ".") is removed; a missing path changes nothing; a non-empty directory or an I/O failure gives RuntimeException("Falha ao deletar o arquivo: " + name) and no change; every other file is kept |
| FileStorageService.DeleteEmptyUploads | src/main/java/br/ufsm/smpp/service/FileStorageService.java:58-59 | deleting "" or "." when uploads/ exists and is empty removes uploads/ and succeeds |
| FileStorageService.DeleteFullUploads | src/main/java/br/ufsm/smpp/service/FileStorageService.java:58-61 | deleting "" when uploads/ holds a file fails with RuntimeException("Falha ao deletar o arquivo: ") |
| FileStorageService.DeleteIdempotent | src/main/java/br/ufsm/smpp/service/FileStorageService.java:59 | after a successful delete, deleting the same name again succeeds and changes nothing |
| ArquivosService.LoadAsResource | src/main/java/br/ufsm/smpp/service/ArquivosService.java:17-29 | succeeds exactly when uploads/&lt;name&gt; exists (exists OR readable), otherwise the read failure |
| ArquivosService.AcceptsMoreThanFileStorage | src/main/java/br/ufsm/smpp/service/ArquivosService.java:21 | everything FileStorageService serves is served here too, and the empty name serves uploads/ itself here but not there |
| ArquivosService.ProbeContentType | src/main/java/br/ufsm/smpp/service/ArquivosService.java:31-37 | an IOException of the probe propagates unchanged; otherwise the probed type unchanged, or "application/octet-stream" when the probe gives null |
| Paths.Normalize | src/main/java/br/ufsm/smpp/service/FileStorageService.java:37 | the normal form: no "." element, and ".." only at the front of a relative path |
| Paths.NormalizeIdempotent | src/main/java/br/ufsm/smpp/service/FileStorageService.java:37 | normalising twice is normalising once |
| Paths.PlainNameStaysInUploads | src/main/java/br/ufsm/smpp/service/FileStorageService.java:25-37 | a name without '/' that is not "." or ".." addresses a file directly in uploads/ |
| Paths.NoParentStaysInUploads | src/main/java/br/ufsm/smpp/service/FileStorageService.java:25-37 | a relative name without a ".." element stays under uploads/ |
| Paths.ParentNameEscapesUploads | src/main/java/br/ufsm/smpp/service/FileStorageService.java:58 | "../name" addresses name in the working directory, outside uploads/ |
| Paths.AbsoluteNameEscapesUploads | src/main/java/br/ufsm/smpp/service/FileStorageService.java:58 | an absolute name replaces uploads/ altogether |
| IncidenteService.BuscarEntidadePorId | src/main/java/br/ufsm/smpp/service/IncidenteService.java:25-28 | the stored incident, or EntityNotFound("Incidente não encontrado com ID: ", id) |
| IncidenteService.BuscarDtoPorId | src/main/java/br/ufsm/smpp/service/IncidenteService.java:30-32 | the stored (id, nome) pair, or not-found |
| IncidenteService.ListarTodos | src/main/java/br/ufsm/smpp/service/IncidenteService.java:21-23 | one (id, nome) pair per stored incident, each matching its row |
| IncidenteService.IncidenteService.Salvar | src/main/java/br/ufsm/smpp/service/IncidenteService.java:35-39 | inserts exactly one incident with the request's name under a fresh id, ignoring the request's id; a blank name or one already stored is refused with no change |
| IncidenteService.IncidenteService.Excluir | src/main/java/br/ufsm/smpp/service/IncidenteService.java:41-47 | fails with not-found exactly when the id is absent, with no change; otherwise removes exactly that incident |
| VulnerabilidadeService.ListarTodas | src/main/java/br/ufsm/smpp/service/VulnerabilidadeService.java:31-35 | every stored vulnerability once as its (id, nome), in ascending order of name |
| VulnerabilidadeService.SortByNome | src/main/java/br/ufsm/smpp/service/VulnerabilidadeService.java:33 | the sort is a permutation of its input |
| VulnerabilidadeService.SortByNomeSorted | src/main/java/br/ufsm/smpp/service/VulnerabilidadeService.java:26-33 | the sort's output is ascending in code-point order of the names |
| VulnerabilidadeService.NomeLeTotal | src/main/java/br/ufsm/smpp/service/VulnerabilidadeService.java:33 | any two names are comparable |
| VulnerabilidadeService.NomeLeTrans | src/main/java/br/ufsm/smpp/service/VulnerabilidadeService.java:33 | the name order is transitive |
| VulnerabilidadeService.BuscarPorId | src/main/java/br/ufsm/smpp/service/VulnerabilidadeService.java:45-49 | the stored vulnerability, or EntityNotFound with the id |
| VulnerabilidadeService.ToDto | src/main/java/br/ufsm/smpp/service/VulnerabilidadeService.java:57-59 | the DTO carries the entity's id and name |
| Seeds.SeedTable | src/main/java/br/ufsm/smpp/config/DataInitializer.java:70-86 | one row per listed name, the i-th name under the i-th id |
| Seeds.SeedTableContents | src/main/java/br/ufsm/smpp/config/DataInitializer.java:70-86 | the seeded table has as many rows as names, holds exactly the listed names, and satisfies the unique name column when no name repeats |
| Seeds.SeedIdempotent | src/main/java/br/ufsm/smpp/config/DataInitializer.java:69 | a table with rows is left alone, so seeding twice is seeding once |
| Seeds.SeedIfEmpty | src/main/java/br/ufsm/smpp/config/DataInitializer.java:68-87 | the guarded saveAll: an empty table receives exactly the seed rows; a table with rows is unchanged |
| ConfigDataInitializer.Admin | src/main/java/br/ufsm/smpp/config/DataInitializer.java:169-179 | the admin is "ADMINISTRADOR", admin@email.com, phone 00000000000, role ADMIN, with the encoded password |
| ConfigDataInitializer.SeedListSizes | src/main/java/br/ufsm/smpp/config/DataInitializer.java:70-161 | 28 activities, 5 vulnerabilities, 26 cities, 5 incidents and 4 occurrence types |
| ConfigDataInitializer.AtividadesDistinct | src/main/java/br/ufsm/smpp/config/DataInitializer.java:70-85 | no activity name repeats |
| ConfigDataInitializer.CidadesDistinct | src/main/java/br/ufsm/smpp/config/DataInitializer.java:114-126 | no city name repeats |
| ConfigDataInitializer.OthersDistinct | src/main/java/br/ufsm/smpp/config/DataInitializer.java:95-161 | no vulnerability, incident or occurrence type name repeats |
| ConfigDataInitializer.SeedsRespectUniqueColumns | src/main/java/br/ufsm/smpp/config/DataInitializer.java:53-62 | every seeded table satisfies its unique name column, so no saveAll that init makes is refused by a unique constraint |
| ConfigDataInitializer.InitLeavesTablesNonEmpty | src/main/java/br/ufsm/smpp/config/DataInitializer.java:55-62 | after init every reference table has rows, and a second init changes none of them |
| ConfigDataInitializer.AdminRules | src/main/java/br/ufsm/smpp/config/DataInitializer.java:169-179 | the admin is added only to an empty user table, as its only row; the table stays valid and a second run changes nothing |
| ConfigDataInitializer.DataInitializer.InitAdminUser | src/main/java/br/ufsm/smpp/config/DataInitializer.java:169-179 | the user table after the step is the admin-seeded one |
| ConfigDataInitializer.DataInitializer.Init | src/main/java/br/ufsm/smpp/config/DataInitializer.java:53-62 | each of the five reference tables is seeded if empty and left alone otherwise, and the admin is added to an empty user table |
| InfraDataInitializer.Admin | src/main/java/br/ufsm/smpp/infra/initializer/DataInitializer.java:104-112 | the admin is "ADMINISTRADOR", admin@email.com, role ADMIN, with the encoded password |
| InfraDataInitializer.AdminCanLogIn | src/main/java/br/ufsm/smpp/infra/initializer/DataInitializer.java:104-112 | on a fresh database the seeded admin logs in with the seeded password and gets role ADMIN |
| InfraDataInitializer.AdminRules | src/main/java/br/ufsm/smpp/infra/initializer/DataInitializer.java:104 | the admin is added only to an empty user table; a second run changes nothing |
| InfraDataInitializer.DataInitializer.Init | src/main/java/br/ufsm/smpp/infra/initializer/DataInitializer.java:28-113 | activities, vulnerabilities and cities are seeded if empty, and the admin is added to an empty user table; incidents and types are not touched |
| Jwt.ExpirationFor | src/main/java/br/ufsm/smpp/security/JwtUtil.java:50 | now plus 86,400,000 ms when that fits in a long; past the long range the sum wraps below now |
| Jwt.WireTime | src/main/java/br/ufsm/smpp/security/JwtUtil.java:137-143 | a date read back from a token is the issued date cut to whole seconds |
| JavaLang.OneDayFitsInInt | src/main/java/br/ufsm/smpp/security/JwtUtil.java:50 | 1000*60*60*24 in int arithmetic is 86,400,000: no overflow |
| SecurityJwtUtil.JwtUtil.GerarTokenUsuario | src/main/java/br/ufsm/smpp/security/JwtUtil.java:40-53 | under a round-tripping codec, the token parses back at once to subject the e-mail, scope the role name, issued now and expiring one day later, both dates cut to whole seconds |
| SecurityJwtUtil.JwtUtil.GerarToken | src/main/java/br/ufsm/smpp/security/JwtUtil.java:62-70 | under a round-tripping codec, the token parses back at once to subject the e-mail, no scope, issued now and expiring one day later, cut to whole seconds |
| SecurityJwtUtil.JwtUtil.ExtrairEmail | src/main/java/br/ufsm/smpp/security/JwtUtil.java:78-80 | the subject of the parsed claims, or the parse failure |
| SecurityJwtUtil.JwtUtil.IsTokenExpired | src/main/java/br/ufsm/smpp/security/JwtUtil.java:102-104 | expired exactly when the expiration is strictly before now |
| SecurityJwtUtil.JwtUtil.IsTokenValid | src/main/java/br/ufsm/smpp/security/JwtUtil.java:91-94 | true exactly when the subject equals the username and the token has not expired; a token without subject throws |
| SecurityJwtUtil.IssuedTokenValid | src/main/java/br/ufsm/smpp/security/JwtUtil.java:40-53 | a token issued for a user carries their e-mail as subject and their role as scope, and stays valid for them for the following day |
| SecurityJwtUtil.EmailTokenValid | src/main/java/br/ufsm/smpp/security/JwtUtil.java:62-69 | a token issued for an e-mail is valid for the user with that e-mail during the following day |
| SecurityJwtUtil.TokenForOtherUserInvalid | src/main/java/br/ufsm/smpp/security/JwtUtil.java:91-94 | a token for one e-mail is never valid for a user with another |
| InfraJwtUtil.JwtUtil.GerarToken | src/main/java/br/ufsm/smpp/infra/security/JwtUtil.java:21-29 | under a round-tripping codec, the token parses back at once to subject the e-mail, issued now and expiring one day later, cut to whole seconds |
| InfraJwtUtil.JwtUtil.ExtrairEmail | src/main/java/br/ufsm/smpp/infra/security/JwtUtil.java:31-33 | the subject of the parsed claims, or the parse failure |
| InfraJwtUtil.JwtUtil.IsTokenExpired | src/main/java/br/ufsm/smpp/infra/security/JwtUtil.java:40-42 | expired exactly when the expiration is strictly before now |
| InfraJwtUtil.JwtUtil.IsTokenValid | src/main/java/br/ufsm/smpp/infra/security/JwtUtil.java:35-38 | true exactly when the subject equals the username and the token has not expired |
| InfraJwtUtil.IssuedTokenValid | src/main/java/br/ufsm/smpp/infra/security/JwtUtil.java:21-33 | extrairEmail(gerarToken(e)) is e, and the token is valid for its user for the following day |
| InfraJwtUtil.WrappedExpiration | src/main/java/br/ufsm/smpp/infra/security/JwtUtil.java:26 | near the top of the long range the expiration wraps to a negative instant |
| BearerHeader.BearerToken | src/main/java/br/ufsm/smpp/security/JwtAuthFilter.java:62-68 | a token exactly when the header is present and starts with "Bearer ", and the header is "Bearer " followed by the token |
| BearerHeader.BearerOf | src/main/java/br/ufsm/smpp/infra/security/JwtAuthFilter.java:38-39 | stripping "Bearer " from "Bearer " + t gives t |
| SecurityJwtAuthFilter.Authenticate | src/main/java/br/ufsm/smpp/security/JwtAuthFilter.java:48-96 | no bearer header leaves the context as it was; an existing authentication is never replaced; a new one is set only for the stored user the subject names when the token is valid for them, with their authorities and null credentials |
| SecurityJwtAuthFilter.JwtAuthFilter.DoFilterInternal | src/main/java/br/ufsm/smpp/security/JwtAuthFilter.java:48-96 | the context ends as Authenticate says and the chain runs exactly once on every path that does not throw; a throwing path changes nothing |
| SecurityJwtAuthFilter.IssuedTokenAuthenticates | src/main/java/br/ufsm/smpp/security/JwtAuthFilter.java:74-91 | a request with a token issued to a stored user, within its day, ends authenticated as that user |
| InfraJwtAuthFilter.Authenticate | src/main/java/br/ufsm/smpp/infra/security/JwtAuthFilter.java:31-57 | the context is set, replacing any earlier authentication, exactly for the stored user the token's subject names, with the authority "ROLE_" + role; the token is not checked against the user |
| InfraJwtAuthFilter.JwtAuthFilter.DoFilterInternal | src/main/java/br/ufsm/smpp/infra/security/JwtAuthFilter.java:31-57 | the context ends as Authenticate says and the chain runs exactly once unless parsing throws |
| UsuarioEntity.Usuario.Authorities | src/main/java/br/ufsm/smpp/model/usuario/Usuario.java:49-53 | exactly one authority, "ROLE_ADMIN" for an admin and "ROLE_COMUM" otherwise |
| UsuarioEntity.UserDetailsOf | src/main/java/br/ufsm/smpp/model/usuario/Usuario.java:55-84 | the username is the e-mail, the password is the hash, and all four account flags hold |
| UsuarioEntity.Name | src/main/java/br/ufsm/smpp/model/usuario/Usuario.java:86-88 | the role name is "ADMIN" or "COMUM", "ADMIN" exactly for ADMIN |
| UsuarioEntity.FindByEmail | src/main/java/br/ufsm/smpp/model/usuario/Usuario.java:34-35 | with unique e-mails, the one stored user with that e-mail, or none exactly when no user has it |
| RootUsuarioEntity.Usuario.Authorities | src/main/java/br/ufsm/smpp/model/Usuario.java:77-80 | exactly one authority, "ROLE_" + the role name |
| RootUsuarioEntity.UserDetailsOf | src/main/java/br/ufsm/smpp/model/Usuario.java:87-100 | the username is the e-mail and the password is the hash |
| RootUsuarioEntity.Name | src/main/java/br/ufsm/smpp/model/Usuario.java:105-114 | the role is one of ADMIN and COMUM |
| RootUsuarioEntity.FindByEmail | src/main/java/br/ufsm/smpp/repository/UsuarioRepository.java:9 | with unique e-mails, the one stored user with that e-mail, or none exactly when no user has it |
| ModelUsuarioDtos.ValidCreate | src/main/java/br/ufsm/smpp/model/usuario/UsuarioDTOs.java:17-23 | a valid Create has a name, a well-formed e-mail, a phone and a password of at least six UTF-16 units |
| ModelUsuarioDtos.ValidUpdate | src/main/java/br/ufsm/smpp/model/usuario/UsuarioDTOs.java:29-35 | a valid Update has a name, a well-formed e-mail and a phone, and a new password, when given, of at least six UTF-16 units |
| ModelUsuarioDtos.CreateConstraints | src/main/java/br/ufsm/smpp/model/usuario/UsuarioDTOs.java:17-23 | the role text is unconstrained: changing it never changes validity |
| ModelUsuarioDtos.UpdatePasswordOptional | src/main/java/br/ufsm/smpp/model/usuario/UsuarioDTOs.java:29-35 | novaSenha may be null; six spaces pass @Size although the service treats them as blank |
| DtoUsuarioDtos.ValidCreate | src/main/java/br/ufsm/smpp/dto/UsuarioDTOs.java:29-35 | a valid Create has a name, a well-formed e-mail, a phone and a password of at least six UTF-16 units |
| DtoUsuarioDtos.ValidUpdate | src/main/java/br/ufsm/smpp/dto/UsuarioDTOs.java:47-54 | a valid Update has a name, a well-formed e-mail and a phone, and a new password, when given, of at least six UTF-16 units |
| DtoUsuarioDtos.CreateConstraints | src/main/java/br/ufsm/smpp/dto/UsuarioDTOs.java:29-35 | the role text is unconstrained: changing it never changes validity |
| DtoUsuarioDtos.UpdatePasswordsOptional | src/main/java/br/ufsm/smpp/dto/UsuarioDTOs.java:47-54 | novaSenha may be null, and tipoUsuario and senhaAtual are unconstrained |
| ModelAuthDtos.ValidLogin | src/main/java/br/ufsm/smpp/model/auth/AuthDTOs.java:13-16 | a valid login has a well-formed e-mail and a password that is not blank |
| ModelAuthDtos.ValidRegister | src/main/java/br/ufsm/smpp/model/auth/AuthDTOs.java:19-24 | a valid registration has a name, a well-formed e-mail, a phone and a password of at least six UTF-16 units |
| ModelAuthDtos.PasswordRules | src/main/java/br/ufsm/smpp/model/auth/AuthDTOs.java:13-24 | a three-letter password passes login but never registration |
| DtoAuthDtos.ValidLogin | src/main/java/br/ufsm/smpp/dto/AuthDTOs.java:25-28 | a valid login has a well-formed e-mail and a password that is not blank |
| DtoAuthDtos.ValidRegister | src/main/java/br/ufsm/smpp/dto/AuthDTOs.java:38-43 | a valid registration has a name, a well-formed e-mail, a phone and a password of at least six UTF-16 units |
| DtoAuthDtos.PasswordRules | src/main/java/br/ufsm/smpp/dto/AuthDTOs.java:25-43 | a three-letter password passes login but never registration |
| ModelPropriedadeDto.Valid | src/main/java/br/ufsm/smpp/model/propriedade/PropriedadeDTO.java:15-38 | a valid request has a city, at least one activity, coordinates and a name of 2 to 255 UTF-16 units |
| ModelPropriedadeDto.DtoConstraints | src/main/java/br/ufsm/smpp/model/propriedade/PropriedadeDTO.java:15-38 | owner, phone and vulnerabilities may be null: clearing them never changes validity |
| DtoPropriedadeDtos.ValidRequest | src/main/java/br/ufsm/smpp/dto/PropriedadeDTOs.java:32-50 | a valid request has a city, at least one activity, coordinates and a name of 2 to 255 UTF-16 units |
| DtoPropriedadeDtos.RequestConstraints | src/main/java/br/ufsm/smpp/dto/PropriedadeDTOs.java:32-50 | owner, phone and vulnerabilities are unconstrained: clearing them never changes validity |
| DtoPropriedadeDtos.NameTooShort | src/main/java/br/ufsm/smpp/dto/PropriedadeDTOs.java:33-35 | a one-character name is refused |
| ModelOcorrenciaDto.Valid | src/main/java/br/ufsm/smpp/model/ocorrencia/OcorrenciaDTO.java:18-34 | a valid request has a type, a property, a date no later than today and a description that is not blank |
| ModelOcorrenciaDto.DtoConstraints | src/main/java/br/ufsm/smpp/model/ocorrencia/OcorrenciaDTO.java:18-34 | today is accepted and tomorrow refused; incidents are optional; no length limit on the description |
| DtoOcorrenciaDtos.ValidRequest | src/main/java/br/ufsm/smpp/dto/OcorrenciaDTOs.java:31-46 | a valid request has a type, a property, a date no later than today and a description that is not blank |
| DtoOcorrenciaDtos.ValidUpdate | src/main/java/br/ufsm/smpp/dto/OcorrenciaDTOs.java:57-63 | a valid update has a type, a date no later than today and a description that is not blank |
| DtoOcorrenciaDtos.RequestConstraints | src/main/java/br/ufsm/smpp/dto/OcorrenciaDTOs.java:31-46 | today is accepted and tomorrow refused; incidents are optional |
| DtoOcorrenciaDtos.UpdateConstraints | src/main/java/br/ufsm/smpp/dto/OcorrenciaDTOs.java:57-63 | incidents and the photos to delete are optional: changing them never changes validity |
| Constraints.PasswordSizeCountsUtf16 | src/main/java/br/ufsm/smpp/dto/UsuarioDTOs.java:33 | @Size counts UTF-16 units: "abcd" and an emoji, five code points but six units, pass min 6; three copies of any two code points pass; five code points of the Basic Multilingual Plane never do |
| JavaLang.BlankAndTrimDisagree | src/main/java/br/ufsm/smpp/service/PropriedadeService.java:42-43 | String.isBlank and @NotBlank's trim disagree both ways (an ideographic space; a NUL) |
| JavaLang.AdminIgnoringCase | src/main/java/br/ufsm/smpp/service/UsuarioService.java:50 | exactly which strings equal "ADMIN" ignoring case |
| Repositories.FindById | src/main/java/br/ufsm/smpp/service/PropriedadeService.java:60 | the row for a present id; a null id gives IllegalArgument("The given id must not be null"); an absent one the caller's not-found |
| Repositories.ResolveAll | src/main/java/br/ufsm/smpp/service/PropriedadeService.java:67-80 | all ids resolve, giving the rows in order, or it fails naming the first missing one |
| Repositories.ListAll | src/main/java/br/ufsm/smpp/service/IncidenteService.java:21-23 | one (id, nome) per stored row, with distinct ids |

## Left out

- Controllers, HTTP status codes and request binding are not modelled. Services require what `@Valid` guarantees the controllers hand them: the `@NotNull`/`@NotBlank` fields the service copies are present. The ADMIN-only gating of some routes is not a precondition.
- The occurrence update and photo deletion paths that controllers call have no implementation in the repository. `OcorrenciaService.buscarPorId` and `salvar(Ocorrencia)` are plain repository delegation and are not modelled. `PropriedadeService.listarPorUsuario` is also not modelled: it is a repository query.
- CidadeService, AtividadeService and TipoOcorrenciaService are not modelled. They repeat IncidenteService's find-or-throw, which `Repositories.FindById` covers.
- The framework configuration is not modelled: SecurityConfig, ApplicationConfig, both WebConfig classes and the infra UserDetailsService. The root filter's user lookup is `UsuarioEntity.FindByEmail`-style lookup on the root user table.
- BCrypt is modelled as an opaque encoder. Only `matches(p, encode(p))` is assumed, and only as a lemma hypothesis.
- JWT signing and parsing are left out: HMAC-SHA256, the key derivation (UTF-8 bytes in one utility, Base64 in the other) and the parser's own expiry rejection. They are an opaque codec, and the round trip is a hypothesis that holds only while the token's expiration second has not passed (`Jwt.Live`).
- Several environment effects are parameters rather than state:
  - the real file system, beyond a map of regular files and whether `uploads/` exists;
  - failures of `Files.createDirectories`, which are assumed not to happen;
  - a `transferTo` failure of its own (a full disk, a lost upload), which is an input flag per upload; the missing directory and directory-in-the-way failures are modelled;
  - the `MalformedURLException` branch of loadAsResource, which cannot arise for a file path and is not modelled;
  - UUID randomness, the wall clock and the `@Email` pattern;
  - the `System.out.println` in the infra filter.
- OcorrenciaService.SlashedNameFails: assumes that nothing already lies below uploads/&lt;uuid&gt;_&lt;prefix&gt;, which for a freshly drawn UUID holds unless such a directory was made by hand.
- OcorrenciaEntity.FitsColumn: counts UTF-16 units, as Java's `length()` does. A `varchar(n)` column in the database counts characters, so a description with characters outside the Basic Multilingual Plane counts each of them twice here and may be refused while the database would take it.
- The model uses a single `now` per call. It does not model the clock moving between the steps of one filter run.
- JPA is abstracted:
  - Hibernate's merge of a detached entity whose id is unknown: `PropriedadeService.PropriedadeService.Salvar` inserts such a property under the fresh id.
  - Null elements inside id lists are not modelled; a list is a `seq<Uuid>`.
  - Managed-entity aliasing and flush order are not modelled; entities are values.
  - The ids of photo rows are not modelled.
  - The foreign-key refusal of deleting a property, incident or user that other rows still reference.
- Rollback is not modelled. The comment on `init` (config/DataInitializer.java:47-52) promises one transaction, but Spring does not apply `@Transactional` to a `@PostConstruct` call, so each `saveAll` commits on its own. `ConfigDataInitializer.SeedsRespectUniqueColumns` shows that no seeding step is refused by a unique constraint.
- The seeded rows get the identifiers 0..n-1. Their real ids are UUIDs drawn by the database. When both initializers share tables, they are the same seed over the same table, and the model does not combine them.
- VulnerabilidadeService.ListarTodas: `Sort.by("nome")` runs in the database under its collation. The model sorts by code point (`NomeLe`). That is neither the collation nor `String.compareTo`, which compares UTF-16 units: the two disagree when a character from U+E000 to U+FFFF meets a supplementary one. For example, "Ａ" (U+FF21) comes before "😀" (U+1F600) by code point but after it by `compareTo`.
- JavaLang.ToUpper, JavaLang.ToLower: the model does case mapping only for characters whose case-mapped form is ASCII. Those are the only characters that can matter when comparing with "ADMIN".
- Some code does not compile as written because the packages disagree: `dto.nome` field access on a record, `cidadeService.buscarPorId`, `dto.cidade` against `cidadeId`, `orElseThrow` on an entity, and `dto.getPropriedadeId()` on a record. In each case the model follows the evident intent: record accessors, and repository lookups with the messages the code gives.
- PropriedadeService.PropriedadeService.Salvar: a property with a blank owner name or phone persists, because the newer entity checks only for null. The older entity's `@NotBlank` is modelled separately, in `RootPropriedadeEntity.Valid`.

## Findings

| source | as written | input that shows it | evidently intended | confidence | as-written member | corrected member |
|---|---|---|---|---|---|---|
| src/main/java/br/ufsm/smpp/service/PropriedadeService.java:65-66 | fromDTO passes the request's owner name and phone straight to the `@NonNull` setters, so a null owner throws a NullPointerException | a valid PropriedadeDTO with `proprietario` and `telefoneProprietario` null and every referenced id stored (PropriedadeDTO.java:26-28 says the owner is optional and will be taken from the logged-in user) | a missing owner is left unset, for salvar to fill in from the authenticated user | medium, not executed | PropriedadeService.FromDtoRejectsOmittedOwner | PropriedadeService.OmittedOwnerIsDefaulted |
| src/main/java/br/ufsm/smpp/service/PropriedadeService.java:77-80 | fromDTO streams `dto.vulnerabilidades()` without a null check, so a request without the optional list throws | a valid PropriedadeDTO with owner and phone given and `vulnerabilidades` null (PropriedadeDTO.java:36-37 marks the list as optional) | a missing list leaves the property without vulnerabilities, which the entity allows | medium, not executed | PropriedadeService.FromDtoRejectsOmittedVulnerabilidades | PropriedadeService.FromDtoCorrigido |
