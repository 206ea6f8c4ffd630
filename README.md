# Compound template loader

This is a model of `CompoundTemplateLoader` from Ukase. The loader turns a logical template or
resource name into content. It looks in four places:

- the builtin template, served under the reserved name `"default - image as page"`;
- the uploaded templates, an in-memory map written by `uploadResource` and keyed by
  `"upload://" + name + ".hbs"`;
- an optional external directory (a directory loader with its own prefix and suffix);
- an optional packaged archive (a zip file), whose entries are indexed by name when the loader is built.

`sourceAt` picks a backend by the shape of the name:

1. The builtin name gives the builtin template.
2. An `upload://` name is looked up in the upload map, with `.hbs` appended.
3. Any other name goes to the directory first, when one is configured. Only a not-found from the
   directory falls back to the archive.
4. The archive is searched under the resolved name, with one leading `/` removed.

`hasResource` and `getResource` look a name up exactly as given. They use the archive index and the
upload map and never ask the directory. `getResources` filters the archive's names. `setPrefix` and
`setSuffix` set the value on the directory loader and then on the compound loader.

Files:

- `outcomes.dfy`: Java's null and exceptions as values. `Option` stands for a nullable reference.
  `Failure` lists the NullPointer, IllegalState, FileNotFound and other IOException cases.
  `Result` and `Outcome` are a returned value or a thrown exception.
- `archive.dfy`: zip entries, whose read can fail. `Index` is the name→entry map you get by putting
  the entries in archive order, so the last entry with a name wins. `ZipFile.GetEntry` looks a name up.
- `template_io.dfy`: stand-ins for the template engine's side. `Resolve` is the name resolution.
  It also holds the template source variants (string, file, archive entry, upload) and the
  directory loader.
- `compound_template_loader.dfy`: the class `CompoundTemplateLoader` and the lemmas about it.
  Its fields are the archive, the index, the upload map, the directory loader, the prefix and the suffix.

Modelling choices:

- Every exception and every null dereference is an explicit `Err` value. NullPointerException
  appears in three places:
  - `zip` is dereferenced on an archive lookup when no archive is configured;
  - `externalLoader` is dereferenced in `setPrefix` and `setSuffix` when no directory is configured.
    The exception comes before either field is set, so nothing changes;
  - the map value is dereferenced in `getResource` for an `upload://` key that was never stored.
- With neither a directory nor an archive, an ordinary name dereferences the null `zip` and throws
  a NullPointerException (see `NothingConfigured`). The same happens with a directory but no
  archive when the directory does not have the name (see `ExternalNotFoundFallsBack`).
- An upload name that was never stored resolves to null rather than to a not-found (see
  `NeverUploadedIsNull`). An archive miss with no directory throws an IllegalStateException rather
  than a not-found (see `ArchiveOnly`).
- The directory loader is given the raw location and resolves it with its own prefix and suffix;
  only the archive lookup uses this loader's normalised name.
- A cleared upload (null content) is known to `hasResource` but gives null from `getResource`
  (see `HasResourceMatchesGetResource`).
- The code appends `.hbs` to upload names in `sourceAt` but not in `hasResource` or `getResource`.
  The model keeps this difference (see `RawLookupsNeedTheSuffix`).

## Model

| member | source | states |
|---|---|---|
| `Archive.Index` | core/src/main/java/com/github/ukase/toolkit/CompoundTemplateLoader.java:81 | The index built from the archive has exactly the archive's entry names as keys. Each key maps to an archive entry that carries that name. |
| `Archive.IndexKeepsLast` | core/src/main/java/com/github/ukase/toolkit/CompoundTemplateLoader.java:155-157 | The index keeps an entry when no later entry has the same name: the last `put` wins. |
| `Archive.ZipFile.GetEntry` | core/src/main/java/com/github/ukase/toolkit/CompoundTemplateLoader.java:164 | The archive lookup finds an entry exactly when the archive has that name. The entry found carries the name and belongs to the archive. |
| `TemplateIo.FileTemplateLoader.SourceAt` | core/src/main/java/com/github/ukase/toolkit/CompoundTemplateLoader.java:97 | The directory loader (an assumed stand-in) looks up the path resolved with its own prefix and suffix. A readable file gives its content. A missing file gives a not-found for that path. Any other problem gives an I/O failure and never a not-found. |
| `Toolkit.IsUploadedResource` | core/src/main/java/com/github/ukase/toolkit/CompoundTemplateLoader.java:174-176 | An upload-prefixed name is never the builtin name, so the first two routing cases never overlap. |
| `Toolkit.UploadNameIsUploaded` | core/src/main/java/com/github/ukase/toolkit/CompoundTemplateLoader.java:90-92 | Proof helper: `"upload://" + n` is an upload name, so `sourceAt` routes it to the upload map. |
| `Toolkit.CompoundTemplateLoader.constructor` | core/src/main/java/com/github/ukase/toolkit/CompoundTemplateLoader.java:69-82 | The constructor keeps the directory loader and the archive as configured, and the upload map starts empty. The loop registers the entries one by one. The index then equals `Index` of the archive's entries, or is empty without an archive. |
| `Toolkit.CompoundTemplateLoader.RegisterResource` | core/src/main/java/com/github/ukase/toolkit/CompoundTemplateLoader.java:155-157 | Registering an entry puts it under its own name and leaves all other keys as they were. |
| `Toolkit.CompoundTemplateLoader.NormalizedName` | core/src/main/java/com/github/ukase/toolkit/CompoundTemplateLoader.java:160-163 | The archive name is the resolved location with one leading `/` removed when present. Nothing else is removed. |
| `Toolkit.CompoundTemplateLoader.TemplateSourceAt` | core/src/main/java/com/github/ukase/toolkit/CompoundTemplateLoader.java:159-172 | The archive lookup succeeds exactly when the archive has the normalised name, and then returns that entry. A miss never returns a source. It rethrows the directory's not-found if there was one, and otherwise throws an IllegalState naming the normalised name. A missing archive is a null dereference. |
| `Toolkit.CompoundTemplateLoader.SourceAt` | core/src/main/java/com/github/ukase/toolkit/CompoundTemplateLoader.java:85-101 | The builtin name gives the builtin template. An upload name never fails: it gives the upload stored under name + `.hbs`, or null exactly when that key is absent. Other names never give null, and a source they give comes from the directory or the archive. A not-found or I/O failure that reaches the caller is the directory's own, unchanged. |
| `Toolkit.CompoundTemplateLoader.HasResource` | core/src/main/java/com/github/ukase/toolkit/CompoundTemplateLoader.java:115-120 | The existence check looks the raw name up. For an ordinary name it holds exactly when `getResource` is not null; for an upload key exactly when `getResource` does not throw. See also `HasResourceMatchesGetResource` and `RawLookupsIgnoreDirectory`. |
| `Toolkit.CompoundTemplateLoader.GetResource` | core/src/main/java/com/github/ukase/toolkit/CompoundTemplateLoader.java:122-140 | An upload key gives its content, which is null for a cleared upload. An unknown upload key is a null dereference. For an archive name, null means exactly that the name is unknown. Readable content is returned as it is. A read failure becomes IllegalState("Wrong configuration"). |
| `Toolkit.CompoundTemplateLoader.GetResources` | core/src/main/java/com/github/ukase/toolkit/CompoundTemplateLoader.java:142-144 | The result is exactly the indexed names that pass the filter. |
| `Toolkit.CompoundTemplateLoader.UploadResource` | core/src/main/java/com/github/ukase/toolkit/CompoundTemplateLoader.java:146-149 | The upload map changes only at `"upload://" + name + ".hbs"`, which now holds the given content, name and time. The archive index does not change. Resolving `"upload://" + name` then gives exactly that upload, and the object invariant `Valid()` (the index matches the archive) is kept. |
| `Toolkit.CompoundTemplateLoader.SetSuffix` | core/src/main/java/com/github/ukase/toolkit/CompoundTemplateLoader.java:103-107 | Without a directory loader the call is a null dereference and nothing changes. Otherwise the directory loader and this loader both get the suffix and then agree on it. `Valid()` is kept. |
| `Toolkit.CompoundTemplateLoader.SetPrefix` | core/src/main/java/com/github/ukase/toolkit/CompoundTemplateLoader.java:109-113 | Without a directory loader the call is a null dereference and nothing changes. Otherwise the directory loader and this loader both get the prefix and then agree on it. `Valid()` is kept. |
| `Toolkit.CompoundTemplateLoader.UploadedNameResolves` | core/src/main/java/com/github/ukase/toolkit/CompoundTemplateLoader.java:90-92 | Anything stored under the key of `n` is what `sourceAt("upload://" + n)` returns. |
| `Toolkit.CompoundTemplateLoader.NeverUploadedIsNull` | core/src/main/java/com/github/ukase/toolkit/CompoundTemplateLoader.java:90-92 | For a name never uploaded, `sourceAt("upload://" + n)` is null, whatever the directory and the archive hold. |
| `Toolkit.CompoundTemplateLoader.RawLookupsNeedTheSuffix` | core/src/main/java/com/github/ukase/toolkit/CompoundTemplateLoader.java:115-129 | Take an upload stored under its key, with nothing stored under the bare upload name. `sourceAt` finds it under the upload name. `hasResource` is false for that name and `getResource` dereferences null. Under the full key, both see the upload. |
| `Toolkit.CompoundTemplateLoader.FailuresNameTheirCause` | core/src/main/java/com/github/ukase/toolkit/CompoundTemplateLoader.java:159-170 | An IllegalState from `sourceAt` arises only when there is no directory and the archive lacks the normalised name. A null dereference arises only when there is no archive. |
| `Toolkit.CompoundTemplateLoader.ExternalFoundWins` | core/src/main/java/com/github/ukase/toolkit/CompoundTemplateLoader.java:93-97 | When the directory finds an ordinary name, its source is returned and the archive is not consulted. |
| `Toolkit.CompoundTemplateLoader.ExternalNotFoundFallsBack` | core/src/main/java/com/github/ukase/toolkit/CompoundTemplateLoader.java:93-100 | When the directory does not have a name, the archive entry under the normalised name is returned. If the archive lacks it too, the directory's own not-found is rethrown. With no archive configured, the fallback dereferences the null `zip`. |
| `Toolkit.CompoundTemplateLoader.ExternalIoFailurePropagates` | core/src/main/java/com/github/ukase/toolkit/CompoundTemplateLoader.java:93-100 | Any directory failure other than not-found propagates unchanged and does not fall back. |
| `Toolkit.CompoundTemplateLoader.ArchiveOnly` | core/src/main/java/com/github/ukase/toolkit/CompoundTemplateLoader.java:94-95 | Without a directory, an archive hit gives its entry. A miss throws IllegalState with the "not found in jar" message and the normalised name. |
| `Toolkit.CompoundTemplateLoader.NothingConfigured` | core/src/main/java/com/github/ukase/toolkit/CompoundTemplateLoader.java:159-164 | With neither a directory nor an archive, every ordinary name is a null dereference of the archive. |
| `Toolkit.CompoundTemplateLoader.ArchiveSourceMatchesResource` | core/src/main/java/com/github/ukase/toolkit/CompoundTemplateLoader.java:159-171 | Without a directory, `sourceAt` succeeds for an ordinary name exactly when `hasResource` holds for its normalised name. The entry it gives is the indexed one, and its readable content is what `getResource` returns for that name. |
| `Toolkit.CompoundTemplateLoader.HasResourceMatchesGetResource` | core/src/main/java/com/github/ukase/toolkit/CompoundTemplateLoader.java:115-140 | For an ordinary name, `hasResource` holds exactly when `getResource` is not null. For an upload key, it holds exactly when `getResource` does not throw. A cleared upload is known but gives null. |
| `Toolkit.CompoundTemplateLoader.ListedAreArchiveNames` | core/src/main/java/com/github/ukase/toolkit/CompoundTemplateLoader.java:142-144 | The listed names are exactly the archive's entry names that pass the filter. Uploads never appear, and without an archive the list is empty. |
| `Toolkit.BuiltinIgnoresConfiguration` | core/src/main/java/com/github/ukase/toolkit/CompoundTemplateLoader.java:86-89 | The builtin name resolves to the builtin template, the same for any directory, archive, uploads, prefix and suffix. |
| `Toolkit.UploadNamesIgnoreBackends` | core/src/main/java/com/github/ukase/toolkit/CompoundTemplateLoader.java:90-92 | An upload name resolves from the upload map alone. The directory, the archive, the prefix and the suffix play no part. |
| `Toolkit.RawLookupsIgnoreDirectory` | core/src/main/java/com/github/ukase/toolkit/CompoundTemplateLoader.java:115-140 | `hasResource` and `getResource` depend only on the index and the upload map. The directory and the prefix and suffix play no part. |
| `Toolkit.ConfigureBoth` | core/src/main/java/com/github/ukase/toolkit/CompoundTemplateLoader.java:103-113 | After `setPrefix(p)` and `setSuffix(s)`, both succeed exactly when a directory is configured. Then both loaders hold `p` and `s` and resolve every location to the same name, and a directory not-found names the resolved name the archive lookup starts from. Otherwise nothing changes; only the settings and the directory loader may change. |
| `Toolkit.UploadTwiceKeepsLast` | core/src/main/java/com/github/ukase/toolkit/CompoundTemplateLoader.java:146-149 | After two uploads under one name, resolving that name gives the second upload: the last write wins. Only the upload map changes; the settings, the directory loader and the index stay as they were. |

Helpers without a row: `Toolkit.UploadKey` is the key `"upload://" + name + ".hbs"` built at line 148;
`Toolkit.CompoundTemplateLoader.ImageAsPageTemplate` is the builtin template built at lines 54-57 and
returned at line 88; `Archive.Names` and `TemplateIo.Resolve` are auxiliary definitions.

## Left out

- Name resolution inside the template engine is not visible. `Resolve` assumes it is `prefix + location + suffix`. Any slash handling it does, and any normalising of a prefix as it is set, are not modelled.
- The initial prefix and suffix of both loaders are the engine's defaults, which are not visible. They are taken as inputs: the constructor's parameters for this loader, and the given directory loader value for the directory.
- Real I/O is taken as abstract inputs. Opening the archive (and the IOException when it cannot be opened), reading entry streams and reading files of the directory are not modelled. An entry's read result is carried by the entry. The directory is a map from path to file state.
- `ZipFile.getEntry` is modelled by the same last-wins index as the loader's own map. Its treatment of directory entries and of duplicate names is not modelled.
- The archive template source (`ZipTemplateSource`) is not part of this model. `sourceAt` returns the entry it would wrap, and its lazy content read is not modelled.
- The builtin template's body is loaded from a bundled file that is not part of this model. It is a constructor parameter kept in a constant.
- The upload time from `System.currentTimeMillis` is a parameter, stored as given.
- Threads and atomicity around the upload map are not modelled (the map is a plain `HashMap` anyway).
- Content is a string. The byte encoding done by `getBytes()` is not modelled.
- A null location is not modelled: locations are non-null strings.
- Logging is not modelled.
- The directory loader's own argument checks, such as rejecting an empty location, are not visible and not modelled.
- `Toolkit.CompoundTemplateLoader.GetResources`: returns a set rather than a list. Java returns the keys of a `HashMap` in no specified order, which a set states without inventing one.
- `ResourceProvider.java` is Spring wiring around the template engine and the PDF renderer and is not part of this model. The UI route file is not part of this model either.
