/** The compound template loader: resolves a logical name to a template source from the builtin
    template, the uploaded templates, an optional external directory and an optional archive. */
module Toolkit {
  import opened Outcomes
  import opened Archive
  import opened TemplateIo

  /** The reserved name of the builtin template. */
  const ImageAsPage: string := "default - image as page"
  /** The prefix that marks uploaded resources. */
  const UploadedResourcesPrefix: string := "upload://"
  /** The suffix appended to the key of an uploaded template. */
  const TemplatePostfix: string := ".hbs"
  /** Start of the message thrown when the archive misses a name and no directory is configured. */
  const NotFoundInJar: string := "File not found in jar, while no dir configuration "
  /** Message of the exception that wraps an archive read failure. */
  const WrongConfiguration: string := "Wrong configuration"

  /** Names of the references whose null dereference the model reports. */
  const ZipField: string := "zip"
  const ExternalLoaderField: string := "externalLoader"
  const UploadedValue: string := "uploadedResources value"

  /** Whether a location names an uploaded resource; such a name is never the builtin one. */
  function IsUploadedResource(location: string): (b: bool)
    ensures b ==> location != ImageAsPage
  {
    assert ImageAsPage[0] != UploadedResourcesPrefix[0];
    UploadedResourcesPrefix <= location
  }

  /** The key under which an upload of a resource name is stored. */
  function UploadKey(resourceName: string): string
  {
    UploadedResourcesPrefix + resourceName + TemplatePostfix
  }

  /** Proof helper: the upload name of a resource name is routed to the upload map. */
  lemma UploadNameIsUploaded(resourceName: string)
    ensures IsUploadedResource(UploadedResourcesPrefix + resourceName)
  {
  }

  class CompoundTemplateLoader {
    /** Content of the builtin template, loaded once at start-up. */
    const imageAsPageBody: string
    /** The archive, null when none is configured. */
    const zip: Option<ZipFile>
    /** Archive entries by name, filled once by the constructor. */
    var resources: map<string, ZipEntry>
    /** Uploaded templates by key. */
    var uploadedResources: map<string, UploadedTemplateSource>
    /** The external directory loader, null when none is configured. */
    var externalLoader: Option<FileTemplateLoader>
    /** This loader's own name resolution settings. */
    var prefix: string
    var suffix: string

    /** The index holds exactly the archive's entries (none without an archive). */
    ghost predicate Valid()
      reads this
    {
      resources == (if zip.Some? then Index(zip.value.entries) else map[])
    }

    /** Builds the loader from its configuration: the directory loader and the archive are taken as
        given, and every archive entry is registered under its name, in archive order. */
    constructor (templates: Option<FileTemplateLoader>, jar: Option<ZipFile>, imageAsPageBody: string,
                 prefix: string, suffix: string)
      ensures Valid()
      ensures zip == jar && externalLoader == templates && uploadedResources == map[]
      ensures this.imageAsPageBody == imageAsPageBody && this.prefix == prefix && this.suffix == suffix
    {
      this.imageAsPageBody := imageAsPageBody;
      this.prefix := prefix;
      this.suffix := suffix;
      externalLoader := templates;
      zip := jar;
      resources := map[];
      uploadedResources := map[];
      new;
      if jar.Some? {
        var entries := jar.value.entries;
        var i := 0;
        while i < |entries|
          invariant i <= |entries|
          invariant resources == Index(entries[..i])
          invariant externalLoader == templates && uploadedResources == map[]
          invariant this.prefix == prefix && this.suffix == suffix
        {
          assert entries[..i + 1][..i] == entries[..i];
          RegisterResource(entries[i]);
          i := i + 1;
        }
        assert entries[..i] == entries;
      }
    }

    /** Registers one archive entry under its name, replacing an earlier entry of that name.
        Private to the constructor's index build: a later call would break Valid(). */
    method RegisterResource(entry: ZipEntry)
      modifies this`resources
      ensures resources == old(resources)[entry.name := entry]
    {
      resources := resources[entry.name := entry];
    }

    /** The builtin template. */
    function ImageAsPageTemplate(): TemplateSource
    {
      StringSource(ImageAsPage, imageAsPageBody)
    }

    /** The name looked up in the archive: the resolved location with one leading '/' removed. */
    function NormalizedName(location: string): (name: string)
      reads this
      ensures var full := Resolve(prefix, location, suffix);
        && ("/" <= full ==> "/" + name == full)
        && (!("/" <= full) ==> name == full)
    {
      var full := Resolve(prefix, location, suffix);
      if "/" <= full then full[1..] else full
    }

    /** Archive lookup of a location, given the directory's not-found path if there was one:
        it succeeds exactly when the archive holds the normalised name and then gives that entry;
        a miss rethrows the directory's not-found, or without one is an illegal state; a missing
        archive is a null dereference. */
    function TemplateSourceAt(location: string, notFound: Option<string>): (r: Result<Option<TemplateSource>>)
      reads this
      ensures r.Ok? <==> zip.Some? && NormalizedName(location) in Names(zip.value.entries)
      ensures r.Ok? ==>
        && r.value.Some? && r.value.value.ZipSource?
        && r.value.value.entry.name == NormalizedName(location) && r.value.value.entry in zip.value.entries
      ensures r.Err? ==> r.error == if zip.None? then NullPointer(ZipField)
                                    else if notFound.Some? then FileNotFound(notFound.value)
                                    else IllegalState(NotFoundInJar + NormalizedName(location))
    {
      var name := NormalizedName(location);
      match zip
      case None => Err(NullPointer(ZipField))
      case Some(archive) =>
        match archive.GetEntry(name)
        case Some(entry) => Ok(Some(ZipSource(entry)))
        case None =>
          if notFound.None? then Err(IllegalState(NotFoundInJar + name))
          else Err(FileNotFound(notFound.value))
    }

    /** Resolves a location. The builtin name gives the builtin template; an upload name gives what
        is stored under it with the template suffix, or null, and never fails; any other name never
        gives null, and whatever exception it throws comes from the backend it names. */
    function SourceAt(location: string): (r: Result<Option<TemplateSource>>)
      reads this
      ensures location == ImageAsPage ==> r == Ok(Some(StringSource(ImageAsPage, imageAsPageBody)))
      ensures IsUploadedResource(location) ==>
        && r.Ok?
        && (r.value.Some? <==> location + TemplatePostfix in uploadedResources)
        && (r.value.Some? ==> r.value.value == UploadedSource(uploadedResources[location + TemplatePostfix]))
      ensures location != ImageAsPage && !IsUploadedResource(location) && r.Ok? ==>
        r.value.Some? && (r.value.value.UrlSource? || r.value.value.ZipSource?)
      ensures r.Err? && r.error.FileNotFound? ==>
        externalLoader.Some? && externalLoader.value.SourceAt(location) == Err(r.error)
      ensures r.Err? && r.error.IoFailure? ==>
        externalLoader.Some? && externalLoader.value.SourceAt(location) == Err(r.error)
    {
      if location == ImageAsPage then
        Ok(Some(ImageAsPageTemplate()))
      else if IsUploadedResource(location) then
        var key := location + TemplatePostfix;
        Ok(if key in uploadedResources then Some(UploadedSource(uploadedResources[key])) else None)
      else
        match externalLoader
        case None => TemplateSourceAt(location, None)
        case Some(external) =>
          match external.SourceAt(location)
          case Ok(source) => Ok(Some(source))
          case Err(FileNotFound(path)) => TemplateSourceAt(location, Some(path))
          case Err(failure) => Err(failure)
    }

    /** Whether a location is known, by its raw name: uploads by key, anything else in the archive. */
    function HasResource(location: string): (b: bool)
      reads this
      ensures !IsUploadedResource(location) ==> (b <==> GetResource(location) != Ok(None))
      ensures IsUploadedResource(location) ==> (b <==> GetResource(location).Ok?)
    {
      if IsUploadedResource(location) then location in uploadedResources
      else location in resources
    }

    /** The content of a resource by its raw name. An upload gives its content (null for a cleared
        one) and dereferences null when the key is unknown; an archive name gives null when unknown,
        its content when readable, and a configuration error when the read fails. */
    function GetResource(location: string): (r: Result<Option<string>>)
      reads this
      ensures IsUploadedResource(location) ==>
        if location in uploadedResources then r == Ok(uploadedResources[location].content)
        else r == Err(NullPointer(UploadedValue))
      ensures !IsUploadedResource(location) ==> (r == Ok(None) <==> location !in resources)
      ensures !IsUploadedResource(location) && r.Ok? && r.value.Some? ==>
        resources[location].data == Readable(r.value.value)
      ensures !IsUploadedResource(location) && r.Err? ==>
        r.error == IllegalState(WrongConfiguration) && resources[location].data.Corrupt?
    {
      if IsUploadedResource(location) then
        if location in uploadedResources then Ok(uploadedResources[location].content)
        else Err(NullPointer(UploadedValue))
      else if location !in resources then Ok(None)
      else match resources[location].data
        case Readable(content) => Ok(Some(content))
        case Corrupt(_) => Err(IllegalState(WrongConfiguration))
    }

    /** The archive names that pass a filter. */
    function GetResources(filter: string -> bool): (names: set<string>)
      reads this
      ensures names <= resources.Keys
      ensures forall n | n in resources && filter(n) :: n in names
      ensures forall n | n in names :: filter(n)
    {
      set n | n in resources && filter(n)
    }

    /** Stores an upload under its key, replacing any earlier one: resolving the upload name then
        gives exactly this content, name and time; no other key and not the archive index change. */
    method UploadResource(resourceName: string, resource: Option<string>, now: int)
      requires Valid()
      modifies this`uploadedResources
      ensures Valid()
      ensures uploadedResources == old(uploadedResources)[UploadKey(resourceName) := UploadedTemplateSource(resource, resourceName, now)]
      ensures resources == old(resources)
      ensures SourceAt(UploadedResourcesPrefix + resourceName)
           == Ok(Some(UploadedSource(UploadedTemplateSource(resource, resourceName, now))))
    {
      var template := UploadedTemplateSource(resource, resourceName, now);
      uploadedResources := uploadedResources[UploadedResourcesPrefix + resourceName + TemplatePostfix := template];
      UploadNameIsUploaded(resourceName);
    }

    /** Sets the suffix of the directory loader and then of this loader; without a directory loader
        the dereference fails first and nothing changes. */
    method SetSuffix(suffix: string) returns (r: Outcome)
      requires Valid()
      modifies this`suffix, this`externalLoader
      ensures Valid()
      ensures old(externalLoader).None? ==>
        r == Fail(NullPointer(ExternalLoaderField)) && this.suffix == old(this.suffix) && externalLoader == old(externalLoader)
      ensures old(externalLoader).Some? ==>
        r == Pass && this.suffix == suffix && externalLoader == Some(old(externalLoader).value.(suffix := suffix))
      ensures externalLoader.Some? && r.Pass? ==> externalLoader.value.suffix == this.suffix
    {
      match externalLoader
      case None =>
        r := Fail(NullPointer(ExternalLoaderField));
      case Some(external) =>
        externalLoader := Some(external.(suffix := suffix));
        this.suffix := suffix;
        r := Pass;
    }

    /** Sets the prefix of the directory loader and then of this loader; without a directory loader
        the dereference fails first and nothing changes. */
    method SetPrefix(prefix: string) returns (r: Outcome)
      requires Valid()
      modifies this`prefix, this`externalLoader
      ensures Valid()
      ensures old(externalLoader).None? ==>
        r == Fail(NullPointer(ExternalLoaderField)) && this.prefix == old(this.prefix) && externalLoader == old(externalLoader)
      ensures old(externalLoader).Some? ==>
        r == Pass && this.prefix == prefix && externalLoader == Some(old(externalLoader).value.(prefix := prefix))
      ensures externalLoader.Some? && r.Pass? ==> externalLoader.value.prefix == this.prefix
    {
      match externalLoader
      case None =>
        r := Fail(NullPointer(ExternalLoaderField));
      case Some(external) =>
        externalLoader := Some(external.(prefix := prefix));
        this.prefix := prefix;
        r := Pass;
    }

    /** An uploaded template is found under its resource name with the prefix and without the suffix. */
    lemma UploadedNameResolves(resourceName: string)
      requires UploadKey(resourceName) in uploadedResources
      ensures SourceAt(UploadedResourcesPrefix + resourceName) == Ok(Some(UploadedSource(uploadedResources[UploadKey(resourceName)])))
    {
      UploadNameIsUploaded(resourceName);
    }

    /** An upload name under which nothing was uploaded resolves to null, whatever the backends hold. */
    lemma NeverUploadedIsNull(resourceName: string)
      requires UploadKey(resourceName) !in uploadedResources
      ensures SourceAt(UploadedResourcesPrefix + resourceName) == Ok(None)
    {
      UploadNameIsUploaded(resourceName);
    }

    /** The suffix asymmetry: a template uploaded under a resource name resolves under the upload name,
        but the raw lookups see only the full key, so for the upload name they find nothing and the
        content lookup dereferences null. */
    lemma RawLookupsNeedTheSuffix(resourceName: string)
      requires UploadKey(resourceName) in uploadedResources
      requires UploadedResourcesPrefix + resourceName !in uploadedResources
      ensures SourceAt(UploadedResourcesPrefix + resourceName).Ok?
      ensures SourceAt(UploadedResourcesPrefix + resourceName).value.Some?
      ensures !HasResource(UploadedResourcesPrefix + resourceName)
      ensures GetResource(UploadedResourcesPrefix + resourceName) == Err(NullPointer(UploadedValue))
      ensures HasResource(UploadKey(resourceName))
      ensures GetResource(UploadKey(resourceName)) == Ok(uploadedResources[UploadKey(resourceName)].content)
    {
      UploadNameIsUploaded(resourceName);
    }

    /** An illegal state comes only from an archive miss with no directory configured, and a null
        dereference only from a missing archive. */
    lemma FailuresNameTheirCause(location: string)
      ensures SourceAt(location).Err? && SourceAt(location).error.IllegalState? ==>
        externalLoader.None? && zip.Some? && NormalizedName(location) !in Names(zip.value.entries)
      ensures SourceAt(location).Err? && SourceAt(location).error.NullPointer? ==> zip.None?
    {
    }

    /** A name the directory finds is served from the directory; the archive is not consulted. */
    lemma ExternalFoundWins(location: string)
      requires location != ImageAsPage && !IsUploadedResource(location)
      requires externalLoader.Some? && externalLoader.value.SourceAt(location).Ok?
      ensures SourceAt(location) == Ok(Some(externalLoader.value.SourceAt(location).value))
      ensures SourceAt(location).value.value.UrlSource?
    {
    }

    /** A name the directory does not have falls back to the archive under its normalised name; a
        miss there rethrows the directory's own not-found. */
    lemma ExternalNotFoundFallsBack(location: string)
      requires location != ImageAsPage && !IsUploadedResource(location)
      requires externalLoader.Some? && externalLoader.value.SourceAt(location).Err?
      requires externalLoader.value.SourceAt(location).error.FileNotFound?
      ensures zip.None? ==> SourceAt(location) == Err(NullPointer(ZipField))
      ensures zip.Some? ==>
        var name := NormalizedName(location);
        if name in Names(zip.value.entries) then
          SourceAt(location) == Ok(Some(ZipSource(zip.value.GetEntry(name).value)))
        else
          SourceAt(location) == Err(externalLoader.value.SourceAt(location).error)
    {
    }

    /** Any other I/O failure of the directory propagates unchanged; the archive is not consulted. */
    lemma ExternalIoFailurePropagates(location: string)
      requires location != ImageAsPage && !IsUploadedResource(location)
      requires externalLoader.Some? && externalLoader.value.SourceAt(location).Err?
      requires !externalLoader.value.SourceAt(location).error.FileNotFound?
      ensures SourceAt(location) == Err(externalLoader.value.SourceAt(location).error)
    {
    }

    /** Without a directory, a name is served from the archive under its normalised name, and a miss
        is an illegal state naming that normalised name; a source is never returned on a miss. */
    lemma ArchiveOnly(location: string)
      requires location != ImageAsPage && !IsUploadedResource(location)
      requires externalLoader.None? && zip.Some?
      ensures var name := NormalizedName(location);
        if name in Names(zip.value.entries) then
          SourceAt(location) == Ok(Some(ZipSource(zip.value.GetEntry(name).value)))
        else
          SourceAt(location) == Err(IllegalState(NotFoundInJar + name))
    {
    }

    /** With neither a directory nor an archive, every ordinary name dereferences the null archive. */
    lemma NothingConfigured(location: string)
      requires location != ImageAsPage && !IsUploadedResource(location)
      requires externalLoader.None? && zip.None?
      ensures SourceAt(location) == Err(NullPointer(ZipField))
    {
    }

    /** Resolving an ordinary name from the archive agrees with the raw lookups at its normalised name:
        it succeeds exactly when that name is indexed, gives the indexed entry, and its readable
        content is what the content lookup returns. */
    lemma ArchiveSourceMatchesResource(location: string)
      requires Valid()
      requires location != ImageAsPage && !IsUploadedResource(location)
      requires !IsUploadedResource(NormalizedName(location))
      requires externalLoader.None?
      ensures SourceAt(location).Ok? <==> HasResource(NormalizedName(location))
      ensures SourceAt(location).Ok? ==> SourceAt(location).value == Some(ZipSource(resources[NormalizedName(location)]))
      ensures SourceAt(location).Ok? && resources[NormalizedName(location)].data.Readable? ==>
        GetResource(NormalizedName(location)) == Ok(Some(resources[NormalizedName(location)].data.content))
    {
    }

    /** The existence check agrees with the content lookup: an ordinary name is known exactly when its
        content lookup does not give null; an upload key is known exactly when its content lookup does
        not fail, and a cleared upload is known but gives null. */
    lemma HasResourceMatchesGetResource(location: string)
      ensures !IsUploadedResource(location) ==> (HasResource(location) <==> GetResource(location) != Ok(None))
      ensures !IsUploadedResource(location) && HasResource(location) && resources[location].data.Readable? ==>
        GetResource(location) == Ok(Some(resources[location].data.content))
      ensures IsUploadedResource(location) ==> (HasResource(location) <==> GetResource(location).Ok?)
      ensures IsUploadedResource(location) && HasResource(location) && uploadedResources[location].content.None? ==>
        GetResource(location) == Ok(None)
    {
    }

    /** The listed names are exactly the archive's entry names that pass the filter. */
    lemma ListedAreArchiveNames(filter: string -> bool)
      requires Valid()
      ensures GetResources(filter) == if zip.None? then {} else set n | n in Names(zip.value.entries) && filter(n)
    {
    }
  }

  /** The builtin name resolves the same whatever is configured: only the builtin body matters. */
  lemma BuiltinIgnoresConfiguration(a: CompoundTemplateLoader, b: CompoundTemplateLoader)
    requires a.imageAsPageBody == b.imageAsPageBody
    ensures a.SourceAt(ImageAsPage) == b.SourceAt(ImageAsPage)
    ensures a.SourceAt(ImageAsPage) == Ok(Some(StringSource(ImageAsPage, a.imageAsPageBody)))
  {
  }

  /** Upload names depend on the uploads only: the directory, the archive and the prefix and suffix
      are never consulted. */
  lemma UploadNamesIgnoreBackends(a: CompoundTemplateLoader, b: CompoundTemplateLoader, location: string)
    requires IsUploadedResource(location)
    requires a.uploadedResources == b.uploadedResources
    ensures a.SourceAt(location) == b.SourceAt(location)
  {
  }

  /** The raw lookups see the archive index and the uploads only: the directory, the archive handle,
      and the prefix and suffix play no part. */
  lemma RawLookupsIgnoreDirectory(a: CompoundTemplateLoader, b: CompoundTemplateLoader, location: string)
    requires a.resources == b.resources && a.uploadedResources == b.uploadedResources
    ensures a.HasResource(location) == b.HasResource(location)
    ensures a.GetResource(location) == b.GetResource(location)
  {
  }

  /** Setting the prefix and then the suffix succeeds exactly when a directory is configured, and then
      leaves both loaders with the same settings, so they resolve every location alike and a directory
      not-found names the name the archive lookup starts from; without a
      directory both calls fail and nothing changes. */
  method ConfigureBoth(loader: CompoundTemplateLoader, prefix: string, suffix: string)
    returns (prefixSet: Outcome, suffixSet: Outcome)
    requires loader.Valid()
    modifies loader`prefix, loader`suffix, loader`externalLoader
    ensures loader.Valid()
    ensures prefixSet.Pass? <==> old(loader.externalLoader).Some?
    ensures suffixSet == prefixSet
    ensures prefixSet.Pass? ==>
      && loader.prefix == prefix && loader.suffix == suffix
      && loader.externalLoader == Some(old(loader.externalLoader).value.(prefix := prefix, suffix := suffix))
      && (forall l :: Resolve(loader.externalLoader.value.prefix, l, loader.externalLoader.value.suffix)
                   == Resolve(loader.prefix, l, loader.suffix))
      && (forall l | Resolve(loader.prefix, l, loader.suffix) !in loader.externalLoader.value.files ::
            loader.externalLoader.value.SourceAt(l) == Err(FileNotFound(Resolve(loader.prefix, l, loader.suffix))))
    ensures prefixSet.Fail? ==>
      loader.prefix == old(loader.prefix) && loader.suffix == old(loader.suffix) && loader.externalLoader == old(loader.externalLoader)
    ensures loader.resources == old(loader.resources) && loader.uploadedResources == old(loader.uploadedResources)
  {
    prefixSet := loader.SetPrefix(prefix);
    suffixSet := loader.SetSuffix(suffix);
  }

  /** Uploading the same name twice keeps the later upload. */
  method UploadTwiceKeepsLast(loader: CompoundTemplateLoader, resourceName: string,
                              first: Option<string>, firstTime: int, second: Option<string>, secondTime: int)
    requires loader.Valid()
    modifies loader`uploadedResources
    ensures loader.Valid()
    ensures loader.SourceAt(UploadedResourcesPrefix + resourceName)
         == Ok(Some(UploadedSource(UploadedTemplateSource(second, resourceName, secondTime))))
    ensures loader.uploadedResources == old(loader.uploadedResources)[UploadKey(resourceName) := UploadedTemplateSource(second, resourceName, secondTime)]
  {
    loader.UploadResource(resourceName, first, firstTime);
    loader.UploadResource(resourceName, second, secondTime);
  }
}
