/** The template-engine side the loader plugs into: name resolution, the template sources it hands
    out, and the directory loader it may delegate to. */
module TemplateIo {
  import opened Outcomes
  import opened Archive

  /** The loader's name resolution from its prefix and suffix. The engine's own definition is not
      part of this model; plain concatenation stands in for it. */
  function Resolve(prefix: string, location: string, suffix: string): string
  {
    prefix + location + suffix
  }

  /** A template registered at run time: content (possibly null), the name it was uploaded under,
      and the time of the upload. */
  datatype UploadedTemplateSource = UploadedTemplateSource(content: Option<string>, name: string, lastModified: int)

  /** What a lookup hands to the engine, by variant. */
  datatype TemplateSource =
    | StringSource(filename: string, content: string)   // a template given as a string: the builtin one
    | UrlSource(filename: string, content: string)      // a file of the external directory
    | ZipSource(entry: ZipEntry)                        // an entry of the archive, read lazily
    | UploadedSource(upload: UploadedTemplateSource)

  /** A file of the external directory: readable with some content, or failing with an I/O error. */
  datatype FileState = Regular(content: string) | Unreadable(reason: string)

  /** The external directory loader: its own prefix and suffix, and the directory's files by path. */
  datatype FileTemplateLoader = FileTemplateLoader(prefix: string, suffix: string, files: map<string, FileState>) {

    /** Looks the resolved path up: a readable file gives its content, a missing file is a
        not-found for that path, any other problem an I/O failure. */
    function SourceAt(location: string): (r: Result<TemplateSource>)
      ensures var path := Resolve(prefix, location, suffix);
        && (r.Ok? <==> path in files && files[path].Regular?)
        && (r.Ok? ==> r.value == UrlSource(path, files[path].content))
        && (r.Err? && r.error.FileNotFound? <==> path !in files)
        && (r.Err? && r.error.FileNotFound? ==> r.error.path == path)
        && (r.Err? ==> r.error.FileNotFound? || r.error.IoFailure?)
    {
      var path := Resolve(prefix, location, suffix);
      if path !in files then Err(FileNotFound(path))
      else match files[path]
        case Regular(content) => Ok(UrlSource(path, content))
        case Unreadable(reason) => Err(IoFailure(reason))
    }
  }
}
