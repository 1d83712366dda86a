/** `ObjectFormat` (cmd_ir/core.py): a compiled unit is saved together with
    the format version it was written in, and loading refuses an object of
    any other version. The pickle and zlib encoding around it is not
    modelled: the saved object is the pair itself. */
module ObjectFormat {
  import opened Common

  /** `ObjectFormat.VERSION`. */
  const Version: string := "1.0.0"

  /** An `ObjectFormat` object: the unit and the version it was saved in. */
  datatype Saved<T> = Saved(version: string, top: T)

  /** `ObjectFormat.load`: the object itself, wrapper and all, when it was
      written in the current version; the caller reads `top` from it. */
  function Load<T>(obj: Saved<T>): (r: Result<Saved<T>>)
    ensures r.Ok? <==> obj.version == Version
    ensures r.Ok? ==> r.value.version == Version && r.value.top == obj.top
    ensures r.Err? ==> r.error == VersionMismatch
  {
    if obj.version == Version then Ok(obj) else Err(VersionMismatch)
  }

  /** `ObjectFormat.save`: what it writes loads back as an object of the
      current version wrapping the same unit. */
  function Save<T(==)>(top: T): (r: Saved<T>)
    ensures Load(r).Ok? && Load(r).value.top == top
    ensures r.version == "1.0.0"
  {
    Saved(Version, top)
  }
}
