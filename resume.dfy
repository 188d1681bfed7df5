/** The resume decision both pipelines make when they start: a saved state
    is taken up again only when it belongs to the same export file. */
module Resume {
  import opened Wrappers
  import opened Dicts
  import opened Json

  /** What reading the state file gives: no file, text that is not JSON
      (`JSONDecodeError`, which is caught), or a decoded document. */
  datatype SavedFile = NoFile | Unreadable | Document(data: Json.Value)

  /** The saved state is for `exportFile`: a JSON object whose
      "export_file" is that very string. */
  predicate SameExport(exportFile: string, saved: SavedFile) {
    saved.Document? && saved.data.Obj? && Get(saved.data.fields, "export_file") == Some(Str(exportFile))
  }

  /** `_load_state`: `initial` unless the file holds a state for the same
      export file, which is then read by `fromDict`. A document that is not
      an object (`.get` on it fails) and a state that `fromDict` rejects
      raise. */
  function LoadState<S>(exportFile: string, saved: SavedFile, fromDict: Dict -> Option<S>, initial: S): (r: Outcome<S>)
    ensures SameExport(exportFile, saved) ==>
      r == (match fromDict(saved.data.fields) case Some(s) => Returned(s) case None => Raised)
    ensures !SameExport(exportFile, saved) ==>
      r == if saved.Document? && !saved.data.Obj? then Raised else Returned(initial)
  {
    match saved
    case NoFile => Returned(initial)
    case Unreadable => Returned(initial)
    case Document(v) =>
      if !v.Obj? then Raised
      else if Get(v.fields, "export_file") == Some(Str(exportFile)) then
        (match fromDict(v.fields)
         case Some(s) => Returned(s)
         case None => Raised)
      else Returned(initial)
  }
}
