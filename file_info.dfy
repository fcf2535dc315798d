/**
 * The `get_file_info` helper shared by the PDF to text, text to PDF and text
 * to Word tools. When the uploaded file object has a `path` attribute, the
 * helper stores under "path" the info dictionary itself rather than a file
 * path, so a later attempt to open "path" is handed a dictionary.
 */
module FileInfo {
  import opened Wrappers
  import opened Text

  /** What the info dictionary holds under "path". */
  datatype PathValue = FilePath(path: string) | SelfReference

  /** The "path" entry `get_file_info` produces: present only for objects with a `path` attribute, and then the dictionary itself. */
  function InfoPath(hasPathAttribute: bool): Option<PathValue> {
    if hasPathAttribute then Some(SelfReference) else None
  }

  /**
   * Whether opening the "path" entry succeeds: only a real path can be
   * opened, and then `readable` says whether the file at it opens.
   */
  predicate Opens(v: PathValue, readable: bool) {
    v.FilePath? && readable
  }

  /**
   * `_validate_input_file` of the text to PDF and text to Word tools: the
   * extension must end in ".txt" (any case), and a "path" entry, when present,
   * must open for reading. An absent extension makes `.lower()` raise, given
   * as None.
   */
  function ValidateText(extension: Option<string>, path: Option<PathValue>, readable: bool): (r: Option<bool>)
    ensures r.None? <==> extension.None?
    ensures r.Some? && r.value ==> EndsWith(Lower(extension.value), ".txt")
  {
    if extension.None? then None
    else if !EndsWith(Lower(extension.value), ".txt") then Some(false)
    else if path.Some? then Some(Opens(path.value, readable))
    else Some(true)
  }

  /**
   * An upload whose file object has a `path` attribute is refused even when
   * its extension is ".txt" and its file is readable; without the attribute
   * only the extension counts.
   */
  lemma {:induction false} ValidateTextUpload(extension: string, hasPathAttribute: bool, readable: bool)
    ensures ValidateText(Some(extension), InfoPath(hasPathAttribute), readable) ==
      Some(EndsWith(Lower(extension), ".txt") && !hasPathAttribute)
  {
  }
}
