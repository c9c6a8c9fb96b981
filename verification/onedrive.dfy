/** The OneDrive adapter, a placeholder: an empty listing and constant content. */
module OneDrive {
  import opened Wrappers
  import opened Records

  const PlaceholderContent: Bytes := AsciiBytes("placeholder_file_content")

  /** `list_files`: no files, for any URL, never raising. */
  function ListFiles(url: string): (r: Result<seq<FileInfo>>)
    ensures r.Ok? && |r.value| == 0
  {
    Ok([])
  }

  /** `download_file`: the constant content for any path, with one (100, 100) callback
      exactly when a callback is given. */
  function DownloadFile(path: string, hasCallback: bool): (r: AdapterCall<Bytes>)
    ensures r.result.Ok? && r.result.value == PlaceholderContent
    ensures |r.callbacks| == (if hasCallback then 1 else 0)
    ensures forall i :: 0 <= i < |r.callbacks| ==> r.callbacks[i] == Progress(100, 100)
  {
    AdapterCall(if hasCallback then [Progress(100, 100)] else [], Ok(PlaceholderContent))
  }
}
