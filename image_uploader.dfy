/**
 * The upload component's file-selection handler: it either rejects an
 * oversized file (an alert, and the parent is not told), or passes the
 * parent's `onImageChange` callback a file with its preview, or nothing.
 */
module ImageUploader {
  import opened Common

  /** The parts of a browser `File` the application looks at. */
  datatype ImageFile = ImageFile(name: string, size: nat, mimeType: string)

  /** The size ceiling: 4 MiB, compared strictly. */
  const MaxImageBytes: nat := 4 * 1024 * 1024

  /** What a handler does: show the "too large" alert and stop, or call
      `onImageChange(file, preview)` with these arguments. */
  datatype UploadEffect =
    | Rejected
    | Changed(file: Option<ImageFile>, preview: Option<string>)

  /** The change handler of the hidden file input. `files` is the input's
      file list (absent or empty when the user cancelled), `previewUrl` the
      object URL the browser would create for the first file. */
  function HandleFileChange(files: Option<seq<ImageFile>>, previewUrl: string): (e: UploadEffect)
    ensures e.Rejected? <==> files.Some? && |files.value| > 0 && files.value[0].size > MaxImageBytes
    ensures e == Changed(None, None) <==> files.None? || |files.value| == 0
    ensures e.Changed? ==> (e.file.Some? <==> e.preview.Some?)
    ensures e.Changed? && e.file.Some? ==>
      && files.Some? && |files.value| > 0
      && e.file.value == files.value[0]
      && e.file.value.size <= MaxImageBytes
      && e.preview == Some(previewUrl)
  {
    var first := if files.Some? && |files.value| > 0 then Some(files.value[0]) else None;
    match first
    case Some(file) =>
      if file.size > MaxImageBytes then Rejected
      else Changed(Some(file), Some(previewUrl))
    case None => Changed(None, None)
  }

  /** The "Remove Image" button: always tells the parent there is no image. */
  function HandleRemoveImage(): (e: UploadEffect)
    ensures e.Changed? && e.file.None? && e.preview.None?
  {
    Changed(None, None)
  }

  /** A file of exactly 4 MiB is accepted; one byte more is rejected. */
  lemma SizeCeilingIsInclusive(name: string, mimeType: string, url: string)
    ensures HandleFileChange(Some([ImageFile(name, MaxImageBytes, mimeType)]), url)
         == Changed(Some(ImageFile(name, MaxImageBytes, mimeType)), Some(url))
    ensures HandleFileChange(Some([ImageFile(name, MaxImageBytes + 1, mimeType)]), url) == Rejected
  {
  }

  /** Only the first selected file matters. */
  lemma OnlyFirstFileMatters(files: seq<ImageFile>, more: seq<ImageFile>, url: string)
    requires |files| > 0
    ensures HandleFileChange(Some(files + more), url) == HandleFileChange(Some(files[..1]), url)
  {
    assert (files + more)[0] == files[0] == files[..1][0];
  }
}
