/** A file the browser hands to a drop zone or a file input, as the pages see it. */
module BrowserFile {

  /** The `name` and `type` (MIME type) of a `File`, and the text `readAsText` yields for it. */
  datatype FileInfo = FileInfo(name: string, mimeType: string, content: string)
}
