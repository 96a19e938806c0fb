/** The browser `File` objects the upload components receive. */
module Files {

  /** The three properties of a browser `File` the upload components read:
      its `name`, its MIME `type` and its `size` in bytes. */
  datatype File = File(name: string, mimeType: string, size: nat)

  /** The default `maxFileSize` of both upload components: 10 MiB. */
  const DefaultMaxFileSize: nat := 10 * 1024 * 1024

}
