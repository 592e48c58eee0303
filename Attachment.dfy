/**
  The file attached to a notification (`NtfyAttachment`): its metadata, the local
  path it was downloaded to, and the labels the UI shows for it.
*/
module Attachment {
  import opened Wrappers
  import opened Decimal

  /**
    How an attachment download ends. The network request, the app-group container
    lookup and the file move are not modelled; their outcome is an input.
  */
  datatype DownloadOutcome =
    | InvalidUrl           // `URL(string: url)` gave nil
    | TransportError       // the download task reported an error
    | MissingResponse      // no response or no downloaded file
    | NoSharedContainer    // the app-group container could not be found
    | InvalidFileUrl       // the destination URL could not be formed
    | FileError            // creating the directory or moving the file threw
    | Moved(path: string)  // the file now lives at `path`

  const EXPIRES_PREFIX := "Expires "
  const BYTES_SUFFIX := " B"

  class NtfyAttachment {
    var id: int
    var name: string
    var fileType: string   // `type` in the source
    var size: int          // an Int64 byte count
    var expires: int       // an Int64 Unix time
    var url: string
    var contentUrl: string // the local path once downloaded, "" before

    constructor (id: int, name: string, fileType: string := "", size: int := 0,
                 expires: int := 0, url: string := "", contentUrl: string := "")
      ensures this.id == id && this.name == name && this.fileType == fileType
      ensures this.size == size && this.expires == expires
      ensures this.url == url && this.contentUrl == contentUrl
      ensures IsDownloaded() <==> contentUrl != ""
    {
      this.id := id;
      this.name := name;
      this.fileType := fileType;
      this.size := size;
      this.expires := expires;
      this.url := url;
      this.contentUrl := contentUrl;
    }

    /** An attachment counts as downloaded once it has a local path. */
    predicate IsDownloaded(): (r: bool)
      reads this
      ensures r <==> |contentUrl| > 0
    {
      contentUrl != ""
    }

    /** The size label for sizes below 1000 bytes: the byte count, then " B". */
    function SizeString(): (r: string)
      reads this
      requires size < 1000
      ensures |r| > |BYTES_SUFFIX| && r[|r| - |BYTES_SUFFIX|..] == BYTES_SUFFIX
      ensures ParseInt(r[..|r| - |BYTES_SUFFIX|]) == Some(size)
      ensures CanonicalNumeral(r[..|r| - |BYTES_SUFFIX|])
    {
      var digits := IntToDecimal(size);
      IntToDecimalRoundTrip(size);
      assert (digits + BYTES_SUFFIX)[..|digits|] == digits;
      digits + BYTES_SUFFIX
    }

    /** "Expires " followed by the expiry time in decimal. */
    function ExpiresString(): (r: string)
      reads this
      ensures |r| > |EXPIRES_PREFIX| && r[..|EXPIRES_PREFIX|] == EXPIRES_PREFIX
      ensures ParseInt(r[|EXPIRES_PREFIX|..]) == Some(expires)
      ensures CanonicalNumeral(r[|EXPIRES_PREFIX|..])
    {
      var digits := IntToDecimal(expires);
      IntToDecimalRoundTrip(expires);
      assert (EXPIRES_PREFIX + digits)[|EXPIRES_PREFIX|..] == digits;
      EXPIRES_PREFIX + digits
    }

    /**
      The state effect of `download`: only a successful move records the local path and
      saves the attachment; every other exit leaves the attachment as it was.
    */
    method Download(outcome: DownloadOutcome) returns (saved: bool)
      modifies this`contentUrl
      ensures saved <==> outcome.Moved?
      ensures contentUrl == (if outcome.Moved? then outcome.path else old(contentUrl))
      ensures outcome.Moved? ==> (IsDownloaded() <==> outcome.path != "")
      ensures !outcome.Moved? ==> IsDownloaded() == old(IsDownloaded())
    {
      saved := false;
      match outcome
      case Moved(path) =>
        contentUrl := path;
        saved := true;
      case _ =>
    }
  }
}
