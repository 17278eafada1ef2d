/**
 * Option and Result types, and the fixed user-facing messages of `Client`
 * (cmscloud_client/client.py:93-94 and the literals inside its methods).
 */
module Common {
  import Text

  datatype Option<+T> = None | Some(value: T)

  /** A `(True, value)` or `(False, message)` pair. */
  datatype Result<+T> = Ok(value: T) | Err(message: string)

  const DirectoryAlreadySyncingMessage := "Directory already syncing."
  const NetworkErrorMessage := "Network error.\nPlease check your connection and try again later."
  const MissingSitenameMessage := "Please specify a sitename using --sitename."
  const AbortedMessage := "Aborted"
  const UnexpectedResponsePrefix := "Unexpected HTTP Response "

  function MismatchMessage(dirSitename: string): string {
    "This directory is already being synced with website \"" + dirSitename + "\""
  }

  /**
   * The failure message of `sync` and `sites` for an unexpected status: the
   * status line, then on a second line the body, which is shown only for
   * statuses below 500.
   */
  function UnexpectedResponseMessage(status: nat, content: string): (r: string)
    ensures var line := UnexpectedResponsePrefix + Text.NatToDecimal(status);
      r == if status < 500 then line + "\n" + content else line
  {
    var line := UnexpectedResponsePrefix + Text.NatToDecimal(status);
    var parts := [line] + (if status < 500 then [content] else []);
    assert status < 500 ==> parts[1..] == [content] && Text.JoinNewline(parts[1..]) == content;
    assert status >= 500 ==> |parts| == 1 && parts[0] == line;
    Text.JoinNewline(parts)
  }
}
