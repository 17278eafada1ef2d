/**
 * `SingleHostSession` (cmscloud_client/client.py:64-75): a session bound to
 * one host, which joins every request path onto that host. The HTTP
 * exchange itself belongs to the `requests` library and is not modelled; a
 * response is given as `HttpReply`: either a connection failure (a
 * `ConnectionError` or `Timeout`) or a status code with a body.
 */
module Session {
  import Text

  datatype HttpReply = NetworkFailure | Reply(status: nat, content: string)

  /** `requests.Response.ok`: false exactly for client and server errors. */
  predicate IsOk(status: nat) {
    !(400 <= status < 600)
  }

  /**
   * `address.rstrip('/') + url`: the address up to its trailing slashes
   * (the first `k` characters, where the address holds only slashes from `k`
   * on and character `k - 1` is not one), then the path.
   */
  function JoinUrl(address: string, url: string): (r: string)
    ensures |url| <= |r| && r[|r| - |url|..] == url
    ensures var k := |r| - |url|;
      && k <= |address| && r[..k] == address[..k]
      && (forall i :: k <= i < |address| ==> address[i] == '/')
      && (k == 0 || address[k - 1] != '/')
  {
    var host := Text.TrimRightChar(address, '/');
    var r := host + url;
    assert r[..|host|] == host && r[|host|..] == url;
    r
  }

  /** Trailing slashes on the configured address make no difference to any URL. */
  lemma {:induction false} JoinUrlIgnoresTrailingSlash(address: string, url: string)
    ensures JoinUrl(address + "/", url) == JoinUrl(address, url)
  {
    assert (address + "/")[..|address|] == address;
  }

  class SingleHostSession {
    /** The address the session was opened on. */
    const address: string
    /** `self.host`: the address with its trailing slashes removed. */
    const host: string
    /** The default headers sent with every request. */
    var headers: map<string, string>

    ghost predicate Valid() {
      host == Text.TrimRightChar(address, '/')
    }

    constructor (address0: string, headers0: map<string, string>)
      ensures Valid() && address == address0 && headers == headers0
    {
      address := address0;
      host := Text.TrimRightChar(address0, '/');
      headers := headers0;
    }

    /** The URL `request` sends a request for `url` to: `self.host + url`. */
    function RequestUrl(url: string): (r: string)
      requires Valid()
      ensures r == JoinUrl(address, url)
    {
      host + url
    }
  }
}
