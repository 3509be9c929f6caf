/** The Pocket service plugin (services/pocket.py): a pure request-to-params
    mapping and a pure URL template. */
module Pocket {
  import opened Wrappers

  /** `POCKET_URL` up to the `{token}` placeholder. */
  const URL_PREFIX: string := "https://getpocket.com/auth/authorize?request_token="

  /** `POCKET_URL` between the `{token}` and `{uri}` placeholders. */
  const URL_MIDDLE: string := "&redirect_uri="

  /** `parse_creation(request_body, request_qs)`: the params stored with a new
      flow hold the body's `token`, or the empty string when it has none. */
  function ParseCreation(body: map<string, string>, qs: map<string, string>): (params: map<string, string>)
    ensures params.Keys == {"token"}
    ensures "token" in body ==> params["token"] == body["token"]
    ensures "token" !in body ==> params["token"] == ""
  {
    map["token" := if "token" in body then body["token"] else ""]
  }

  /** The text `str.format` puts in place of `info.get('token')`: the token, or
      `None` spelled out when the stored params have no token. */
  function TokenText(info: map<string, string>): (t: string)
    ensures "token" in info ==> t == info["token"]
    ensures "token" !in info ==> t == "None"
  {
    if "token" in info then info["token"] else "None"
  }

  /** `redirect_url(info, redirect_uri)`: the template filled with the token and
      the callback URI, both inserted verbatim. */
  function RedirectUrl(info: map<string, string>, uri: string): (url: string)
    ensures |url| == |URL_PREFIX| + |TokenText(info)| + |URL_MIDDLE| + |uri|
    ensures url[..|URL_PREFIX|] == URL_PREFIX
    ensures url[|URL_PREFIX|..|URL_PREFIX| + |TokenText(info)|] == TokenText(info)
    ensures url[|URL_PREFIX| + |TokenText(info)|..|url| - |uri|] == URL_MIDDLE
    ensures url[|url| - |uri|..] == uri
  {
    URL_PREFIX + TokenText(info) + URL_MIDDLE + uri
  }

  /** The query string never influences the stored params. */
  lemma ParseCreationIgnoresQuery(body: map<string, string>, qs1: map<string, string>, qs2: map<string, string>)
    ensures ParseCreation(body, qs1) == ParseCreation(body, qs2)
  {
  }

  /** Given the token's length, the URL determines the token and the callback
      URI: nothing is lost by the verbatim insertion. */
  lemma RedirectUrlDetermines(info1: map<string, string>, uri1: string, info2: map<string, string>, uri2: string)
    requires |TokenText(info1)| == |TokenText(info2)|
    requires RedirectUrl(info1, uri1) == RedirectUrl(info2, uri2)
    ensures TokenText(info1) == TokenText(info2)
    ensures uri1 == uri2
  {
  }
}
