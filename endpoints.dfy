/** The Microsoft Graph endpoints the client addresses, built by string concatenation. */
module Endpoints {
  import opened Wrappers
  import FloatText

  /** `config['graph_url']` as `App.__init__` sets it. */
  const GraphUrl := "https://graph.microsoft.com/v1.0"

  const RootPathPrefix := "/me/drive/root:/"
  const PathChildrenSuffix := ":/children"

  function RootChildrenUrl(graphUrl: string): string {
    graphUrl + "/me/drive/root/children"
  }

  /** The listing URL of `get_items_by_path`: the root's children for "/", the path-scoped endpoint otherwise. */
  function ChildrenByPathUrl(graphUrl: string, path: string): string {
    if path == "/" then RootChildrenUrl(graphUrl)
    else graphUrl + RootPathPrefix + path + PathChildrenSuffix
  }

  /** The listing URL of `get_items_by_id`. */
  function ChildrenByIdUrl(graphUrl: string, itemId: string): string {
    graphUrl + "/me/drive/items/" + itemId + "/children"
  }

  /** The listing URL of `list_versions`. */
  function VersionsUrl(graphUrl: string, itemId: string): string {
    graphUrl + "/me/drive/items/" + itemId + "/versions"
  }

  /** The URL `delete_old_versions` sends one DELETE to, per discarded version. */
  function VersionUrl(graphUrl: string, itemId: string, version: int): string {
    VersionsUrl(graphUrl, itemId) + "/" + FloatText.FormatFloat(version)
  }

  /** The path a children-by-path URL addresses; the inverse of ChildrenByPathUrl. */
  function PathOfChildrenUrl(graphUrl: string, url: string): Option<string> {
    var prefix := graphUrl + RootPathPrefix;
    if url == RootChildrenUrl(graphUrl) then Some("/")
    else if |prefix| + |PathChildrenSuffix| <= |url| && url[..|prefix|] == prefix
            && url[|url| - |PathChildrenSuffix|..] == PathChildrenSuffix
    then Some(url[|prefix|..|url| - |PathChildrenSuffix|])
    else None
  }

  /** `get_items_by_path` lists the root's children exactly when the path is "/". */
  lemma ChildrenByPathIsRootIff(graphUrl: string, path: string)
    ensures ChildrenByPathUrl(graphUrl, path) == RootChildrenUrl(graphUrl) <==> path == "/"
  {
  }

  /** The path can be read back from the URL that lists it. */
  lemma ChildrenByPathRoundTrip(graphUrl: string, path: string)
    ensures PathOfChildrenUrl(graphUrl, ChildrenByPathUrl(graphUrl, path)) == Some(path)
  {
  }

  /** Distinct paths are listed through distinct URLs. */
  lemma ChildrenByPathInjective(graphUrl: string, p: string, q: string)
    requires ChildrenByPathUrl(graphUrl, p) == ChildrenByPathUrl(graphUrl, q)
    ensures p == q
  {
    ChildrenByPathRoundTrip(graphUrl, p);
    ChildrenByPathRoundTrip(graphUrl, q);
  }

  /** Distinct versions of one item are deleted through distinct URLs. */
  lemma VersionUrlInjective(graphUrl: string, itemId: string, v: int, w: int)
    requires VersionUrl(graphUrl, itemId, v) == VersionUrl(graphUrl, itemId, w)
    ensures v == w
  {
    var prefix := VersionsUrl(graphUrl, itemId) + "/";
    assert VersionUrl(graphUrl, itemId, v)[|prefix|..] == FloatText.FormatFloat(v);
    assert VersionUrl(graphUrl, itemId, w)[|prefix|..] == FloatText.FormatFloat(w);
    FloatText.FormatFloatInjective(v, w);
  }
}
