/**
  `App` of main.py: the Graph client that holds the OAuth credentials,
  refreshes them before each request when they are stale, lists children and
  versions, and deletes old versions. Every remote effect is appended to a
  ghost log of calls; the clock, the token endpoint's answer and the bodies
  of GET responses are parameters.
*/
module Client {
  import opened Wrappers
  import opened Responses
  import opened Endpoints
  import Pruning

  /** The tokens in `config`: `access_token`, `refresh_token` and `expires_at` (epoch seconds). */
  datatype Credentials = Credentials(accessToken: string, refreshToken: string, expiresAt: int)

  /** The token endpoint's answer to a refresh: new tokens and their lifetime `expires_in` in seconds. */
  datatype Grant = Grant(accessToken: string, refreshToken: string, expiresIn: int)

  /** A remote call: a refresh-token grant, or a Graph request with its bearer token. */
  datatype Call =
    | RefreshToken(refreshToken: string)
    | Get(url: string, bearer: string)
    | Delete(url: string, bearer: string)

  /**
    Seconds after `expires_at` during which the stored token is still used:
    `check_token` refreshes only once the token expired more than this long ago.
  */
  const SafetyMargin := 60

  /** A token is stale when it expired more than SafetyMargin seconds before `now`. */
  predicate NeedsRefresh(expiresAt: int, now: int) {
    expiresAt < now - SafetyMargin
  }

  /**
    The credentials after `check_token` at time `now`: the stored ones when
    they are not stale, otherwise the granted tokens with `expires_at = now +
    expires_in`. A grant of a non-negative lifetime always leaves them not
    stale, with a later expiry than before.
  */
  function Checked(c: Credentials, now: int, grant: Grant): (r: Credentials)
    ensures !NeedsRefresh(c.expiresAt, now) ==> r == c
    ensures grant.expiresIn >= -SafetyMargin ==> !NeedsRefresh(r.expiresAt, now)
    ensures NeedsRefresh(c.expiresAt, now) && grant.expiresIn >= 0 ==> r.expiresAt > c.expiresAt
    ensures NeedsRefresh(c.expiresAt, now) ==> r.accessToken == grant.accessToken && r.refreshToken == grant.refreshToken
  {
    if NeedsRefresh(c.expiresAt, now) then
      Credentials(grant.accessToken, grant.refreshToken, now + grant.expiresIn)
    else c
  }

  /** The calls `check_token` makes: one refresh with the stored refresh token when stale, none otherwise. */
  function RefreshCalls(c: Credentials, now: int): (calls: seq<Call>)
    ensures |calls| == (if NeedsRefresh(c.expiresAt, now) then 1 else 0)
    ensures forall i :: 0 <= i < |calls| ==> calls[i] == RefreshToken(c.refreshToken)
  {
    if NeedsRefresh(c.expiresAt, now) then [RefreshToken(c.refreshToken)] else []
  }

  /**
    A token that expired less than SafetyMargin seconds ago is kept: no
    refresh is made, and the expired access token is the one the next request
    sends.
  */
  lemma ExpiredTokenStillUsed(c: Credentials, now: int, grant: Grant)
    requires now - SafetyMargin <= c.expiresAt < now
    ensures Checked(c, now, grant) == c && Checked(c, now, grant).expiresAt < now
    ensures RefreshCalls(c, now) == []
  {
  }

  /** One DELETE per version, in the given order, each with the same bearer token. */
  function DeleteCalls(graphUrl: string, itemId: string, versions: seq<int>, bearer: string): seq<Call> {
    seq(|versions|, i requires 0 <= i < |versions| => Delete(VersionUrl(graphUrl, itemId, versions[i]), bearer))
  }

  /** The DELETE requests go to pairwise distinct URLs exactly when the versions are pairwise distinct. */
  lemma DeleteCallsDistinct(graphUrl: string, itemId: string, versions: seq<int>, bearer: string)
    ensures var calls := DeleteCalls(graphUrl, itemId, versions, bearer);
      |calls| == |versions| &&
      forall i, j :: 0 <= i < j < |versions| ==> (calls[i].url == calls[j].url <==> versions[i] == versions[j])
  {
    var calls := DeleteCalls(graphUrl, itemId, versions, bearer);
    forall i, j | 0 <= i < j < |versions| && calls[i].url == calls[j].url
      ensures versions[i] == versions[j]
    {
      VersionUrlInjective(graphUrl, itemId, versions[i], versions[j]);
    }
  }

  class App {
    const graphUrl: string
    var credentials: Credentials
    /** Every remote call made so far, oldest first. */
    ghost var log: seq<Call>

    /** `App()` once `load_config` has read the stored credentials. */
    constructor (loaded: Credentials)
      ensures graphUrl == GraphUrl && credentials == loaded && log == []
    {
      graphUrl := GraphUrl;
      credentials := loaded;
      log := [];
    }

    /** `check_token`: refresh exactly when `expires_at < now - 60`, then reload the stored tokens. */
    method CheckToken(now: int, grant: Grant)
      modifies this
      ensures credentials == Checked(old(credentials), now, grant)
      ensures log == old(log) + RefreshCalls(old(credentials), now)
    {
      if NeedsRefresh(credentials.expiresAt, now) {
        log := log + [RefreshToken(credentials.refreshToken)];
        credentials := Credentials(grant.accessToken, grant.refreshToken, now + grant.expiresIn);
      }
    }

    /** `get_items_by_path`: check the token, GET the children of `path`, map the response to item records. */
    method GetItemsByPath(path: string, now: int, grant: Grant, body: seq<JsonObject>)
      returns (r: Result<seq<Entry>, PyError>)
      modifies this
      ensures credentials == Checked(old(credentials), now, grant)
      ensures log == old(log) + RefreshCalls(old(credentials), now) +
                     [Get(ChildrenByPathUrl(graphUrl, path), credentials.accessToken)]
      ensures r == Processed(body, GetItemsTag)
    {
      CheckToken(now, grant);
      log := log + [Get(ChildrenByPathUrl(graphUrl, path), credentials.accessToken)];
      r := ProcessData(body, GetItemsTag);
    }

    /** `get_items_by_id`: check the token, GET the children of the item, map the response to item records. */
    method GetItemsById(itemId: string, now: int, grant: Grant, body: seq<JsonObject>)
      returns (r: Result<seq<Entry>, PyError>)
      modifies this
      ensures credentials == Checked(old(credentials), now, grant)
      ensures log == old(log) + RefreshCalls(old(credentials), now) +
                     [Get(ChildrenByIdUrl(graphUrl, itemId), credentials.accessToken)]
      ensures r == Processed(body, GetItemsTag)
    {
      CheckToken(now, grant);
      log := log + [Get(ChildrenByIdUrl(graphUrl, itemId), credentials.accessToken)];
      r := ProcessData(body, GetItemsTag);
    }

    /** `list_versions`: check the token, GET the versions of the item, map the response to version numbers. */
    method ListVersions(itemId: string, now: int, grant: Grant, body: seq<JsonObject>)
      returns (r: Result<seq<int>, PyError>)
      modifies this
      ensures credentials == Checked(old(credentials), now, grant)
      ensures log == old(log) + RefreshCalls(old(credentials), now) +
                     [Get(VersionsUrl(graphUrl, itemId), credentials.accessToken)]
      ensures r == ListedVersions(body)
    {
      CheckToken(now, grant);
      log := log + [Get(VersionsUrl(graphUrl, itemId), credentials.accessToken)];
      var entries := ProcessData(body, ListVersionsTag);
      if entries.Err? {
        r := Err(entries.error);
      } else {
        ProcessedVersions(body);
        r := Ok(seq(|entries.value|, i requires 0 <= i < |entries.value| => entries.value[i].number));
      }
    }

    /** The loop of `delete_old_versions`: one DELETE per version of `tail`, in order. */
    method SendDeletes(itemId: string, tail: seq<int>)
      modifies this
      ensures credentials == old(credentials)
      ensures log == old(log) + DeleteCalls(graphUrl, itemId, tail, credentials.accessToken)
    {
      for i := 0 to |tail|
        invariant credentials == old(credentials)
        invariant log == old(log) + DeleteCalls(graphUrl, itemId, tail[..i], credentials.accessToken)
      {
        assert DeleteCalls(graphUrl, itemId, tail[..i + 1], credentials.accessToken) ==
               DeleteCalls(graphUrl, itemId, tail[..i], credentials.accessToken) +
               [Delete(VersionUrl(graphUrl, itemId, tail[i]), credentials.accessToken)];
        log := log + [Delete(VersionUrl(graphUrl, itemId, tail[i]), credentials.accessToken)];
      }
      assert tail[..|tail|] == tail;
    }

    /** `delete_old_versions` from line 82 on, once the version list is known. */
    method PruneVersions(itemId: string, list: array<int>, keep: int, now: int, grant: Grant)
      modifies this, list
      ensures list[..] == Pruning.SortDesc(old(list[..]))
      ensures credentials == Checked(old(credentials), now, grant)
      ensures log == old(log) + RefreshCalls(old(credentials), now) +
                     DeleteCalls(graphUrl, itemId, Pruning.Discarded(old(list[..]), keep), credentials.accessToken)
    {
      CheckToken(now, grant);
      Pruning.SortDescending(list);
      SendDeletes(itemId, list[Pruning.SliceStart(keep, list.Length)..]);
    }

    /**
      `delete_old_versions(item_id, versions=None, keep=1)`: list the versions when none are given, check the
      token, sort the versions newest first in place, and send one DELETE per
      version after the first `keep`. The statuses of the DELETEs are not
      looked at, so one failed deletion does not stop the others.
    */
    method DeleteOldVersions(itemId: string, now: int, grant: Grant, listing: seq<JsonObject>,
                             versions: array?<int> := null, keep: int := 1)
      returns (failure: Option<PyError>)
      modifies this, versions
      ensures versions != null ==>
        && failure == None
        && versions[..] == Pruning.SortDesc(old(versions[..]))
        && credentials == Checked(old(credentials), now, grant)
        && log == old(log) + RefreshCalls(old(credentials), now) +
                  DeleteCalls(graphUrl, itemId, Pruning.Discarded(old(versions[..]), keep), credentials.accessToken)
      ensures versions == null ==>
        var listed := ListedVersions(listing);
        var afterListing := Checked(old(credentials), now, grant);
        var listingLog := old(log) + RefreshCalls(old(credentials), now) +
                          [Get(VersionsUrl(graphUrl, itemId), afterListing.accessToken)];
        if listed.Err? then
          && failure == Some(listed.error)
          && credentials == afterListing
          && log == listingLog
        else
          && failure == None
          && credentials == Checked(afterListing, now, grant)
          && log == listingLog + RefreshCalls(afterListing, now) +
                    DeleteCalls(graphUrl, itemId, Pruning.Discarded(listed.value, keep), credentials.accessToken)
    {
      if versions == null {
        var listed := ListVersions(itemId, now, grant, listing);
        if listed.Err? {
          return Some(listed.error);
        }
        var list := new int[|listed.value|](i requires 0 <= i < |listed.value| => listed.value[i]);
        assert list[..] == listed.value;
        PruneVersions(itemId, list, keep, now, grant);
      } else {
        PruneVersions(itemId, versions, keep, now, grant);
      }
      failure := None;
    }
  }
}
