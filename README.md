# Clear OneDrive Files History Version — Dafny model of the Graph client core

The repository is a small maintenance script for OneDrive. It obtains OAuth2
tokens for Microsoft Graph, lists the children of a folder (by path or by id),
lists the versions of a file, and deletes every version except the newest
`keep` ones. This project models the statable core of its `App` class
(`main.py`):

- **Token check** (`check_token`): the stored credentials are refreshed
  exactly when `expires_at < now - 60`. The refresh is one `RefreshToken`
  call in a ghost log of remote calls. The token endpoint's answer is a
  `Grant` parameter, and the new expiry is `now + expires_in`, as
  `account.py` computes it.
- **Endpoint URLs** (`get_items_by_path`, `get_items_by_id`,
  `list_versions`, `delete_old_versions`): string concatenation over
  `graph_url`. The path `"/"` selects the root-children endpoint.
- **Response mapping** (`process_data`): a loop that appends one item
  record `{id, name, is_folder}` or one version number per element of the
  response's `value` array. Any other tag gives the empty list. A missing key
  or an id that `float` rejects raises the Python error, which is modelled as
  a `PyError`.
- **Version pruning** (`delete_old_versions`): the caller's list is sorted
  newest first in place (an `array<int>`). After that, one DELETE is logged
  per version after the first `keep`, in list order. When no list is given,
  the versions are listed first.

Modules:

- `Wrappers`: `Option` and `Result`.
- `FloatText`: `float()` of integral decimal text, and the `f'{float}'`
  rendering used in delete URLs.
- `Responses`: JSON elements and `process_data`.
- `Endpoints`: the URLs.
- `Pruning`: the descending order, the in-place sort, and the split into
  retained and discarded versions.
- `Client`: credentials, the call log, and class `App`.

Every GET and DELETE in the log carries the bearer token that was current
when it was sent. The clock (`now`), the token endpoint's answer (`grant`)
and GET response bodies are parameters. Nothing is read from a file or the
network.

`main.py` follows no pagination links and has no recursive folder pruning.
DELETE statuses are only printed. `delete_old_versions` calls `check_token`
a second time after listing, and the model does the same.

`check_token` has no safety margin before expiry. It refreshes only when the
token expired more than 60 seconds ago (`expires_at < now - 60`). Until then
the stored token, even an expired one, is kept and sent
(`Client.ExpiredTokenStillUsed`). "Stale" below means expired more than 60
seconds ago.

## Model

| member | source | states |
|---|---|---|
| `Client.Checked` | main.py:30-33 | credentials that are not stale (`expires_at >= now - 60`) are kept unchanged; stale ones are replaced by the granted tokens; a grant with `expires_in >= -60` leaves the token not stale at `now`, and a non-negative lifetime gives a strictly later expiry than the stale one |
| `Client.ExpiredTokenStillUsed` | main.py:31 | a token that expired less than 60 seconds ago (`now - 60 <= expires_at < now`) is kept with no refresh call, so the next request sends an expired token |
| `Client.RefreshCalls` | main.py:31-32 | exactly one refresh call, carrying the stored refresh token, when `expires_at < now - 60`; none otherwise |
| `Client.App.constructor` | main.py:10-15 | `graph_url` is `https://graph.microsoft.com/v1.0`, the credentials are the loaded ones, and no remote call has been made |
| `Client.App.CheckToken` | main.py:30-33 | the new credentials are `Checked(old credentials)`, and the log grows by exactly the refresh calls of `RefreshCalls` |
| `Client.App.GetItemsByPath` | main.py:61-67 | the token check comes first, then exactly one GET to the path's children URL with the current token; the result is `process_data(body, 'get_items')` |
| `Client.App.GetItemsById` | main.py:69-72 | the token check comes first, then exactly one GET to `/me/drive/items/{id}/children` with the current token; the result is `process_data(body, 'get_items')` |
| `Client.App.ListVersions` | main.py:74-77 | the token check comes first, then exactly one GET to `/me/drive/items/{id}/versions`; the result is the list of version numbers of the body, or the error `process_data` raises |
| `Client.App.SendDeletes` | main.py:84-86 | one DELETE per version, in order, each to that version's URL with the current token; the credentials do not change |
| `Client.App.PruneVersions` | main.py:82-86 | a token check, then the list sorted descending in place, then exactly the DELETEs of the discarded tail `sorted(versions, reverse=True)[keep:]`, newest first |
| `Client.App.DeleteOldVersions` | main.py:79-86 | `versions` defaults to none and `keep` to 1; a caller's list: no listing request, the list is left sorted descending (a permutation of the original), and the DELETEs are those of the discarded tail; no list: one listing GET first, and a listing error stops before any DELETE; otherwise a second token check, then the DELETEs of the discarded tail of the listed versions |
| `Client.DeleteCallsDistinct` | main.py:84-86 | there is one DELETE per discarded version, and two DELETEs go to the same URL exactly when their versions are equal |
| `Responses.ProcessData` | main.py:45-59 | the appending loops return exactly `Processed(values, tag)`: the converted elements in order, the first element's error, or `[]` for an unknown tag |
| `Responses.ConvertAllOk` | main.py:49-58 | the mapping succeeds exactly when every element converts; it then yields one entry per element, in input order |
| `Responses.ConvertAllErr` | main.py:49-58 | a failed mapping reports the error of the first element that fails, and every earlier element converts |
| `Responses.ConvertAllStopsAtError` | main.py:49-58 | once an element has failed, later elements do not affect the outcome |
| `Responses.ProcessedItems` | main.py:49-55 | with `'get_items'`, the result is one record `{id, name, is_folder}` per element, in order, with `is_folder` true exactly when the key `folder` is present; the mapping fails, with a KeyError, exactly when some element lacks `id` or `name` |
| `Responses.ProcessedVersions` | main.py:56-58 | with `'list_versions'`, the result is one `Version(float(id))` per element, in order; it fails exactly when some element lacks `id` or has an `id` that `float` rejects |
| `Responses.ListedVersions` | main.py:56-59 | the plain version list has one number per element, equal to `float` of that element's `id`, and it fails exactly when `process_data` fails, with the same error |
| `FloatText.LeadingDigits` | main.py:58 | the longest prefix made only of digits: every character in it is a digit, and the next one is not |
| `FloatText.FormatThenParse` | main.py:85 | parsing the rendering `f'{float(v)}'` of a version gives `v` back |
| `FloatText.FormatFloatInjective` | main.py:85 | distinct versions render to distinct text |
| `Endpoints.ChildrenByPathIsRootIff` | main.py:63-66 | `get_items_by_path` uses `graph_url + "/me/drive/root/children"` exactly when `path == "/"` |
| `Endpoints.ChildrenByPathRoundTrip` | main.py:63-66 | the path can be read back from its listing URL, so any other path gets `graph_url + "/me/drive/root:/" + path + ":/children"` |
| `Endpoints.ChildrenByPathInjective` | main.py:63-66 | distinct paths are listed through distinct URLs |
| `Endpoints.VersionUrlInjective` | main.py:85 | distinct versions of an item are deleted through distinct URLs |
| `Pruning.SortDesc` | main.py:83 | the reference descending order: non-increasing, with the same elements and multiplicities as the input |
| `Pruning.DescendingUnique` | main.py:83 | two non-increasing lists with the same elements are equal, so the sorted list, and with it what is deleted, depends only on the input's elements |
| `Pruning.SortDescending` | main.py:83 | sorts the array in place, and its new contents are exactly `SortDesc` of the old ones |
| `Pruning.IndexOfMax` | main.py:83 | returns the position of a largest element of the unsorted suffix |
| `Pruning.DiscardedCount` | main.py:84 | for `keep >= 0`, `max(0, len - keep)` versions are deleted: all of them for `keep = 0`, none once `keep >= len` |
| `Pruning.DiscardedBelowRetained` | main.py:83-84 | every deleted version is at most every retained version, and the deletions run from newest to oldest |
| `Pruning.PartitionIsPermutation` | main.py:83-84 | the retained prefix followed by the deleted tail is the sorted list, and together they are a permutation of the input |
| `Pruning.KeepOneOfThree` | main.py:83-86 | `keep = 1` on versions `[3, 1, 2]` retains `[3]` and deletes `2`, then `1` |

## Left out

- `account.py` as a whole is not part of this model: the browser launch, the local callback server on port 5000, the thread that shuts it down, the token POSTs and the YAML writes. It is I/O and a thread handoff. Its one computation, `expires_at = now + expires_in`, is used in `Client.Checked`.
- `load_config` (main.py:17-28) reads `config.yaml`. On a missing token it re-runs the interactive authorization and itself. This is file I/O with an unbounded re-entry. The constructor takes the loaded credentials instead, and a refresh installs the granted tokens directly, as if they had been written and read back.
- `get_drive` (main.py:38-43) only fetches the root listing and dumps it to a file.
- `generate_header` is not a separate member: each logged GET or DELETE records its bearer token.
- HTTP calls are entries in a ghost log. Their responses are not modelled. A GET's body is the `value` array given as a parameter, so a body without `value` (a KeyError in Python) is not modelled. DELETE status codes are only printed and are ignored.
- `print` output.
- Time: `time.time()` is the parameter `now`. One operation uses one `now` and one `grant` for both of its token checks, so time passing between the listing and the deletions of `delete_old_versions` is not modelled.
- `Responses.ToFloat`: Python's `float` is modelled only on integers, booleans and integral decimal text (an optional `-`, digits, optionally `.` and zeros). Fractional values, exponents, surrounding whitespace, `+`, underscores, `inf` and `nan` are outside the model, and such text is treated as a ValueError. Version numbers are integers, not floats.
- `FloatText.FormatFloat`: the rendering is `digits.0`. Python switches to exponent notation for magnitudes of 10^16 and more, and this is not modelled.
- `Pruning.SortDescending`: Python's sort is Timsort and this model sorts by selection. For integers the result is the same, the unique descending arrangement (`Pruning.DescendingUnique`).
- Item records keep `id` and `name` as the JSON values they were given. Python stores whatever the response holds, and nothing in the core converts them.
- Pagination (`@odata.nextLink`) and recursive folder pruning do not exist in the code, so there is nothing to model.
