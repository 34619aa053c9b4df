/**
  `App.process_data`: turning the `value` array of a Microsoft Graph response
  into item records or version numbers, depending on a method tag.
*/
module Responses {
  import opened Wrappers
  import FloatText

  /** A JSON member value, as far as the client looks at it. */
  datatype JsonValue = JString(s: string) | JNumber(n: int) | JBool(b: bool) | JOther

  /** One element of a response's `value` array. */
  type JsonObject = map<string, JsonValue>

  /** The Python exceptions the mapping can raise. */
  datatype PyError = KeyError(key: string) | ValueError(text: string) | TypeError

  /** An element of the result list: an item record or a version number. */
  datatype Entry = Item(id: JsonValue, name: JsonValue, isFolder: bool) | Version(number: int)

  const GetItemsTag := "get_items"
  const ListVersionsTag := "list_versions"

  /** Python's `float(v)` on a JSON value. */
  function ToFloat(v: JsonValue): Result<int, PyError> {
    match v
    case JNumber(n) => Ok(n)
    case JBool(b) => Ok(if b then 1 else 0)
    case JString(s) =>
      (match FloatText.ParseDecimal(s)
       case Some(n) => Ok(n)
       case None => Err(ValueError(s)))
    case JOther => Err(TypeError)
  }

  /** The record `{id, name, is_folder}` built from one element; the keys are read in that order. */
  function ItemOf(v: JsonObject): Result<Entry, PyError> {
    if "id" !in v then Err(KeyError("id"))
    else if "name" !in v then Err(KeyError("name"))
    else Ok(Item(v["id"], v["name"], "folder" in v))
  }

  /** The version number `float(value['id'])` of one element. */
  function VersionOf(v: JsonObject): Result<Entry, PyError> {
    if "id" !in v then Err(KeyError("id"))
    else
      match ToFloat(v["id"])
      case Ok(n) => Ok(Version(n))
      case Err(e) => Err(e)
  }

  function Convert(tag: string, v: JsonObject): Result<Entry, PyError> {
    if tag == GetItemsTag then ItemOf(v) else VersionOf(v)
  }

  /** Converting every element in order; the first failing element decides the error. */
  function ConvertAll(tag: string, vs: seq<JsonObject>): Result<seq<Entry>, PyError>
    decreases |vs|
  {
    if |vs| == 0 then Ok([])
    else
      match ConvertAll(tag, vs[..|vs| - 1])
      case Err(e) => Err(e)
      case Ok(rs) =>
        match Convert(tag, vs[|vs| - 1])
        case Err(e) => Err(e)
        case Ok(r) => Ok(rs + [r])
  }

  /** What `process_data` returns for the elements `values` and the tag `tag`. */
  function Processed(values: seq<JsonObject>, tag: string): Result<seq<Entry>, PyError> {
    if tag == GetItemsTag || tag == ListVersionsTag then ConvertAll(tag, values) else Ok([])
  }

  /** The conversion succeeds exactly when every element converts, and then maps them one to one, in order. */
  lemma {:induction false} ConvertAllOk(tag: string, vs: seq<JsonObject>)
    ensures ConvertAll(tag, vs).Ok? <==> forall i :: 0 <= i < |vs| ==> Convert(tag, vs[i]).Ok?
    ensures ConvertAll(tag, vs).Ok? ==>
      |ConvertAll(tag, vs).value| == |vs| &&
      forall i :: 0 <= i < |vs| ==> Convert(tag, vs[i]) == Ok(ConvertAll(tag, vs).value[i])
    decreases |vs|
  {
    if |vs| > 0 {
      var init := vs[..|vs| - 1];
      ConvertAllOk(tag, init);
      assert forall i :: 0 <= i < |init| ==> init[i] == vs[i];
    }
  }

  /** A failed conversion reports the error of the first element that fails. */
  lemma {:induction false} ConvertAllErr(tag: string, vs: seq<JsonObject>)
    requires ConvertAll(tag, vs).Err?
    ensures exists i :: 0 <= i < |vs| && Convert(tag, vs[i]) == Err(ConvertAll(tag, vs).error) &&
                        (forall j :: 0 <= j < i ==> Convert(tag, vs[j]).Ok?)
    decreases |vs|
  {
    var init := vs[..|vs| - 1];
    assert forall i :: 0 <= i < |init| ==> init[i] == vs[i];
    if ConvertAll(tag, init).Err? {
      ConvertAllErr(tag, init);
    } else {
      ConvertAllOk(tag, init);
      assert Convert(tag, vs[|vs| - 1]) == Err(ConvertAll(tag, vs).error);
    }
  }

  /** Once a prefix has failed, the rest of the elements are never looked at. */
  lemma {:induction false} ConvertAllStopsAtError(tag: string, vs: seq<JsonObject>, k: nat)
    requires k <= |vs| && ConvertAll(tag, vs[..k]).Err?
    ensures ConvertAll(tag, vs) == ConvertAll(tag, vs[..k])
    decreases |vs| - k
  {
    if k < |vs| {
      assert vs[..k + 1][..k] == vs[..k];
      ConvertAllStopsAtError(tag, vs, k + 1);
    } else {
      assert vs[..k] == vs;
    }
  }

  /**
    With 'get_items': the result is one record per element, in order, whose
    `is_folder` is true exactly when the element has a `folder` key; the
    mapping fails with KeyError exactly when some element lacks `id` or `name`.
  */
  lemma ProcessedItems(values: seq<JsonObject>)
    ensures Processed(values, GetItemsTag).Ok? <==>
      forall i :: 0 <= i < |values| ==> "id" in values[i] && "name" in values[i]
    ensures Processed(values, GetItemsTag).Ok? ==>
      var rs := Processed(values, GetItemsTag).value;
      |rs| == |values| &&
      forall i :: 0 <= i < |values| ==>
        rs[i] == Item(values[i]["id"], values[i]["name"], "folder" in values[i]) &&
        (rs[i].isFolder <==> "folder" in values[i])
    ensures Processed(values, GetItemsTag).Err? ==> Processed(values, GetItemsTag).error.KeyError?
  {
    ConvertAllOk(GetItemsTag, values);
    if ConvertAll(GetItemsTag, values).Err? {
      ConvertAllErr(GetItemsTag, values);
    }
  }

  /**
    With 'list_versions': the result is one version number per element, in
    order, namely `float` of the element's `id`; a missing `id` or an `id`
    that `float` rejects makes the mapping fail.
  */
  lemma ProcessedVersions(values: seq<JsonObject>)
    ensures Processed(values, ListVersionsTag).Ok? <==>
      forall i :: 0 <= i < |values| ==> "id" in values[i] && ToFloat(values[i]["id"]).Ok?
    ensures Processed(values, ListVersionsTag).Ok? ==>
      var rs := Processed(values, ListVersionsTag).value;
      |rs| == |values| &&
      forall i :: 0 <= i < |values| ==> rs[i] == Version(ToFloat(values[i]["id"]).value)
  {
    ConvertAllOk(ListVersionsTag, values);
  }

  /** The version numbers of a 'list_versions' mapping, as the plain list `process_data` returns. */
  function ListedVersions(values: seq<JsonObject>): (r: Result<seq<int>, PyError>)
    ensures r.Err? <==> Processed(values, ListVersionsTag).Err?
    ensures r.Err? ==> r.error == Processed(values, ListVersionsTag).error
    ensures r.Ok? ==>
      && |r.value| == |values|
      && forall i :: 0 <= i < |values| ==> "id" in values[i] && ToFloat(values[i]["id"]) == Ok(r.value[i])
  {
    ProcessedVersions(values);
    match Processed(values, ListVersionsTag)
    case Err(e) => Err(e)
    case Ok(es) => Ok(seq(|es|, i requires 0 <= i < |es| => es[i].number))
  }

  /**
    `process_data(r, method)`, with `r.json()['value']` given as `values`:
    builds the result list by appending one converted element per iteration.
  */
  method ProcessData(values: seq<JsonObject>, tag: string) returns (r: Result<seq<Entry>, PyError>)
    ensures r == Processed(values, tag)
  {
    var result: seq<Entry> := [];
    if tag == GetItemsTag {
      for i := 0 to |values|
        invariant ConvertAll(tag, values[..i]) == Ok(result)
      {
        assert values[..i + 1][..i] == values[..i];
        var value := values[i];
        if "id" !in value || "name" !in value {
          ConvertAllStopsAtError(tag, values, i + 1);
          r := Err(KeyError(if "id" !in value then "id" else "name"));
          return;
        }
        result := result + [Item(value["id"], value["name"], "folder" in value)];
      }
      assert values[..|values|] == values;
    } else if tag == ListVersionsTag {
      for i := 0 to |values|
        invariant ConvertAll(tag, values[..i]) == Ok(result)
      {
        assert values[..i + 1][..i] == values[..i];
        var value := values[i];
        if "id" !in value {
          ConvertAllStopsAtError(tag, values, i + 1);
          r := Err(KeyError("id"));
          return;
        }
        var number := ToFloat(value["id"]);
        if number.Err? {
          ConvertAllStopsAtError(tag, values, i + 1);
          r := Err(number.error);
          return;
        }
        result := result + [Version(number.value)];
      }
      assert values[..|values|] == values;
    }
    r := Ok(result);
  }
}
