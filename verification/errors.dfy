/** The readable message the API's exception handler puts next to the
    error details. */
module ErrorMessages {
  import opened Wrappers
  import opened IntentParser

  /** The response data of a failed request, as parsed JSON: a string, a
      list, an object with its keys in insertion order, or any other
      scalar. */
  datatype Data = Str(s: string) | List(items: seq<Data>) | Dict(entries: seq<(string, Data)>) | Scalar(text: string)

  const DefaultMessage := "An error occurred"

  /** `data['non_field_errors'][0]`: the first element of a list, the first
      character of a string; an empty list or string, an object or a scalar
      raise. */
  function FirstItem(v: Data): Option<Data> {
    match v
    case List(items) => if items == [] then None else Some(items[0])
    case Str(s) => if s == [] then None else Some(Str([s[0]]))
    case Dict(_) => None
    case Scalar(_) => None
  }

  /** `get_error_message(data)`, with `show` standing for `str()`; `Err` is
      the exception indexing `non_field_errors` can raise. */
  function GetErrorMessage(data: Data, show: Data -> string): Result<string> {
    match data
    case Dict(entries) =>
      (match Lookup(entries, "detail")
       case Some(detail) => Ok(show(detail))
       case None =>
         match Lookup(entries, "non_field_errors")
         case Some(errors) =>
           (match FirstItem(errors)
            case Some(first) => Ok(show(first))
            case None => Err("non_field_errors"))
         case None =>
           if entries == [] then Ok(DefaultMessage)
           else
             var (key, value) := entries[0];
             if value.List? && |value.items| > 0 then Ok(key + ": " + show(value.items[0]))
             else Ok(key + ": " + show(value)))
    case List(items) => if items == [] then Ok(DefaultMessage) else Ok(show(items[0]))
    case Str(_) => Ok(DefaultMessage)
    case Scalar(_) => Ok(DefaultMessage)
  }

  /** A `detail` key decides the message, whatever else the object holds. */
  lemma DetailWins(entries: seq<(string, Data)>, detail: Data, show: Data -> string)
    requires exists k :: 0 <= k < |entries| && entries[k] == ("detail", detail)
    requires forall k, j :: 0 <= k < j < |entries| ==> entries[k].0 != entries[j].0
    ensures GetErrorMessage(Dict(entries), show) == Ok(show(detail))
  {
    var k :| 0 <= k < |entries| && entries[k] == ("detail", detail);
    var found := Lookup(entries, "detail");
    var j :| 0 <= j < |entries| && entries[j] == ("detail", found.value);
    assert j == k;
  }

  /** Without `detail`, `non_field_errors` decides: its first element, or an
      exception when it has none. */
  lemma NonFieldErrorsNext(entries: seq<(string, Data)>, errors: Data, show: Data -> string)
    requires forall k :: 0 <= k < |entries| ==> entries[k].0 != "detail"
    requires Lookup(entries, "non_field_errors") == Some(errors)
    ensures errors.List? && errors.items != [] ==> GetErrorMessage(Dict(entries), show) == Ok(show(errors.items[0]))
    ensures GetErrorMessage(Dict(entries), show).Err? <==> FirstItem(errors).None?
  {
  }

  /** Otherwise only the first key counts: its message starts with that key,
      and the rest of the object plays no part. */
  lemma FirstKeyOnly(key: string, value: Data, rest: seq<(string, Data)>, show: Data -> string)
    requires key != "detail" && key != "non_field_errors"
    requires forall k :: 0 <= k < |rest| ==> rest[k].0 != "detail" && rest[k].0 != "non_field_errors"
    ensures GetErrorMessage(Dict([(key, value)] + rest), show) == GetErrorMessage(Dict([(key, value)]), show)
    ensures var r := GetErrorMessage(Dict([(key, value)] + rest), show);
      && r.Ok?
      && r.value[..|key| + 2] == key + ": "
      && r.value[|key| + 2..] == if value.List? && value.items != [] then show(value.items[0]) else show(value)
  {
    var entries := [(key, value)] + rest;
    assert entries[0] == (key, value);
    assert Lookup(entries, "detail").None?;
    assert Lookup(entries, "non_field_errors").None?;
  }

  /** An empty object, an empty list, a string or a scalar give the default
      message; only a malformed `non_field_errors` raises. */
  lemma DefaultOtherwise(data: Data, show: Data -> string)
    ensures (data == Dict([]) || data == List([]) || data.Str? || data.Scalar?) ==> GetErrorMessage(data, show) == Ok(DefaultMessage)
    ensures GetErrorMessage(data, show).Err? ==>
      data.Dict? && Lookup(data.entries, "detail").None? && Lookup(data.entries, "non_field_errors").Some?
  {
  }
}
