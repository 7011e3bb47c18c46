/** The API configuration DTOs (`Header`, `Id`, `Settings`,
    `APIConfigsDTO`), all `ExtendedDTO` dataclasses whose fields default to
    `None`, and their `from_dict` mappings from JSON keys to fields. */
module ApiConfigDto {
  import opened Wrappers
  import opened PyValue
  import opened DtoHelper
  import DtoExtension
  import EnumExtension

  /** An `ExtendedDTO` instance with the given fields, in declaration order. */
  function Dto(cls: string, fields: seq<(string, Value)>): (d: Value)
    ensures d.Obj? && d.isDto && d.fields == fields
  {
    Obj(cls, true, fields)
  }

  /** `Header.from_dict`. */
  function HeaderFromDict(obj: Value): Result<Value, Error>
  {
    match (GetOptionalValue(obj, "ContentType", StrType), GetOptionalValue(obj, "Accept", StrType),
           GetOptionalValue(obj, "Range", StrType))
    case (Success(contentType), Success(accept), Success(range)) =>
      Success(Dto("Header", [("content_type", contentType), ("accept", accept), ("range", range)]))
    case (Failure(e), _, _) => Failure(e)
    case (_, Failure(e), _) => Failure(e)
    case (_, _, Failure(e)) => Failure(e)
  }

  /** `Id.from_dict`: the JSON keys are lower case here. */
  function IdFromDict(obj: Value): Result<Value, Error>
  {
    match (GetOptionalValue(obj, "name", StrType), GetOptionalValue(obj, "value", StrType),
           GetOptionalValue(obj, "type", StrType))
    case (Success(name), Success(value), Success(typ)) =>
      Success(Dto("Id", [("name", name), ("value", value), ("type", typ)]))
    case (Failure(e), _, _) => Failure(e)
    case (_, Failure(e), _) => Failure(e)
    case (_, _, Failure(e)) => Failure(e)
  }

  /** `Settings.from_dict`: `Ids` as a list of `Id`, `ExpirationTime` as an int. */
  function SettingsFromDict(obj: Value): Result<Value, Error>
  {
    match (GetOptionalValue(obj, "Ids", ListOf(DtoType("Id", IdFromDict))),
           GetOptionalValue(obj, "ExpirationTime", IntType))
    case (Success(ids), Success(expirationTime)) =>
      Success(Dto("Settings", [("ids", ids), ("expiration_time", expirationTime)]))
    case (Failure(e), _) => Failure(e)
    case (_, Failure(e)) => Failure(e)
  }

  /** `APIConfigsDTO.from_dict`. */
  function ApiConfigsFromDict(obj: Value): (r: Result<Value, Error>)
    ensures r.Success? ==> r.value.Obj? && r.value.cls == "APIConfigsDTO" && |r.value.fields| == 7
  {
    var apiKey := GetOptionalValue(obj, "ApiKey", StrType);
    var appSecret := GetOptionalValue(obj, "AppSecret", StrType);
    var url := GetOptionalValue(obj, "Url", StrType);
    var version := GetOptionalValue(obj, "Version", StrType);
    var header := GetOptionalValue(obj, "Header", DtoType("Header", HeaderFromDict));
    var scope := GetOptionalValue(obj, "scope", ListOf(StrType));
    var settings := GetOptionalValue(obj, "Settings", DtoType("Settings", SettingsFromDict));
    if apiKey.Success? && appSecret.Success? && url.Success? && version.Success? && header.Success?
       && scope.Success? && settings.Success? then
      Success(Dto("APIConfigsDTO", [("api_key", apiKey.value), ("app_secret", appSecret.value), ("url", url.value),
                                   ("version", version.value), ("header", header.value), ("scope", scope.value),
                                   ("settings", settings.value)]))
    else if apiKey.Failure? then apiKey
    else if appSecret.Failure? then appSecret
    else if url.Failure? then url
    else if version.Failure? then version
    else if header.Failure? then header
    else if scope.Failure? then scope
    else settings
  }

  /** `APIConfigsDTO.from_string`: `from_dict` of the decoded JSON text;
      `parse` stands for `json.loads`. */
  function ApiConfigsFromString(s: string, parse: string -> Result<Value, Error>): (r: Result<Value, Error>)
    ensures parse(s).Failure? ==> r == Failure(parse(s).error)
    ensures parse(s).Success? ==> r == ApiConfigsFromDict(parse(s).value)
  {
    match parse(s)
    case Success(obj) => ApiConfigsFromDict(obj)
    case Failure(e) => Failure(e)
  }

  /** The reference reading of an optional text field: `str` of the value
      under the key, `None` when the key is absent. */
  function OptStr(obj: Value, key: string): Value
    requires obj.Dict?
  {
    match Lookup(obj.entries, key)
    case Some(v) => Str(StrOf(v))
    case None => NoneValue
  }

  /** `from_dict(None)` gives every field its default, `None`. */
  lemma FromDictNone()
    ensures HeaderFromDict(NoneValue)
      == Success(Dto("Header", [("content_type", NoneValue), ("accept", NoneValue), ("range", NoneValue)]))
    ensures IdFromDict(NoneValue)
      == Success(Dto("Id", [("name", NoneValue), ("value", NoneValue), ("type", NoneValue)]))
    ensures SettingsFromDict(NoneValue)
      == Success(Dto("Settings", [("ids", NoneValue), ("expiration_time", NoneValue)]))
    ensures ApiConfigsFromDict(NoneValue)
      == Success(Dto("APIConfigsDTO", [("api_key", NoneValue), ("app_secret", NoneValue), ("url", NoneValue),
                                       ("version", NoneValue), ("header", NoneValue), ("scope", NoneValue),
                                       ("settings", NoneValue)]))
  {
  }

  lemma OptStrAgrees(obj: Value, key: string)
    requires obj.Dict?
    ensures GetOptionalValue(obj, key, StrType) == Success(OptStr(obj, key))
  {
    if key in KeysOf(obj.entries) {
      OptionalScalar(obj, key, StrType, Lookup(obj.entries, key).value);
    }
  }

  /** `Header.from_dict` of a dictionary reads `ContentType`, `Accept` and
      `Range` into `content_type`, `accept` and `range`. */
  lemma HeaderFields(obj: Value)
    requires obj.Dict?
    ensures HeaderFromDict(obj)
      == Success(Dto("Header", [("content_type", OptStr(obj, "ContentType")), ("accept", OptStr(obj, "Accept")),
                                ("range", OptStr(obj, "Range"))]))
  {
    OptStrAgrees(obj, "ContentType");
    OptStrAgrees(obj, "Accept");
    OptStrAgrees(obj, "Range");
  }

  /** `Id.from_dict` of a dictionary reads `name`, `value` and `type`. */
  lemma IdFields(obj: Value)
    requires obj.Dict?
    ensures IdFromDict(obj)
      == Success(Dto("Id", [("name", OptStr(obj, "name")), ("value", OptStr(obj, "value")),
                            ("type", OptStr(obj, "type"))]))
  {
    OptStrAgrees(obj, "name");
    OptStrAgrees(obj, "value");
    OptStrAgrees(obj, "type");
  }

  /** `Settings.from_dict` reads `Ids` item by item through `Id.from_dict`. */
  lemma SettingsIds(obj: Value, items: seq<Value>)
    requires obj.Dict? && Lookup(obj.entries, "Ids") == Some(List(items))
    requires SettingsFromDict(obj).Success?
    ensures var ids := SettingsFromDict(obj).value.fields[0].1;
            && ids.List? && |ids.items| == |items|
            && forall k | 0 <= k < |items| :: IdFromDict(items[k]) == Success(ids.items[k])
  {
    OptionalList(obj, "Ids", DtoType("Id", IdFromDict), items);
  }

  /** `APIConfigsDTO.from_dict` of a dictionary reads the texts under
      `ApiKey`, `AppSecret`, `Url` and `Version` into the first four
      fields. */
  lemma ApiConfigsTexts(obj: Value)
    requires obj.Dict? && ApiConfigsFromDict(obj).Success?
    ensures var f := ApiConfigsFromDict(obj).value.fields;
            && |f| == 7
            && f[0] == ("api_key", OptStr(obj, "ApiKey"))
            && f[1] == ("app_secret", OptStr(obj, "AppSecret"))
            && f[2] == ("url", OptStr(obj, "Url"))
            && f[3] == ("version", OptStr(obj, "Version"))
  {
    OptStrAgrees(obj, "ApiKey");
    OptStrAgrees(obj, "AppSecret");
    OptStrAgrees(obj, "Url");
    OptStrAgrees(obj, "Version");
  }

  /** A successful `APIConfigsDTO.from_dict` holds the seven reads in
      declaration order. */
  lemma ApiConfigsShape(obj: Value)
    requires ApiConfigsFromDict(obj).Success?
    ensures ApiConfigsFromDict(obj).value == Dto("APIConfigsDTO", [
      ("api_key", GetOptionalValue(obj, "ApiKey", StrType).value),
      ("app_secret", GetOptionalValue(obj, "AppSecret", StrType).value),
      ("url", GetOptionalValue(obj, "Url", StrType).value),
      ("version", GetOptionalValue(obj, "Version", StrType).value),
      ("header", GetOptionalValue(obj, "Header", DtoType("Header", HeaderFromDict)).value),
      ("scope", GetOptionalValue(obj, "scope", ListOf(StrType)).value),
      ("settings", GetOptionalValue(obj, "Settings", DtoType("Settings", SettingsFromDict)).value)])
  {
  }

  /** `Header` goes through `Header.from_dict`. */
  lemma ApiConfigsHeader(obj: Value, v: Value)
    requires obj.Dict? && Lookup(obj.entries, "Header") == Some(v)
    requires ApiConfigsFromDict(obj).Success?
    ensures ApiConfigsFromDict(obj).value.fields[4].0 == "header"
    ensures Success(ApiConfigsFromDict(obj).value.fields[4].1) == HeaderFromDict(v)
  {
    ApiConfigsShape(obj);
    OptionalScalar(obj, "Header", DtoType("Header", HeaderFromDict), v);
  }

  /** `Settings` goes through `Settings.from_dict`. */
  lemma ApiConfigsSettings(obj: Value, v: Value)
    requires obj.Dict? && Lookup(obj.entries, "Settings") == Some(v)
    requires ApiConfigsFromDict(obj).Success?
    ensures ApiConfigsFromDict(obj).value.fields[6].0 == "settings"
    ensures Success(ApiConfigsFromDict(obj).value.fields[6].1) == SettingsFromDict(v)
  {
    ApiConfigsShape(obj);
    OptionalScalar(obj, "Settings", DtoType("Settings", SettingsFromDict), v);
  }

  /** `scope` (lower case) is read as a list of texts, item by item. */
  lemma ApiConfigsScope(obj: Value, items: seq<Value>)
    requires obj.Dict? && Lookup(obj.entries, "scope") == Some(List(items))
    requires ApiConfigsFromDict(obj).Success?
    ensures var f := ApiConfigsFromDict(obj).value.fields;
            && |f| == 7 && f[5].0 == "scope"
            && f[5].1 == List(seq(|items|, k requires 0 <= k < |items| => Str(StrOf(items[k]))))
  {
    ApiConfigsShape(obj);
    OptionalList(obj, "scope", StrType, items);
    var r := GetOptionalValue(obj, "scope", ListOf(StrType)).value;
    assert r.items == seq(|items|, k requires 0 <= k < |items| => Str(StrOf(items[k])));
  }

  /** `to_dict()` of a header decoded from three texts (none of them the
      text `"None"`) gives them back under the field names. */
  lemma HeaderToDict(contentType: string, accept: string, range: string, enums: string -> EnumExtension.EnumClass)
    requires contentType != "None" && accept != "None" && range != "None"
    ensures var obj := Dict([("ContentType", Str(contentType)), ("Accept", Str(accept)), ("Range", Str(range))]);
            && HeaderFromDict(obj).Success?
            && DtoExtension.ToDictOf(HeaderFromDict(obj).value, enums)
               == Success(Dict([("content_type", Str(contentType)), ("accept", Str(accept)), ("range", Str(range))]))
  {
    var obj := Dict([("ContentType", Str(contentType)), ("Accept", Str(accept)), ("Range", Str(range))]);
    HeaderFields(obj);
    assert Lookup(obj.entries[2..], "Range") == Some(Str(range));
    assert Lookup(obj.entries[1..], "Range") == Some(Str(range));
    assert OptStr(obj, "ContentType") == Str(contentType);
    assert OptStr(obj, "Accept") == Str(accept);
    assert OptStr(obj, "Range") == Str(range);
    DtoExtension.ToDictPlain(HeaderFromDict(obj).value, enums);
  }
}
