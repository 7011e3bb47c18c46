/** `ConfigVarDTO`: one row of the configuration table, naming a DTO class,
    the module it lives in, and its serialised value. */
module ConfigVarDto {
  import opened Wrappers
  import opened PyValue

  /** All three fields are required text fields. */
  datatype ConfigVar = ConfigVar(dtoObject: string, dtoPath: string, value: string)

  /** `str(obj.get(key))` on a dictionary. */
  function StrField(obj: Value, key: string): string
    requires obj.Dict?
  {
    StrOf(Get(obj, key).value)
  }

  /** `from_dict`: `DtoObject`, `DtoPath` and `Value` into the three
      fields, each through `str()`. Anything but a dictionary has no
      `get`. */
  function FromDict(obj: Value): (r: Result<ConfigVar, Error>)
    ensures r.Failure? <==> !obj.Dict?
    ensures r.Failure? ==> r.error == NoAttribute(obj, "get")
  {
    if !obj.Dict? then Failure(NoAttribute(obj, "get"))
    else Success(ConfigVar(StrField(obj, "DtoObject"), StrField(obj, "DtoPath"), StrField(obj, "Value")))
  }

  /** `from_string`: `from_dict` of the decoded JSON text; `parse` stands
      for `json.loads`. */
  function FromString(s: string, parse: string -> Result<Value, Error>): (r: Result<ConfigVar, Error>)
    ensures parse(s).Failure? ==> r == Failure(parse(s).error)
    ensures parse(s).Success? ==> r == FromDict(parse(s).value)
  {
    match parse(s)
    case Success(obj) => FromDict(obj)
    case Failure(e) => Failure(e)
  }

  /** The dictionary a row is stored as. */
  function AsDict(c: ConfigVar): Value
  {
    Dict([("DtoObject", Str(c.dtoObject)), ("DtoPath", Str(c.dtoPath)), ("Value", Str(c.value))])
  }

  /** `from_dict` reads back every row stored as a dictionary. */
  lemma FromDictRoundTrip(c: ConfigVar)
    ensures FromDict(AsDict(c)) == Success(c)
  {
    var es := AsDict(c).entries;
    assert Lookup(es, "DtoObject") == Some(Str(c.dtoObject));
    assert Lookup(es, "DtoPath") == Some(Str(c.dtoPath));
    assert Lookup(es, "Value") == Some(Str(c.value));
  }

  /** A missing key does not fail: the field holds the text `"None"`. */
  lemma FromDictMissingKey(obj: Value)
    requires obj.Dict? && "Value" !in KeysOf(obj.entries)
    ensures FromDict(obj).Success? && FromDict(obj).value.value == "None"
  {
  }

  /** Each field is `str()` of the entry the dictionary keeps under its
      key: the first one with that key. */
  lemma FromDictFields(obj: Value, i: nat)
    requires obj.Dict? && i < |obj.entries| && FirstOf(obj.entries, i)
    ensures FromDict(obj).Success?
    ensures obj.entries[i].0 == "DtoObject" ==> FromDict(obj).value.dtoObject == StrOf(obj.entries[i].1)
    ensures obj.entries[i].0 == "DtoPath" ==> FromDict(obj).value.dtoPath == StrOf(obj.entries[i].1)
    ensures obj.entries[i].0 == "Value" ==> FromDict(obj).value.value == StrOf(obj.entries[i].1)
  {
    LookupFirst(obj.entries, i);
  }
}
