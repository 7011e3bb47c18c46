/** `ExtendedDTO`: serialising a DTO to a dictionary, and finding the
    first object of a list whose attribute has a given value. */
module DtoExtension {
  import opened Wrappers
  import opened PyValue
  import EnumExtension
  import ListHelper

  /** `__transform_value`: the text `"None"` stands for `None`. */
  function TransformValue(x: Value): (y: Value)
    ensures y == NoneValue <==> x == NoneValue || x == Str("None")
    ensures y != NoneValue ==> y == x
  {
    if x == Str("None") then NoneValue else x
  }

  /** A field that `to_dict` keeps. */
  predicate Present(field: (string, Value))
  {
    TransformValue(field.1) != NoneValue
  }

  /** `to_dict()` of an `ExtendedDTO` instance. `enums` gives the enum
      class of each enum name: `member.to_dict()` on an enum member is
      its class's `to_dict()`. */
  function ToDictOf(dto: Value, enums: string -> EnumExtension.EnumClass): Result<Value, Error>
    requires dto.Obj?
    decreases dto, 2, 0
  {
    match EntriesFrom(dto, 0, enums)
    case Success(es) => Success(Dict(es))
    case Failure(e) => Failure(e)
  }

  /** The entries `to_dict` writes for the fields from position `i` on. */
  function EntriesFrom(dto: Value, i: nat, enums: string -> EnumExtension.EnumClass): Result<seq<(string, Value)>, Error>
    requires dto.Obj? && i <= |dto.fields|
    decreases dto, 1, |dto.fields| - i
  {
    if i == |dto.fields| then Success([])
    else
      match FieldEntry(dto.fields[i].1, enums)
      case Failure(e) => Failure(e)
      case Success(None) => EntriesFrom(dto, i + 1, enums)
      case Success(Some(x)) => Prepend([(dto.fields[i].0, x)], EntriesFrom(dto, i + 1, enums))
  }

  /** What one field contributes: nothing when it is absent; a list as the
      list of its items' `to_dict()`; an enum member as its value; a nested
      `ExtendedDTO` as its own `to_dict()`; anything else as it is. */
  function FieldEntry(v: Value, enums: string -> EnumExtension.EnumClass): Result<Option<Value>, Error>
    decreases v, 3, 0
  {
    if TransformValue(v) == NoneValue then Success(None)
    else match v
      case List(_) =>
        (match ItemDicts(v, 0, enums)
         case Success(ds) => Success(Some(List(ds)))
         case Failure(e) => Failure(e))
      case Member(_, _, value) => Success(Some(value))
      case Obj(_, isDto, _) =>
        if isDto then
          (match ToDictOf(v, enums)
           case Success(d) => Success(Some(d))
           case Failure(e) => Failure(e))
        else Success(Some(v))
      case _ => Success(Some(v))
  }

  /** `item.to_dict()` for an item of a list field. */
  function ItemDict(item: Value, enums: string -> EnumExtension.EnumClass): Result<Value, Error>
    decreases item, 2, 1
  {
    match item
    case Obj(_, isDto, _) => if isDto then ToDictOf(item, enums) else Failure(NoAttribute(item, "to_dict"))
    case Member(enumName, _, _) => Success(EnumExtension.ToDict(enums(enumName)))
    case _ => Failure(NoAttribute(item, "to_dict"))
  }

  /** `[item.to_dict() for item in value]` from position `j` on. */
  function ItemDicts(list: Value, j: nat, enums: string -> EnumExtension.EnumClass): Result<seq<Value>, Error>
    requires list.List? && j <= |list.items|
    decreases list, 1, |list.items| - j
  {
    if j == |list.items| then Success([])
    else match ItemDict(list.items[j], enums)
      case Failure(e) => Failure(e)
      case Success(d) => Prepend([d], ItemDicts(list, j + 1, enums))
  }

  /** `pre` in front of a successful sequence; a failure stays as it is. */
  function Prepend<T>(pre: seq<T>, r: Result<seq<T>, Error>): (p: Result<seq<T>, Error>)
    ensures p.Success? <==> r.Success?
    ensures p.Failure? ==> p.error == r.error
    ensures p.Success? ==> |p.value| == |pre| + |r.value| && p.value[..|pre|] == pre && p.value[|pre|..] == r.value
  {
    match r
    case Success(s) => Success(pre + s)
    case Failure(e) => Failure(e)
  }

  lemma PrependTwice<T>(a: seq<T>, b: seq<T>, r: Result<seq<T>, Error>)
    ensures Prepend(a, Prepend(b, r)) == Prepend(a + b, r)
  {
    if r.Success? {
      assert a + (b + r.value) == (a + b) + r.value;
    }
  }

  /** `to_dict`: builds the dictionary field by field, and each list field
      item by item, with a recursive call for every nested DTO. */
  method ToDict(dto: Value, enums: string -> EnumExtension.EnumClass) returns (r: Result<Value, Error>)
    requires dto.Obj?
    ensures r == ToDictOf(dto, enums)
    decreases dto, 2, 0
  {
    var result: seq<(string, Value)> := [];
    var i := 0;
    while i < |dto.fields|
      invariant 0 <= i <= |dto.fields|
      invariant EntriesFrom(dto, 0, enums) == Prepend(result, EntriesFrom(dto, i, enums))
    {
      var key, value := dto.fields[i].0, dto.fields[i].1;
      assert value < dto;
      var t := TransformValue(value);
      if t != NoneValue {
        var entry: Value;
        if value.List? {
          var ds: seq<Value> := [];
          var j := 0;
          while j < |value.items|
            invariant 0 <= j <= |value.items|
            invariant ItemDicts(value, 0, enums) == Prepend(ds, ItemDicts(value, j, enums))
          {
            var item := value.items[j];
            assert item < value;
            var d: Value;
            if item.Obj? && item.isDto {
              var sub := ToDict(item, enums);
              if sub.Failure? {
                return Failure(sub.error);
              }
              d := sub.value;
            } else if item.Member? {
              d := EnumExtension.ToDict(enums(item.enumName));
            } else {
              return Failure(NoAttribute(item, "to_dict"));
            }
            PrependTwice(ds, [d], ItemDicts(value, j + 1, enums));
            ds := ds + [d];
            j := j + 1;
          }
          assert ItemDicts(value, 0, enums) == Success(ds) by {
            assert ds + [] == ds;
          }
          entry := List(ds);
        } else if value.Member? {
          entry := value.value;
        } else if value.Obj? && value.isDto {
          var sub := ToDict(value, enums);
          if sub.Failure? {
            return Failure(sub.error);
          }
          entry := sub.value;
        } else {
          entry := value;
        }
        assert FieldEntry(value, enums) == Success(Some(entry));
        PrependTwice(result, [(key, entry)], EntriesFrom(dto, i + 1, enums));
        result := result + [(key, entry)];
      }
      i := i + 1;
    }
    assert result + [] == result;
    return Success(Dict(result));
  }

  /** The keys of the dictionary are the names of the present fields, in
      field order: absent fields are dropped and no other key appears. */
  lemma {:induction false} EntriesKeys(dto: Value, i: nat, enums: string -> EnumExtension.EnumClass)
    requires dto.Obj? && i <= |dto.fields|
    requires EntriesFrom(dto, i, enums).Success?
    ensures KeysOf(EntriesFrom(dto, i, enums).value) == KeysOf(ListHelper.Filter(dto.fields[i..], Present))
    decreases |dto.fields| - i
  {
    if i < |dto.fields| {
      EntriesKeys(dto, i + 1, enums);
      assert dto.fields[i..][1..] == dto.fields[i + 1..];
      assert dto.fields[i..][0] == dto.fields[i];
    }
  }

  lemma ToDictKeys(dto: Value, enums: string -> EnumExtension.EnumClass)
    requires dto.Obj? && ToDictOf(dto, enums).Success?
    ensures KeysOf(ToDictOf(dto, enums).value.entries) == KeysOf(ListHelper.Filter(dto.fields, Present))
  {
    EntriesKeys(dto, 0, enums);
    assert dto.fields[0..] == dto.fields;
  }

  /** Under each present field's name the dictionary holds what that
      field contributes. */
  lemma {:induction false} EntriesLookup(dto: Value, i: nat, k: nat, enums: string -> EnumExtension.EnumClass)
    requires dto.Obj? && i <= k < |dto.fields|
    requires forall a, b | 0 <= a < b < |dto.fields| :: dto.fields[a].0 != dto.fields[b].0
    requires EntriesFrom(dto, i, enums).Success?
    ensures FieldEntry(dto.fields[k].1, enums).Success?
    ensures Lookup(EntriesFrom(dto, i, enums).value, dto.fields[k].0) == FieldEntry(dto.fields[k].1, enums).value
    decreases |dto.fields| - i
  {
    var key := dto.fields[k].0;
    if i < k {
      EntriesLookup(dto, i + 1, k, enums);
      assert dto.fields[i].0 != key;
    } else {
      EntriesAbsent(dto, i + 1, key, enums);
    }
  }

  /** A name no later field has is not a key of the later entries. */
  lemma {:induction false} EntriesAbsent(dto: Value, i: nat, key: string, enums: string -> EnumExtension.EnumClass)
    requires dto.Obj? && i <= |dto.fields|
    requires forall a | i <= a < |dto.fields| :: dto.fields[a].0 != key
    requires EntriesFrom(dto, i, enums).Success?
    ensures Lookup(EntriesFrom(dto, i, enums).value, key) == None
    decreases |dto.fields| - i
  {
    if i < |dto.fields| {
      EntriesAbsent(dto, i + 1, key, enums);
    }
  }

  /** For a successful `to_dict()` of a DTO whose field names differ (as
      attribute names do): a field that is `None` or `"None"` has no key;
      an enum member is stored as its value; a nested DTO as its own
      dictionary; a list as the list of its items' dictionaries, one per
      item in order; any other value as it is. */
  lemma ToDictField(dto: Value, k: nat, enums: string -> EnumExtension.EnumClass)
    requires dto.Obj? && k < |dto.fields|
    requires forall a, b | 0 <= a < b < |dto.fields| :: dto.fields[a].0 != dto.fields[b].0
    requires ToDictOf(dto, enums).Success?
    ensures var d := ToDictOf(dto, enums).value.entries;
            var (key, v) := dto.fields[k];
            && (v == NoneValue || v == Str("None") ==> key !in KeysOf(d))
            && (v.Member? ==> Lookup(d, key) == Some(v.value))
            && (v.Obj? && v.isDto ==> ToDictOf(v, enums).Success? && Lookup(d, key) == Some(ToDictOf(v, enums).value))
            && (v.List? ==> exists ds: seq<Value> ::
                  && Lookup(d, key) == Some(List(ds))
                  && |ds| == |v.items|
                  && forall j | 0 <= j < |ds| :: ItemDict(v.items[j], enums) == Success(ds[j]))
            && ((v != NoneValue && v != Str("None") && !v.Member? && !v.List? && !(v.Obj? && v.isDto))
                  ==> Lookup(d, key) == Some(v))
  {
    EntriesLookup(dto, 0, k, enums);
    var v := dto.fields[k].1;
    if v.List? && v != Str("None") {
      ItemDictsAll(v, 0, enums);
    }
  }

  /** A successful list conversion has one dictionary per item, in order. */
  lemma {:induction false} ItemDictsAll(list: Value, j: nat, enums: string -> EnumExtension.EnumClass)
    requires list.List? && j <= |list.items|
    requires ItemDicts(list, j, enums).Success?
    ensures |ItemDicts(list, j, enums).value| == |list.items| - j
    ensures forall k | 0 <= k < |list.items| - j ::
      ItemDict(list.items[j + k], enums) == Success(ItemDicts(list, j, enums).value[k])
    decreases |list.items| - j
  {
    if j < |list.items| {
      ItemDictsAll(list, j + 1, enums);
    }
  }

  /** Fields holding texts other than `"None"` are copied as they are. */
  lemma {:induction false} EntriesPlain(dto: Value, i: nat, enums: string -> EnumExtension.EnumClass)
    requires dto.Obj? && i <= |dto.fields|
    requires forall k | i <= k < |dto.fields| :: dto.fields[k].1.Str? && dto.fields[k].1 != Str("None")
    ensures EntriesFrom(dto, i, enums) == Success(dto.fields[i..])
    decreases |dto.fields| - i
  {
    if i < |dto.fields| {
      EntriesPlain(dto, i + 1, enums);
      var f := dto.fields[i];
      assert TransformValue(f.1) != NoneValue;
      assert FieldEntry(f.1, enums) == Success(Some(f.1));
      assert EntriesFrom(dto, i, enums) == Prepend([(f.0, f.1)], EntriesFrom(dto, i + 1, enums));
      assert [(f.0, f.1)] + dto.fields[i + 1..] == dto.fields[i..];
    } else {
      assert dto.fields[i..] == [];
    }
  }

  /** A DTO of texts other than `"None"` becomes the dictionary of its
      fields. */
  lemma ToDictPlain(dto: Value, enums: string -> EnumExtension.EnumClass)
    requires dto.Obj?
    requires forall k | 0 <= k < |dto.fields| :: dto.fields[k].1.Str? && dto.fields[k].1 != Str("None")
    ensures ToDictOf(dto, enums) == Success(Dict(dto.fields))
  {
    EntriesPlain(dto, 0, enums);
    assert dto.fields[0..] == dto.fields;
  }

  /** A value nested in `v` that has no `to_dict()`: neither an enum
      member nor an `ExtendedDTO`, and `e` is the `AttributeError` for it. */
  ghost predicate MissingToDict(v: Value, e: Error)
  {
    exists item: Value :: item < v && !item.Member? && !(item.Obj? && item.isDto) && e == NoAttribute(item, "to_dict")
  }

  /** `to_dict()` fails only on a list item, possibly in a nested DTO,
      that has no `to_dict()`. */
  lemma {:induction false} ToDictFailure(dto: Value, enums: string -> EnumExtension.EnumClass)
    requires dto.Obj? && ToDictOf(dto, enums).Failure?
    ensures MissingToDict(dto, ToDictOf(dto, enums).error)
    decreases dto, 2, 0
  {
    EntriesFailure(dto, 0, enums);
  }

  lemma {:induction false} EntriesFailure(dto: Value, i: nat, enums: string -> EnumExtension.EnumClass)
    requires dto.Obj? && i <= |dto.fields| && EntriesFrom(dto, i, enums).Failure?
    ensures MissingToDict(dto, EntriesFrom(dto, i, enums).error)
    decreases dto, 1, |dto.fields| - i
  {
    var v := dto.fields[i].1;
    assert v < dto;
    if FieldEntry(v, enums).Failure? {
      FieldFailure(v, enums);
      var item: Value :| item < v && !item.Member? && !(item.Obj? && item.isDto)
                  && FieldEntry(v, enums).error == NoAttribute(item, "to_dict");
      assert item < dto;
    } else {
      EntriesFailure(dto, i + 1, enums);
    }
  }

  lemma {:induction false} FieldFailure(v: Value, enums: string -> EnumExtension.EnumClass)
    requires FieldEntry(v, enums).Failure?
    ensures MissingToDict(v, FieldEntry(v, enums).error)
    decreases v, 3, 0
  {
    if v.List? {
      ItemsFailure(v, 0, enums);
    } else if v.Obj? {
      ToDictFailure(v, enums);
    }
  }

  lemma {:induction false} ItemsFailure(list: Value, j: nat, enums: string -> EnumExtension.EnumClass)
    requires list.List? && j <= |list.items| && ItemDicts(list, j, enums).Failure?
    ensures MissingToDict(list, ItemDicts(list, j, enums).error)
    decreases list, 1, |list.items| - j
  {
    var item := list.items[j];
    assert item < list;
    if ItemDict(item, enums).Failure? {
      if item.Obj? && item.isDto {
        ToDictFailure(item, enums);
        var inner: Value :| inner < item && !inner.Member? && !(inner.Obj? && inner.isDto)
                     && ToDictOf(item, enums).error == NoAttribute(inner, "to_dict");
        assert inner < list;
      }
    } else {
      ItemsFailure(list, j + 1, enums);
    }
  }

  /** The search of `get_object_by_name`: the first object whose
      attribute equals `name`; `getattr` on an object without the
      attribute raises. */
  function FirstWithAttr(objects: seq<Value>, nameAttr: string, name: string): Result<Option<Value>, Error>
  {
    if objects == [] then Success(None)
    else match GetAttr(objects[0], nameAttr)
      case Failure(e) => Failure(e)
      case Success(a) =>
        if a == Str(name) then Success(Some(objects[0]))
        else FirstWithAttr(objects[1..], nameAttr, name)
  }

  /** What `get_object_by_name` returns; `None` stands for no list. */
  function ObjectByName(objects: Option<seq<Value>>, nameAttr: string, name: string): Result<Option<Value>, Error>
  {
    if objects.None? || objects.value == [] then Success(None)
    else FirstWithAttr(objects.value, nameAttr, name)
  }

  /** `get_object_by_name`: a scan with an early return. */
  method GetObjectByName(objects: Option<seq<Value>>, nameAttr: string, name: string)
    returns (r: Result<Option<Value>, Error>)
    ensures r == ObjectByName(objects, nameAttr, name)
  {
    if objects.Some? && objects.value != [] {
      var xs := objects.value;
      var i := 0;
      while i < |xs|
        invariant 0 <= i <= |xs|
        invariant FirstWithAttr(xs, nameAttr, name) == FirstWithAttr(xs[i..], nameAttr, name)
      {
        assert xs[i..][1..] == xs[i + 1..];
        var a := GetAttr(xs[i], nameAttr);
        if a.Failure? {
          return Failure(a.error);
        }
        if a.value == Str(name) {
          return Success(Some(xs[i]));
        }
        i := i + 1;
      }
    }
    return Success(None);
  }

  /** Objects whose attribute is present and differs from `name` are
      passed over. */
  lemma {:induction false} FirstWithAttrSkips(objects: seq<Value>, nameAttr: string, name: string, i: nat)
    requires i <= |objects|
    requires forall j | 0 <= j < i :: GetAttr(objects[j], nameAttr).Success?
                                   && GetAttr(objects[j], nameAttr).value != Str(name)
    ensures FirstWithAttr(objects, nameAttr, name) == FirstWithAttr(objects[i..], nameAttr, name)
  {
    if i > 0 {
      FirstWithAttrSkips(objects[1..], nameAttr, name, i - 1);
      assert objects[1..][i - 1..] == objects[i..];
    }
  }

  /** The first object whose attribute equals `name` is returned. */
  lemma ObjectByNameFound(objects: seq<Value>, nameAttr: string, name: string, i: nat)
    requires i < |objects| && GetAttr(objects[i], nameAttr) == Success(Str(name))
    requires forall j | 0 <= j < i :: GetAttr(objects[j], nameAttr).Success?
                                   && GetAttr(objects[j], nameAttr).value != Str(name)
    ensures ObjectByName(Some(objects), nameAttr, name) == Success(Some(objects[i]))
  {
    FirstWithAttrSkips(objects, nameAttr, name, i);
  }

  /** No list, an empty list, or a list where no attribute matches gives
      `None`. */
  lemma ObjectByNameNotFound(objects: Option<seq<Value>>, nameAttr: string, name: string)
    requires objects.Some? ==>
      forall j | 0 <= j < |objects.value| :: GetAttr(objects.value[j], nameAttr).Success?
                                          && GetAttr(objects.value[j], nameAttr).value != Str(name)
    ensures ObjectByName(objects, nameAttr, name) == Success(None)
  {
    if objects.Some? {
      FirstWithAttrSkips(objects.value, nameAttr, name, |objects.value|);
    }
  }
}
