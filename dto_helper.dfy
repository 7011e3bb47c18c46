/** The DTO helpers: reading an optional, typed value out of a decoded JSON
    object, and the two string steps of building a DTO from a configuration
    row (recognising a `List[...]` class name and writing the import
    statement). */
module DtoHelper {
  import opened Wrappers
  import opened Strings
  import opened PyValue
  import EnumExtension
  import ConfigVarDto

  /** The `value_type` argument of `get_optional_value`. `float` is not
      modelled. */
  datatype TypeArg =
    | StrType
    | IntType
    | BoolType
    /** A subclass of `ExtendedEnum`. */
    | EnumType(e: EnumExtension.EnumClass)
    /** A subclass of `ExtendedDTO`, with its `from_dict`. */
    | DtoType(name: string, fromDict: Value -> Result<Value, Error>)
    /** `List[elem]`. */
    | ListOf(elem: TypeArg)
    /** Any other class. */
    | ClassType(name: string)
    /** Any other construct of `typing` that is not a class, such as `Dict[str, int]`. */
    | GenericType(name: string)

  const NotImplemented := TypeError("This type has not yet been implemented!")
  const NotAClass := TypeError("issubclass() arg 1 must be a class")

  /** `key in obj`: dictionary keys, a substring of a text, an element of a
      list; other values cannot be searched. */
  function HasKey(obj: Value, key: string): Result<bool, Error>
  {
    match obj
    case Dict(entries) => Success(key in KeysOf(entries))
    case Str(s) => Success(Contains(s, key))
    case List(items) => Success(Str(key) in items)
    case _ => Failure(TypeError("argument of type '" + ClassName(obj) + "' is not iterable"))
  }

  /** The items a comprehension `for y in v` visits. */
  function Iterate(v: Value): (r: Result<seq<Value>, Error>)
    ensures v.List? ==> r == Success(v.items)
    ensures r.Failure? <==> !(v.List? || v.Str? || v.Dict?)
  {
    match v
    case List(items) => Success(items)
    case Str(s) => Success(seq(|s|, k requires 0 <= k < |s| => Str([s[k]])))
    case Dict(entries) => Success(seq(|entries|, k requires 0 <= k < |entries| => Str(entries[k].0)))
    case _ => Failure(TypeError("'" + ClassName(v) + "' object is not iterable"))
  }

  /** The dispatch of `get_optional_value`, in its order: a built-in
      scalar type, an `ExtendedEnum`, an `ExtendedDTO`, anything else.
      `issubclass` refuses an argument that is not a class. */
  function Dispatch(t: TypeArg): (r: Result<TypeArg, Error>)
    ensures r.Success? ==> r.value == t
    ensures r.Success? <==> (t.StrType? || t.IntType? || t.BoolType? || t.EnumType? || t.DtoType?)
    ensures t.ClassType? ==> r == Failure(NotImplemented)
  {
    match t
    case ListOf(_) => Failure(NotAClass)
    case GenericType(_) => Failure(NotAClass)
    case ClassType(_) => Failure(NotImplemented)
    case _ => Success(t)
  }

  /** `from_string(x)` of an enum: only a text can equal a member name. */
  function EnumFromValue(e: EnumExtension.EnumClass, x: Value): Result<Value, Error>
  {
    if x.Str? then EnumExtension.FromString(e, x.s)
    else Failure(ValueError("No matching enum value for " + StrOf(x)))
  }

  /** One conversion: `value_type(x)`, `value_type.from_string(x)` or
      `value_type.from_dict(x)`. */
  function Convert(t: TypeArg, x: Value): Result<Value, Error>
    requires t.StrType? || t.IntType? || t.BoolType? || t.EnumType? || t.DtoType?
  {
    match t
    case StrType => Success(Str(StrOf(x)))
    case IntType =>
      (match IntOf(x)
       case Success(n) => Success(Int(n))
       case Failure(e) => Failure(e))
    case BoolType => Success(Bool(Truthy(x)))
    case EnumType(e) => EnumFromValue(e, x)
    case DtoType(_, fromDict) => fromDict(x)
  }

  /** The list comprehension: converts each item in order, stopping at the
      first failure. */
  function ConvertAll(t: TypeArg, xs: seq<Value>): (r: Result<seq<Value>, Error>)
    requires t.StrType? || t.IntType? || t.BoolType? || t.EnumType? || t.DtoType?
    ensures r.Success? ==> |r.value| == |xs|
    ensures r.Success? ==> forall k | 0 <= k < |xs| :: Convert(t, xs[k]) == Success(r.value[k])
    ensures r.Failure? ==> exists k | 0 <= k < |xs| :: Convert(t, xs[k]) == Failure(r.error)
  {
    if xs == [] then Success([])
    else match Convert(t, xs[0])
      case Failure(e) => Failure(e)
      case Success(y) =>
        match ConvertAll(t, xs[1..])
        case Failure(e) => Failure(e)
        case Success(ys) => Success([y] + ys)
  }

  /** `get_optional_value(obj, key, value_type)`. */
  function GetOptionalValue(obj: Value, key: string, t: TypeArg): Result<Value, Error>
  {
    if obj == NoneValue then Success(NoneValue)
    else match HasKey(obj, key)
      case Failure(e) => Failure(e)
      case Success(present) =>
        if !present then Success(NoneValue)
        else match Get(obj, key)
          case Failure(e) => Failure(e)
          case Success(v) =>
            if t.ListOf? then
              match Dispatch(t.elem)
              case Failure(e) => Failure(e)
              case Success(elem) =>
                (match Iterate(v)
                 case Failure(e) => Failure(e)
                 case Success(xs) =>
                   (match ConvertAll(elem, xs)
                    case Failure(e) => Failure(e)
                    case Success(ys) => Success(List(ys))))
            else
              match Dispatch(t)
              case Failure(e) => Failure(e)
              case Success(_) => Convert(t, v)
  }

  /** No object, or a dictionary without the key, gives `None` whatever the
      type. */
  lemma OptionalAbsent(obj: Value, key: string, t: TypeArg)
    requires obj == NoneValue || (obj.Dict? && key !in KeysOf(obj.entries))
    ensures GetOptionalValue(obj, key, t) == Success(NoneValue)
  {
  }

  /** A present key is converted even when its value is `null`: `str`
      then gives the text `"None"`. */
  lemma OptionalStrOfNull(obj: Value, key: string)
    requires obj.Dict? && Lookup(obj.entries, key) == Some(NoneValue)
    ensures GetOptionalValue(obj, key, StrType) == Success(Str("None"))
  {
  }

  /** A present key with a scalar, enum or DTO type gives the conversion
      of its value: `value_type(v)`, the member named `v`, or `from_dict(v)`. */
  lemma OptionalScalar(obj: Value, key: string, t: TypeArg, v: Value)
    requires obj.Dict? && Lookup(obj.entries, key) == Some(v)
    requires t.StrType? || t.IntType? || t.BoolType? || t.EnumType? || t.DtoType?
    ensures GetOptionalValue(obj, key, t) == Convert(t, v)
    ensures t.StrType? ==> GetOptionalValue(obj, key, t) == Success(Str(StrOf(v)))
    ensures t.EnumType? && v.Str? ==> GetOptionalValue(obj, key, t) == EnumExtension.FromString(t.e, v.s)
  {
  }

  /** `List[T]` converts each element the same way, keeping order and
      length. */
  lemma OptionalList(obj: Value, key: string, elem: TypeArg, items: seq<Value>)
    requires obj.Dict? && Lookup(obj.entries, key) == Some(List(items))
    requires elem.StrType? || elem.IntType? || elem.BoolType? || elem.EnumType? || elem.DtoType?
    requires GetOptionalValue(obj, key, ListOf(elem)).Success?
    ensures var r := GetOptionalValue(obj, key, ListOf(elem)).value;
            && r.List? && |r.items| == |items|
            && forall k | 0 <= k < |items| :: Convert(elem, items[k]) == Success(r.items[k])
  {
  }

  /** Any other class, alone or as the element type of a list, is refused. */
  lemma OptionalUnsupported(obj: Value, key: string, name: string)
    requires obj.Dict? && key in KeysOf(obj.entries)
    ensures GetOptionalValue(obj, key, ClassType(name)) == Failure(NotImplemented)
    ensures GetOptionalValue(obj, key, ListOf(ClassType(name))) == Failure(NotImplemented)
  {
  }

  // ---------------------------------------------------------------------
  // `List[...]` class names.

  const ListOpen := "List["

  /** One match of the pattern `List\[[^\]]*\]` starting at `i` and ending
      at `j`: `List[`, then no `]`, then `]`. */
  predicate ListPatternAt(s: string, i: nat, j: nat)
  {
    i + 5 <= j < |s| && OccursAt(s, ListOpen, i) && s[j] == ']'
    && forall k | i + 5 <= k < j :: s[k] != ']'
  }

  /** `re.search(PATTERN_LIST, s)` finds a match. */
  ghost predicate MatchesListPattern(s: string)
  {
    exists i: nat, j: nat :: ListPatternAt(s, i, j)
  }

  /** Some `]` at position `j` or after it. */
  function CloseFrom(s: string, j: nat): bool
    decreases |s| - j
  {
    j < |s| && (s[j] == ']' || CloseFrom(s, j + 1))
  }

  /** A hand-written matcher for the pattern: the first `List[` from
      position `i` on that a `]` follows. */
  function ScanFrom(s: string, i: nat): bool
    decreases |s| - i
  {
    if i + 5 > |s| then false
    else (OccursAt(s, ListOpen, i) && CloseFrom(s, i + 5)) || ScanFrom(s, i + 1)
  }

  /** `find_pattern(dto_object, PATTERN_LIST)`. */
  function FindListPattern(s: string): bool
  {
    ScanFrom(s, 0)
  }

  lemma {:induction false} CloseFromIff(s: string, j: nat)
    ensures CloseFrom(s, j) <==>
      exists e: nat :: j <= e < |s| && s[e] == ']' && forall k | j <= k < e :: s[k] != ']'
    decreases |s| - j
  {
    if j < |s| && s[j] != ']' {
      CloseFromIff(s, j + 1);
      if CloseFrom(s, j + 1) {
        var e: nat :| j + 1 <= e < |s| && s[e] == ']' && forall k | j + 1 <= k < e :: s[k] != ']';
        assert j <= e < |s| && s[e] == ']' && forall k | j <= k < e :: s[k] != ']';
      }
    }
  }

  lemma {:induction false} ScanFromIff(s: string, i: nat)
    ensures ScanFrom(s, i) <==> exists a: nat, b: nat :: i <= a && ListPatternAt(s, a, b)
    decreases |s| - i
  {
    if i + 5 <= |s| {
      CloseFromIff(s, i + 5);
      ScanFromIff(s, i + 1);
      if OccursAt(s, ListOpen, i) && CloseFrom(s, i + 5) {
        var e: nat :| i + 5 <= e < |s| && s[e] == ']' && forall k | i + 5 <= k < e :: s[k] != ']';
        assert ListPatternAt(s, i, e);
      }
      if exists a: nat, b: nat :: i <= a && ListPatternAt(s, a, b) {
        var a: nat, b: nat :| i <= a && ListPatternAt(s, a, b);
        if a == i {
          assert i + 5 <= b < |s| && s[b] == ']' && forall k | i + 5 <= k < b :: s[k] != ']';
        } else {
          assert i + 1 <= a && ListPatternAt(s, a, b);
        }
      }
    }
  }

  /** The matcher agrees with the regular expression. */
  lemma FindListPatternIff(s: string)
    ensures FindListPattern(s) <==> MatchesListPattern(s)
  {
    ScanFromIff(s, 0);
  }

  /** A text without `]` never matches, e.g. `List_ANALYTICS_263509169`. */
  lemma NoCloseNoMatch(s: string)
    requires ']' !in s
    ensures !FindListPattern(s)
  {
    FindListPatternIff(s);
  }

  /** `__extract_dto_name`: whether the class name is a `List[...]`, and
      the name with every `List[` and every `]` removed. */
  function ExtractDtoName(c: ConfigVarDto.ConfigVar): (bool, string)
  {
    (FindListPattern(c.dtoObject), ReplaceAll(ReplaceAll(c.dtoObject, ListOpen, ""), "]", ""))
  }

  /** `List[` cannot start inside its own first five characters. */
  lemma ListOpenNoStraddle(b: string)
    ensures NoStraddle(ListOpen, b, ListOpen)
  {
    var s := ListOpen + b;
    forall i: nat | 0 < i < 5 ensures !OccursAt(s, ListOpen, i) {
      if i + 5 <= |s| {
        assert s[i..i + 5][0] == s[i] == ListOpen[i];
      }
    }
  }

  /** A plain class name comes back unchanged from both replacements. */
  lemma StripPlain(n: string)
    requires ']' !in n && !Contains(n, ListOpen)
    ensures ReplaceAll(ReplaceAll(n, ListOpen, ""), "]", "") == n
  {
    ReplaceAllAbsent(n, ListOpen, "");
    ReplaceAllFree(n, "]", "");
  }

  /** `List[Name]` gives `(True, Name)`; a plain `Name` gives
      `(False, Name)`; e.g. `List[Id]` gives `(True, "Id")`. */
  lemma ExtractDtoNameCases(n: string, path: string, value: string)
    requires ']' !in n && !Contains(n, ListOpen)
    ensures ExtractDtoName(ConfigVarDto.ConfigVar(ListOpen + n + "]", path, value)) == (true, n)
    ensures ExtractDtoName(ConfigVarDto.ConfigVar(n, path, value)) == (false, n)
  {
    var s := ListOpen + n + "]";
    assert ListPatternAt(s, 0, |s| - 1);
    FindListPatternIff(s);
    ListOpenNoStraddle(n + "]");
    assert s == ListOpen + (n + "]");
    ReplaceAllConcat(ListOpen, n + "]", ListOpen, "");
    ReplaceAllWhole(ListOpen, "");
    ReplaceAllSeparated(n, "]", ListOpen, "");
    ReplaceAllAbsent(n, ListOpen, "");
    ReplaceAllFree("]", ListOpen, "");
    assert ReplaceAll(s, ListOpen, "") == n + "]";
    ReplaceCharConcat(n, "]", ']', "");
    ReplaceAllWhole("]", "");
    ReplaceAllFree(n, "]", "");
    assert n + [] == n;
    NoCloseNoMatch(n);
    StripPlain(n);
  }

  /** `__generate_import_string`. */
  function ImportString(dtoPath: string, dtoName: string): string
  {
    "from " + dtoPath + " import " + dtoName
  }

  /** Reading an import statement back into its module path and name. */
  function ParseImport(s: string): Option<(string, string)>
  {
    var words := Split(s, " ");
    if |words| == 4 && words[0] == "from" && words[2] == "import" then Some((words[1], words[3]))
    else None
  }

  /** The statement names exactly the given module and class: module paths
      and class names hold no space. */
  lemma ImportStringRoundTrip(dtoPath: string, dtoName: string)
    requires ' ' !in dtoPath && ' ' !in dtoName
    ensures ParseImport(ImportString(dtoPath, dtoName)) == Some((dtoPath, dtoName))
  {
    var s := ImportString(dtoPath, dtoName);
    assert s == "from" + [' '] + (dtoPath + [' '] + ("import" + [' '] + dtoName));
    SplitCharFirst("from", ' ', dtoPath + [' '] + ("import" + [' '] + dtoName));
    SplitCharFirst(dtoPath, ' ', "import" + [' '] + dtoName);
    SplitCharFirst("import", ' ', dtoName);
    SplitCharFree(dtoName, ' ');
  }
}
