/** The slice of Python's runtime that the helpers work on: the values a
    decoded JSON document, an enum member or a dataclass instance can be,
    the exceptions the helpers raise, and the built-in conversions
    `str()`, `repr()`, `int()` and `bool()` on those values. */
module PyValue {
  import opened Wrappers
  import opened Strings

  /** A Python value. Dictionaries and dataclass fields keep insertion order.
      An enum member carries its enum's name, its own name and its value;
      a dataclass instance carries its class name, whether the class
      extends `ExtendedDTO`, and its attributes in declaration order. */
  datatype Value =
    | NoneValue
    | Str(s: string)
    | Int(i: int)
    | Bool(b: bool)
    | List(items: seq<Value>)
    | Dict(entries: seq<(string, Value)>)
    | Member(enumName: string, name: string, value: Value)
    | Obj(cls: string, isDto: bool, fields: seq<(string, Value)>)

  /** The exceptions the core raises, with their messages. */
  datatype Error =
    | TypeError(message: string)
    | ValueError(message: string)
    | AttributeError(message: string)
    | KeyError(key: string)
    | FunifierApiError(errorMessage: Value)

  /** Keys of an ordered association list, in order. */
  function KeysOf(entries: seq<(string, Value)>): (ks: seq<string>)
    ensures |ks| == |entries|
    ensures forall i | 0 <= i < |entries| :: ks[i] == entries[i].0
  {
    if entries == [] then [] else [entries[0].0] + KeysOf(entries[1..])
  }

  /** The value stored under `key`: the first entry with that key. */
  function Lookup(entries: seq<(string, Value)>, key: string): (r: Option<Value>)
    ensures r.None? <==> key !in KeysOf(entries)
    ensures r.Some? ==> exists i | 0 <= i < |entries| :: entries[i] == (key, r.value)
  {
    if entries == [] then None
    else if entries[0].0 == key then Some(entries[0].1)
    else Lookup(entries[1..], key)
  }

  /** The message of the `AttributeError` for a missing attribute. */
  function NoAttribute(v: Value, name: string): Error
  {
    AttributeError("'" + ClassName(v) + "' object has no attribute '" + name + "'")
  }

  /** `getattr(v, name)` for a data attribute: a dataclass field, or the
      `name` and `value` of an enum member. */
  function GetAttr(v: Value, name: string): (r: Result<Value, Error>)
    ensures r.Failure? ==> r.error == NoAttribute(v, name)
    ensures v.Obj? ==> (r.Success? <==> name in KeysOf(v.fields))
  {
    match v
    case Obj(_, _, fields) =>
      (match Lookup(fields, name)
       case Some(x) => Success(x)
       case None => Failure(NoAttribute(v, name)))
    case Member(_, memberName, value) =>
      if name == "name" then Success(Str(memberName))
      else if name == "value" then Success(value)
      else Failure(NoAttribute(v, name))
    case _ => Failure(NoAttribute(v, name))
  }

  /** `obj.get(key)`: the value under `key`, `None` when the key is
      absent; only a dictionary has `get`. */
  function Get(obj: Value, key: string): (r: Result<Value, Error>)
    ensures !obj.Dict? <==> r.Failure?
    ensures r.Failure? ==> r.error == NoAttribute(obj, "get")
    ensures obj.Dict? && key !in KeysOf(obj.entries) ==> r == Success(NoneValue)
  {
    if !obj.Dict? then Failure(NoAttribute(obj, "get"))
    else match Lookup(obj.entries, key)
      case Some(v) => Success(v)
      case None => Success(NoneValue)
  }

  /** `type(v).__name__`. */
  function ClassName(v: Value): string
  {
    match v
    case NoneValue => "NoneType"
    case Str(_) => "str"
    case Int(_) => "int"
    case Bool(_) => "bool"
    case List(_) => "list"
    case Dict(_) => "dict"
    case Member(enumName, _, _) => enumName
    case Obj(cls, _, _) => cls
  }

  /** The type name in a builtin's "argument must be ..." message: `None`
      for `None`, the class name otherwise. */
  function ArgTypeName(v: Value): (n: string)
    ensures v == NoneValue ==> n == "None"
    ensures v != NoneValue ==> n == ClassName(v)
  {
    if v == NoneValue then "None" else ClassName(v)
  }

  /** `str(type(v))`. A dataclass's module prefix is not modelled. */
  function TypeName(v: Value): string
  {
    if v.Member? then "<enum '" + ClassName(v) + "'>" else "<class '" + ClassName(v) + "'>"
  }

  /** `bool(v)`: Python truthiness. */
  function Truthy(v: Value): bool
  {
    match v
    case NoneValue => false
    case Str(s) => s != []
    case Int(i) => i != 0
    case Bool(b) => b
    case List(items) => items != []
    case Dict(entries) => entries != []
    case Member(_, _, _) => true
    case Obj(_, _, _) => true
  }

  /** `entries[i]` is the first entry with its key. A Python dictionary
      holds each key once; where the representation repeats a key, the
      model reads the first entry (`Lookup`, `PyEq`) by convention. */
  predicate FirstOf(entries: seq<(string, Value)>, i: nat)
    requires i < |entries|
  {
    forall k | 0 <= k < i :: entries[k].0 != entries[i].0
  }

  /** Looking a key up gives the value of the first entry with that key. */
  lemma {:induction false} LookupFirst(entries: seq<(string, Value)>, i: nat)
    requires i < |entries| && FirstOf(entries, i)
    ensures Lookup(entries, entries[i].0) == Some(entries[i].1)
  {
    if i > 0 {
      assert entries[0].0 != entries[i].0;
      assert entries[1..][i - 1] == entries[i];
      LookupFirst(entries[1..], i - 1);
    }
  }

  /** Two dictionaries have the same keys. */
  predicate SameKeys(a: seq<(string, Value)>, b: seq<(string, Value)>)
  {
    && (forall i | 0 <= i < |a| :: a[i].0 in KeysOf(b))
    && (forall j | 0 <= j < |b| :: b[j].0 in KeysOf(a))
  }

  /** Python's `==`. `True` and `False` equal `1` and `0`; lists compare
      item by item; dictionaries compare key by key whatever the order of
      insertion; dataclass instances compare when their class is the same,
      field by field; enum members are equal only to themselves. */
  function PyEq(x: Value, y: Value): bool
    decreases x
  {
    match x
    case NoneValue => y.NoneValue?
    case Str(s) => y.Str? && y.s == s
    case Int(i) => (y.Int? && y.i == i) || (y.Bool? && i == (if y.b then 1 else 0))
    case Bool(b) => (y.Bool? && y.b == b) || (y.Int? && y.i == (if b then 1 else 0))
    case List(items) =>
      && y.List? && |items| == |y.items|
      && forall k | 0 <= k < |items| :: PyEq(items[k], y.items[k])
    case Dict(entries) =>
      && y.Dict? && SameKeys(entries, y.entries)
      && forall i, j | 0 <= i < |entries| && 0 <= j < |y.entries|
                       && entries[i].0 == y.entries[j].0 && FirstOf(entries, i) && FirstOf(y.entries, j) ::
           PyEq(entries[i].1, y.entries[j].1)
    case Member(enumName, name, _) => y.Member? && y.enumName == enumName && y.name == name
    case Obj(cls, isDto, fields) =>
      && y.Obj? && y.cls == cls && y.isDto == isDto && |fields| == |y.fields|
      && forall k | 0 <= k < |fields| :: fields[k].0 == y.fields[k].0 && PyEq(fields[k].1, y.fields[k].1)
  }

  /** Every value equals itself. */
  lemma {:induction false} PyEqRefl(x: Value)
    ensures PyEq(x, x)
    decreases x
  {
    match x
    case List(items) =>
      forall k | 0 <= k < |items| ensures PyEq(items[k], items[k]) {
        PyEqRefl(items[k]);
      }
    case Dict(entries) =>
      forall i, j | 0 <= i < |entries| && 0 <= j < |entries|
                    && entries[i].0 == entries[j].0 && FirstOf(entries, i) && FirstOf(entries, j)
        ensures PyEq(entries[i].1, entries[j].1)
      {
        assert i == j;
        PyEqRefl(entries[i].1);
      }
    case Obj(_, _, fields) =>
      forall k | 0 <= k < |fields| ensures PyEq(fields[k].1, fields[k].1) {
        PyEqRefl(fields[k].1);
      }
    case _ =>
  }

  /** `int(v)`. */
  function IntOf(v: Value): Result<int, Error>
  {
    match v
    case Int(i) => Success(i)
    case Bool(b) => Success(if b then 1 else 0)
    case Str(s) =>
      (match ParseInt(s)
       case Some(n) => Success(n)
       case None => Failure(ValueError("invalid literal for int() with base 10: " + ReprStr(s))))
    case _ => Failure(TypeError("int() argument must be a string, a bytes-like object or a real number, not '" + ClassName(v) + "'"))
  }

  function HexDigit(d: nat): char
    requires d < 16
  {
    if d < 10 then DigitChar(d) else ('a' as int + (d - 10)) as char
  }

  /** Characters that `repr` writes as a `\xNN` escape. */
  predicate IsHexEscaped(c: char)
  {
    (c as int < 0x20 && c != '\t' && c != '\n' && c != '\r')
    || (0x7f <= c as int <= 0xa0) || c as int == 0xad
  }

  /** How `repr` writes one character inside a literal quoted with `q`. */
  function EscapeChar(c: char, q: char): string
  {
    if c == '\\' then "\\\\"
    else if c == q then ['\\', q]
    else if c == '\t' then "\\t"
    else if c == '\n' then "\\n"
    else if c == '\r' then "\\r"
    else if IsHexEscaped(c) then "\\x" + [HexDigit(c as int / 16), HexDigit(c as int % 16)]
    else [c]
  }

  function Escape(s: string, q: char): string
  {
    if s == [] then [] else EscapeChar(s[0], q) + Escape(s[1..], q)
  }

  /** `repr(s)` for a string: single quotes unless the text holds a single
      quote and no double quote. */
  function ReprStr(s: string): string
  {
    var q := if '\'' in s && '"' !in s then '"' else '\'';
    [q] + Escape(s, q) + [q]
  }

  /** `repr(v)`. */
  function Repr(v: Value): string
    decreases v
  {
    match v
    case NoneValue => "None"
    case Str(s) => ReprStr(s)
    case Int(i) => IntToString(i)
    case Bool(b) => if b then "True" else "False"
    case List(items) =>
      "[" + Join(seq(|items|, k requires 0 <= k < |items| => Repr(items[k])), ", ") + "]"
    case Dict(entries) =>
      "{" + Join(seq(|entries|, k requires 0 <= k < |entries| =>
                   ReprStr(entries[k].0) + ": " + Repr(entries[k].1)), ", ") + "}"
    case Member(enumName, name, value) =>
      "<" + enumName + "." + name + ": " + Repr(value) + ">"
    case Obj(cls, _, fields) =>
      cls + "(" + Join(seq(|fields|, k requires 0 <= k < |fields| =>
                         fields[k].0 + "=" + Repr(fields[k].1)), ", ") + ")"
  }

  /** `str(v)`: the text itself for a string, the value's text for an
      `ExtendedEnum` member (its `__str__`), `repr` otherwise. */
  function StrOf(v: Value): string
    decreases v
  {
    match v
    case Str(s) => s
    case Member(_, _, value) => StrOf(value)
    case _ => Repr(v)
  }

  /** Text that `repr` quotes without escaping anything. */
  predicate Plain(s: string)
  {
    forall i | 0 <= i < |s| ::
      s[i] != '\'' && s[i] != '"' && s[i] != '\\' && ' ' <= s[i] && !IsHexEscaped(s[i])
  }

  /** Printable ASCII other than the quotes and the backslash. */
  predicate Printable(c: char)
  {
    ' ' <= c <= '~' && c != '\'' && c != '"' && c != '\\'
  }

  /** Text of such characters is plain. */
  lemma PrintablePlain(s: string)
    requires forall i | 0 <= i < |s| :: Printable(s[i])
    ensures Plain(s)
  {
  }

  lemma {:induction false} EscapePlain(s: string, q: char)
    requires Plain(s) && (q == '\'' || q == '"')
    ensures Escape(s, q) == s
  {
    if s != [] {
      EscapePlain(s[1..], q);
      assert s == [s[0]] + s[1..];
    }
  }

  /** Plain text is written between single quotes, unchanged. */
  lemma ReprPlain(s: string)
    requires Plain(s)
    ensures ReprStr(s) == "'" + s + "'"
  {
    EscapePlain(s, '\'');
    assert forall i | 0 <= i < |s| :: s[i] != '\'';
  }

  /** `repr` of a one-entry dictionary: `{<repr key>: <repr value>}`. */
  lemma ReprDictOne(k: string, v: Value)
    ensures Repr(Dict([(k, v)])) == "{" + (ReprStr(k) + ": " + Repr(v)) + "}"
  {
    var e := [(k, v)];
    var parts := seq(|e|, i requires 0 <= i < |e| => ReprStr(e[i].0) + ": " + Repr(e[i].1));
    assert parts == [ReprStr(k) + ": " + Repr(v)];
  }

  /** `repr` of a two-entry dictionary, entries in order, `, ` between. */
  lemma ReprDictTwo(k1: string, v1: Value, k2: string, v2: Value)
    ensures Repr(Dict([(k1, v1), (k2, v2)]))
      == "{" + (ReprStr(k1) + ": " + Repr(v1)) + ", " + (ReprStr(k2) + ": " + Repr(v2)) + "}"
  {
    var e := [(k1, v1), (k2, v2)];
    var a, b := ReprStr(k1) + ": " + Repr(v1), ReprStr(k2) + ": " + Repr(v2);
    var parts := seq(|e|, i requires 0 <= i < |e| => ReprStr(e[i].0) + ": " + Repr(e[i].1));
    assert Repr(Dict(e)) == "{" + Join(parts, ", ") + "}";
    assert parts == [a, b];
    JoinTwo(a, b, ", ");
  }

  /** `int(str(n)) == n`: an integer survives the trip through its text. */
  lemma IntOfStrOf(n: int)
    ensures IntOf(Str(StrOf(Int(n)))) == Success(n)
  {
    ParseIntRoundTrip(n);
  }
}
