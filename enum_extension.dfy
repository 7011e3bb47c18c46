/** `ExtendedEnum`: an enum class seen as its closed, ordered list of
    members, with lookups by name, by substring of a text and by predicate,
    and `ExtendedEnumByIdentityString`, whose `auto()` values are the
    member names. */
module EnumExtension {
  import opened Wrappers
  import opened Strings
  import opened PyValue
  import ListHelper

  /** An enum class: its name and its members as (name, value) pairs in
      declaration order. Aliases are not members of the iteration and are
      not represented. */
  datatype EnumClass = EnumClass(name: string, members: seq<(string, Value)>)

  /** Python refuses two members with one name. */
  predicate WellFormed(e: EnumClass)
  {
    forall i, j | 0 <= i < j < |e.members| :: e.members[i].0 != e.members[j].0
  }

  /** The member declared at position `i`. */
  function MemberAt(e: EnumClass, i: nat): (m: Value)
    requires i < |e.members|
    ensures m.Member? && m.enumName == e.name
  {
    Member(e.name, e.members[i].0, e.members[i].1)
  }

  /** Iterating over the class. */
  function Members(e: EnumClass): (ms: seq<Value>)
    ensures |ms| == |e.members|
    ensures forall i | 0 <= i < |ms| :: ms[i] == MemberAt(e, i)
  {
    seq(|e.members|, i requires 0 <= i < |e.members| => MemberAt(e, i))
  }

  /** `list()`: the member values in declaration order. */
  function ListValues(e: EnumClass): (vs: seq<Value>)
    ensures |vs| == |e.members|
    ensures forall i | 0 <= i < |vs| :: vs[i] == MemberAt(e, i).value
  {
    seq(|e.members|, i requires 0 <= i < |e.members| => e.members[i].1)
  }

  /** `keys()`: the member names in declaration order. */
  function Keys(e: EnumClass): (ks: seq<string>)
    ensures |ks| == |e.members|
    ensures forall i | 0 <= i < |ks| :: ks[i] == MemberAt(e, i).name
  {
    seq(|e.members|, i requires 0 <= i < |e.members| => e.members[i].0)
  }

  /** `to_dict()`: a dictionary from member name to member value. */
  function ToDict(e: EnumClass): (d: Value)
    ensures d.Dict?
  {
    Dict(e.members)
  }

  /** The dictionary has the names as its keys, in order, and maps each
      name to the value `list()` gives at the same position. */
  lemma ToDictAgrees(e: EnumClass, i: nat)
    requires WellFormed(e) && i < |e.members|
    ensures KeysOf(ToDict(e).entries) == Keys(e)
    ensures Lookup(ToDict(e).entries, Keys(e)[i]) == Some(ListValues(e)[i])
  {
    LookupAt(e.members, i);
  }

  lemma {:induction false} LookupAt(entries: seq<(string, Value)>, i: nat)
    requires i < |entries|
    requires forall a, b | 0 <= a < b < |entries| :: entries[a].0 != entries[b].0
    ensures Lookup(entries, entries[i].0) == Some(entries[i].1)
  {
    if i > 0 {
      LookupAt(entries[1..], i - 1);
      assert entries[1..][i - 1] == entries[i];
    }
  }

  /** Position of the first occurrence of `s` in `names`. */
  function IndexOfName(names: seq<string>, s: string): (r: Option<nat>)
    ensures r.None? <==> s !in names
    ensures r.Some? ==> r.value < |names| && names[r.value] == s
    ensures r.Some? ==> forall j | 0 <= j < r.value :: names[j] != s
  {
    if names == [] then None
    else if names[0] == s then Some(0)
    else match IndexOfName(names[1..], s)
      case None => None
      case Some(k) => Some(k + 1)
  }

  /** What `from_string` returns: the first member whose NAME is the text,
      or a `ValueError`. */
  function FromString(e: EnumClass, s: string): (r: Result<Value, Error>)
    ensures r.Failure? <==> s !in Keys(e)
    ensures r.Failure? ==> r.error == ValueError("No matching enum value for " + s)
    ensures r.Success? ==> r.value.Member? && r.value.enumName == e.name && r.value.name == s
    ensures r.Success? ==> exists i | 0 <= i < |e.members| ::
      && Keys(e)[i] == s
      && (forall j | 0 <= j < i :: Keys(e)[j] != s)
      && r.value == MemberAt(e, i)
  {
    match IndexOfName(Keys(e), s)
    case Some(i) => Success(MemberAt(e, i))
    case None => Failure(ValueError("No matching enum value for " + s))
  }

  /** `from_string`: a scan over the members with an early return. */
  method FromStringScan(e: EnumClass, s: string) returns (r: Result<Value, Error>)
    ensures r == FromString(e, s)
  {
    var i := 0;
    while i < |e.members|
      invariant 0 <= i <= |e.members|
      invariant forall j | 0 <= j < i :: e.members[j].0 != s
    {
      if e.members[i].0 == s {
        assert Keys(e)[i] == s;
        return Success(MemberAt(e, i));
      }
      i := i + 1;
    }
    assert forall j | 0 <= j < |e.members| :: Keys(e)[j] != s;
    return Failure(ValueError("No matching enum value for " + s));
  }

  /** `str(member)`: the text of its value. */
  lemma StrOfMember(e: EnumClass, i: nat)
    requires i < |e.members|
    ensures StrOf(MemberAt(e, i)) == StrOf(e.members[i].1)
  {
  }

  /** A member that `detects_if_enum_in_x` passes over: a `None` value, or
      a text that does not occur in `x`. */
  predicate Skipped(v: Value, x: string)
  {
    v == NoneValue || (v.Str? && !Contains(x, v.s))
  }

  /** The search of `detects_if_enum_in_x` from position `i` on. A value
      that is not `None` and not a text makes `in` raise a `TypeError`. */
  function DetectFrom(e: EnumClass, x: string, i: nat): Result<Value, Error>
    requires i <= |e.members|
    decreases |e.members| - i
  {
    if i == |e.members| then
      match IndexOfName(Keys(e), "DEFAULT")
      case Some(d) => Success(MemberAt(e, d))
      case None => Failure(ValueError("Enum could not be found in the string «" + x + "»."))
    else
      var v := e.members[i].1;
      if v == NoneValue then DetectFrom(e, x, i + 1)
      else if !v.Str? then
        Failure(TypeError("'in <string>' requires string as left operand, not " + ClassName(v)))
      else if Contains(x, v.s) then Success(MemberAt(e, i))
      else DetectFrom(e, x, i + 1)
  }

  /** The text searched: `method(x)` when a method is given. */
  function Prepare(x: string, transform: Option<string -> string>): string
  {
    match transform
    case None => x
    case Some(f) => f(x)
  }

  /** What `detects_if_enum_in_x` returns. */
  function DetectsIfEnumIn(e: EnumClass, x: string, transform: Option<string -> string>): Result<Value, Error>
  {
    DetectFrom(e, Prepare(x, transform), 0)
  }

  /** `detects_if_enum_in_x`: a scan over the members with an early return. */
  method DetectScan(e: EnumClass, x: string, transform: Option<string -> string>) returns (r: Result<Value, Error>)
    ensures r == DetectsIfEnumIn(e, x, transform)
  {
    var text := x;
    if transform.Some? {
      text := transform.value(x);
    }
    var i := 0;
    while i < |e.members|
      invariant 0 <= i <= |e.members|
      invariant DetectFrom(e, text, i) == DetectFrom(e, text, 0)
    {
      var v := e.members[i].1;
      if v != NoneValue {
        if !v.Str? {
          return Failure(TypeError("'in <string>' requires string as left operand, not " + ClassName(v)));
        }
        if Contains(text, v.s) {
          return Success(MemberAt(e, i));
        }
      }
      i := i + 1;
    }
    var names := seq(|e.members|, j requires 0 <= j < |e.members| => e.members[j].0);
    assert names == Keys(e);
    var d := IndexOfName(names, "DEFAULT");
    if d.Some? {
      return Success(MemberAt(e, d.value));
    }
    return Failure(ValueError("Enum could not be found in the string «" + text + "»."));
  }

  /** Members passed over do not change the outcome. */
  lemma {:induction false} DetectSkips(e: EnumClass, x: string, i: nat, k: nat)
    requires i <= k <= |e.members|
    requires forall j | i <= j < k :: Skipped(e.members[j].1, x)
    ensures DetectFrom(e, x, i) == DetectFrom(e, x, k)
    decreases k - i
  {
    if i < k {
      DetectSkips(e, x, i + 1, k);
    }
  }

  /** The first member, in declaration order, whose text value occurs in
      the searched text is the one returned. */
  lemma DetectFirstMatch(e: EnumClass, x: string, transform: Option<string -> string>, i: nat)
    requires i < |e.members|
    requires e.members[i].1.Str? && Contains(Prepare(x, transform), e.members[i].1.s)
    requires forall j | 0 <= j < i :: Skipped(e.members[j].1, Prepare(x, transform))
    ensures DetectsIfEnumIn(e, x, transform) == Success(MemberAt(e, i))
  {
    DetectSkips(e, Prepare(x, transform), 0, i);
  }

  /** With no member found, the result is the member `DEFAULT` when the
      class has one, and a `ValueError` naming the text otherwise. */
  lemma DetectNoMatch(e: EnumClass, x: string, transform: Option<string -> string>)
    requires forall j | 0 <= j < |e.members| :: Skipped(e.members[j].1, Prepare(x, transform))
    ensures "DEFAULT" in Keys(e) ==>
      DetectsIfEnumIn(e, x, transform).Success? && DetectsIfEnumIn(e, x, transform).value.Member?
      && DetectsIfEnumIn(e, x, transform).value.name == "DEFAULT"
    ensures "DEFAULT" !in Keys(e) ==>
      DetectsIfEnumIn(e, x, transform)
        == Failure(ValueError("Enum could not be found in the string «" + Prepare(x, transform) + "»."))
  {
    DetectSkips(e, Prepare(x, transform), 0, |e.members|);
  }

  /** `where(predicate)`: the members satisfying the predicate. */
  function Where(e: EnumClass, pred: Value -> bool): seq<Value>
  {
    ListHelper.Filter(Members(e), pred)
  }

  /** A member is in `where`'s result exactly when it satisfies the
      predicate, and the result keeps declaration order. */
  lemma WhereExact(e: EnumClass, pred: Value -> bool, i: nat)
    requires i < |e.members|
    ensures MemberAt(e, i) in Where(e, pred) <==> pred(MemberAt(e, i))
    ensures ListHelper.IsSubsequence(Where(e, pred), Members(e))
  {
    ListHelper.FilterMembership(Members(e), pred, MemberAt(e, i));
    ListHelper.FilterIsSubsequence(Members(e), pred);
  }

  /** The `Color` enum of the documentation. */
  function Color(): EnumClass
  {
    EnumClass("Color", [("RED", Int(1)), ("GREEN", Int(2)), ("BLUE", Int(3)), ("YELLOW", Int(4)), ("PURPLE", Int(5))])
  }

  /** `Color.where(lambda c: c.value > 2)` gives BLUE, YELLOW, PURPLE. */
  lemma WhereColorExample()
    ensures Where(Color(), (c: Value) => c.Member? && c.value.Int? && c.value.i > 2)
         == [Member("Color", "BLUE", Int(3)), Member("Color", "YELLOW", Int(4)), Member("Color", "PURPLE", Int(5))]
  {
    var p := (c: Value) => c.Member? && c.value.Int? && c.value.i > 2;
    var ms := Members(Color());
    assert ms == [Member("Color", "RED", Int(1)), Member("Color", "GREEN", Int(2)), Member("Color", "BLUE", Int(3)),
                  Member("Color", "YELLOW", Int(4)), Member("Color", "PURPLE", Int(5))];
    assert ListHelper.Filter(ms[5..], p) == [];
    assert ListHelper.Filter(ms[4..], p) == [ms[4]] by { assert ms[4..][1..] == ms[5..]; }
    assert ListHelper.Filter(ms[3..], p) == [ms[3], ms[4]] by { assert ms[3..][1..] == ms[4..]; }
    assert ListHelper.Filter(ms[2..], p) == [ms[2], ms[3], ms[4]] by { assert ms[2..][1..] == ms[3..]; }
    assert ListHelper.Filter(ms[1..], p) == [ms[2], ms[3], ms[4]] by { assert ms[1..][1..] == ms[2..]; }
    assert ms[0..] == ms;
  }

  /** `_generate_next_value_` of an identity-string enum: `auto()` gives
      the member's own name. */
  function GenerateNextValue(name: string, start: int, count: nat, lastValues: seq<Value>): Value
  {
    Str(name)
  }

  /** An enum whose members are all declared with `auto()`. */
  function IdentityEnum(enumName: string, names: seq<string>): (e: EnumClass)
    ensures |e.members| == |names|
  {
    EnumClass(enumName, seq(|names|, i requires 0 <= i < |names| =>
      (names[i], GenerateNextValue(names[i], 1, i, seq(i, j requires 0 <= j < i => Str(names[j]))))))
  }

  /** In an identity-string enum, `str(member)` is the member's name, and
      `from_string` on that text gives the member back. */
  lemma IdentityRoundTrip(enumName: string, names: seq<string>, i: nat)
    requires i < |names|
    requires forall a, b | 0 <= a < b < |names| :: names[a] != names[b]
    ensures MemberAt(IdentityEnum(enumName, names), i).value == Str(names[i])
    ensures StrOf(MemberAt(IdentityEnum(enumName, names), i)) == names[i]
    ensures FromString(IdentityEnum(enumName, names), names[i]) == Success(MemberAt(IdentityEnum(enumName, names), i))
  {
    var e := IdentityEnum(enumName, names);
    var ks := Keys(e);
    assert ks[i] == names[i];
    var k := IndexOfName(ks, names[i]).value;
    assert ks[k] == names[k];
  }
}
