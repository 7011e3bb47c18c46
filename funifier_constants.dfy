/** The constants the Funifier service is written against: the placeholder
    tokens of its query templates, the aggregation route it posts to, and
    the enums that name the HTTP methods and the text encodings. */
module FunifierConstants {
  import opened Wrappers
  import opened PyValue
  import opened EnumExtension

  // Placeholder tokens, declared in alphabetical order.
  const LeadingComa: string := "#leading_coma#"
  const Lottery: string := "#lottery_uid#"
  const NDays: string := "#n_days#"
  const NEntries: string := "#n_entries#"
  const Player: string := "#player_uid#"
  const Ticket: string := "#ticket_uid#"
  const TimeAttribute: string := "#time_attribute#"
  const TimePeriod: string := "#timeperiod#"

  /** The route of the aggregation endpoint of the `achievement` collection. */
  const DbAchievementAggr: string := "/database/achievement/aggregate?strict=true"

  /** All placeholder tokens, in declaration order. */
  function Placeholders(): (ps: seq<string>)
    ensures |ps| == 8
  {
    [LeadingComa, Lottery, NDays, NEntries, Player, Ticket, TimeAttribute, TimePeriod]
  }

  /** Every placeholder is a non-empty name between two `#`, and no two
      are the same; so a text without `#` holds none of them. */
  lemma PlaceholdersDelimited()
    ensures forall k | 0 <= k < |Placeholders()| ::
      var p := Placeholders()[k];
      |p| >= 3 && p[0] == '#' && p[|p| - 1] == '#' && '#' !in p[1..|p| - 1]
    ensures forall j, k | 0 <= j < k < |Placeholders()| :: Placeholders()[j] != Placeholders()[k]
  {
    var ps := Placeholders();
    forall k | 0 <= k < |ps|
      ensures |ps[k]| >= 3 && ps[k][0] == '#' && ps[k][|ps[k]| - 1] == '#' && '#' !in ps[k][1..|ps[k]| - 1]
    {
      var p := ps[k];
      assert p == ps[k];
    }
    forall j, k | 0 <= j < k < |ps| ensures ps[j] != ps[k] {
      assert |ps[j]| != |ps[k]| || ps[j][1] != ps[k][1] || ps[j][3] != ps[k][3];
    }
  }

  /** `HTTPmethodsEnum`: every member is declared with `auto()`, whose
      value is the member's name. */
  function HttpMethods(): (e: EnumClass)
    ensures e.name == "HTTPmethodsEnum" && |e.members| == 5
  {
    IdentityEnum("HTTPmethodsEnum", ["GET", "POST", "PUT", "PATCH", "DELETE"])
  }

  /** `HTTPmethodsEnum.GET` and `HTTPmethodsEnum.POST`. */
  function Get(): Value { MemberAt(HttpMethods(), 0) }
  function Post(): Value { MemberAt(HttpMethods(), 1) }

  /** The value of `GET` is the text `"GET"`, that of `POST` the text
      `"POST"`, and each member is found again by its name. */
  lemma HttpMethodValues()
    ensures Get().value == Str("GET") && Post().value == Str("POST")
    ensures FromString(HttpMethods(), "GET") == Success(Get())
    ensures FromString(HttpMethods(), "POST") == Success(Post())
  {
    var names := ["GET", "POST", "PUT", "PATCH", "DELETE"];
    assert forall a, b | 0 <= a < b < |names| :: names[a] != names[b] by {
      forall a, b | 0 <= a < b < |names| ensures names[a] != names[b] {
        assert names[a][0] != names[b][0] || names[a][1] != names[b][1];
      }
    }
    IdentityRoundTrip("HTTPmethodsEnum", names, 0);
    IdentityRoundTrip("HTTPmethodsEnum", names, 1);
  }

  /** `EncodingEnum`: codec names keyed by member name. */
  function Encodings(): (e: EnumClass)
    ensures e.name == "EncodingEnum" && |e.members| == 4
  {
    EnumClass("EncodingEnum", [("ASCII", Str("ascii")), ("LATIN1", Str("iso-8859-1")),
                               ("UTF8", Str("utf-8")), ("UTF16", Str("utf-16"))])
  }

  /** The member names are distinct, and `UTF8` and `ASCII` name the
      codecs `utf-8` and `ascii`. */
  lemma EncodingValues()
    ensures WellFormed(Encodings())
    ensures FromString(Encodings(), "UTF8") == Success(Member("EncodingEnum", "UTF8", Str("utf-8")))
    ensures FromString(Encodings(), "ASCII") == Success(Member("EncodingEnum", "ASCII", Str("ascii")))
  {
    var e := Encodings();
    forall i, j | 0 <= i < j < |e.members| ensures e.members[i].0 != e.members[j].0 {
      assert |e.members[i].0| != |e.members[j].0| || e.members[i].0[0] != e.members[j].0[0];
    }
    var ks := Keys(e);
    assert ks[0] == "ASCII" && ks[1] == "LATIN1" && ks[2] == "UTF8";
  }
}
