/** The text the Funifier service sends: the two aggregation pipelines of
    the lottery queries, filled in with `str.replace` at their placeholders,
    and the two date fragments of a `$match` clause, the absolute range and
    the period relative to today. */
module FunifierQueries {
  import opened Wrappers
  import opened Strings
  import opened PyValue
  import opened FunifierConstants
  import opened FunifierTemplates

  /** The participant-count pipeline: the ticket placeholder between its
      two halves. */
  function CountTemplate(): string
  {
    CountHead() + Ticket + CountTail()
  }

  /** The winners pipeline: the lottery and the ticket placeholder in it. */
  function WinnersTemplate(): string
  {
    WinnersHead() + Lottery + WinnersLookup() + Ticket + WinnersRest()
  }

  /** The body of `count_lottery_participants`: every ticket placeholder
      replaced by the ticket UID. */
  function CountBody(ticketUid: string): string
  {
    ReplaceAll(CountTemplate(), Ticket, ticketUid)
  }

  /** The body of `get_lottery_winners_with_address`: the lottery
      placeholders replaced first, then the ticket placeholders. */
  function WinnersBody(lotteryUid: string, ticketUid: string): string
  {
    ReplaceAll(ReplaceAll(WinnersTemplate(), Lottery, lotteryUid), Ticket, ticketUid)
  }

  /** One placeholder between two texts free of its first character is
      replaced, and nothing else changes. */
  lemma FillOne(h: string, e: string, p: string, r: string)
    requires p != [] && p[0] !in h && p[0] !in e
    ensures ReplaceAll(h + p + e, p, r) == h + r + e
  {
    assert h + p + e == h + (p + e);
    ReplaceAllFreePrefix(h, p + e, p, r);
    ReplaceAllMatchFront(e, p, r);
    ReplaceAllFree(e, p, r);
  }

  /** A placeholder at the front of a text that it leaves unchanged. */
  lemma FillOneFront(h: string, rest: string, p: string, r: string)
    requires p != [] && p[0] !in h && ReplaceAll(rest, p, r) == rest
    ensures ReplaceAll(h + p + rest, p, r) == h + r + rest
  {
    assert h + p + rest == h + (p + rest);
    ReplaceAllFreePrefix(h, p + rest, p, r);
    ReplaceAllMatchFront(rest, p, r);
  }

  /** Filling the count pipeline puts the ticket UID where the placeholder
      was and leaves every other character of the template as it is. */
  lemma CountBodyFilled(ticketUid: string)
    ensures CountBody(ticketUid) == CountHead() + ticketUid + CountTail()
  {
    assert Ticket[0] == '#';
    FillOne(CountHead(), CountTail(), Ticket, ticketUid);
  }

  /** The lottery and the ticket placeholders are distinct tokens. */
  lemma TokensDistinct()
    ensures Delimited(Lottery, '#') && Delimited(Ticket, '#') && Lottery != Ticket
    ensures Delimited(LeadingComa, '#') && Delimited(TimeAttribute, '#') && Delimited(NDays, '#')
    ensures LeadingComa != TimeAttribute && LeadingComa != NDays && TimeAttribute != NDays
  {
    PlaceholdersDelimited();
    var ps := Placeholders();
    assert ps[0] == LeadingComa && ps[1] == Lottery && ps[2] == NDays && ps[5] == Ticket && ps[6] == TimeAttribute;
  }

  /** The lottery placeholder filled in a template that holds it once,
      among texts without `#` and the ticket placeholder. */
  lemma FillLottery(h: string, x: string, e: string, lotteryUid: string)
    requires '#' !in h && '#' !in x && '#' !in e
    ensures ReplaceAll(h + Lottery + x + Ticket + e, Lottery, lotteryUid) == h + lotteryUid + x + Ticket + e
  {
    TokensDistinct();
    var rest := x + Ticket + e;
    assert rest == x + (Ticket + e);
    ReplaceAllFreePrefix(x, Ticket + e, Lottery, lotteryUid);
    TokenPrefix(Ticket, e, Lottery, '#', lotteryUid);
    ReplaceAllFree(e, Lottery, lotteryUid);
    assert ReplaceAll(rest, Lottery, lotteryUid) == rest;
    assert h + Lottery + x + Ticket + e == h + Lottery + rest;
    FillOneFront(h, rest, Lottery, lotteryUid);
  }

  /** A placeholder after an inserted text `u` that is followed by a
      character the placeholder does not hold: occurrences inside `u` are
      replaced, and the placeholder itself. */
  lemma FillAfter(h: string, u: string, x: string, p: string, e: string, r: string)
    requires p != [] && p[0] !in h && p[0] !in x && p[0] !in e && x != [] && x[0] !in p
    ensures ReplaceAll(h + u + x + p + e, p, r) == h + ReplaceAll(u, p, r) + x + r + e
  {
    var rest := x + p + e;
    calc {
      ReplaceAll(h + u + x + p + e, p, r);
    == { assert h + u + x + p + e == h + (u + rest); }
      ReplaceAll(h + (u + rest), p, r);
    == { ReplaceAllFreePrefix(h, u + rest, p, r); }
      h + ReplaceAll(u + rest, p, r);
    == { assert rest[0] == x[0]; assert Separated(u, rest, p); ReplaceAllSeparated(u, rest, p, r); }
      h + (ReplaceAll(u, p, r) + ReplaceAll(rest, p, r));
    == { FillOne(x, e, p, r); }
      h + (ReplaceAll(u, p, r) + (x + r + e));
    }
  }

  /** The ticket placeholder filled after the lottery UID. */
  lemma FillTicket(h: string, u: string, x: string, e: string, ticketUid: string)
    requires '#' !in h && '#' !in x && '#' !in e && x != [] && x[0] == '"'
    ensures ReplaceAll(h + u + x + Ticket + e, Ticket, ticketUid)
      == h + ReplaceAll(u, Ticket, ticketUid) + x + ticketUid + e
  {
    assert Ticket[0] == '#' && '"' !in Ticket;
    FillAfter(h, u, x, Ticket, e, ticketUid);
  }

  /** Filling the winners pipeline: the lottery UID goes where the lottery
      placeholder was, the ticket UID where the ticket placeholder was.
      Because the lottery UID is put in first, a ticket placeholder inside
      it is replaced as well. */
  lemma WinnersBodyFilled(lotteryUid: string, ticketUid: string)
    ensures WinnersBody(lotteryUid, ticketUid)
      == WinnersHead() + ReplaceAll(lotteryUid, Ticket, ticketUid) + WinnersLookup() + ticketUid + WinnersRest()
  {
    var h, x, e := WinnersHead(), WinnersLookup(), WinnersRest();
    FillLottery(h, x, e, lotteryUid);
    FillTicket(h, lotteryUid, x, e, ticketUid);
  }

  /** A lottery UID without `#` is put in as it is. */
  lemma WinnersBodyPlain(lotteryUid: string, ticketUid: string)
    requires '#' !in lotteryUid
    ensures WinnersBody(lotteryUid, ticketUid)
      == WinnersHead() + lotteryUid + WinnersLookup() + ticketUid + WinnersRest()
  {
    calc {
      WinnersBody(lotteryUid, ticketUid);
    == { WinnersBodyFilled(lotteryUid, ticketUid); }
      WinnersHead() + ReplaceAll(lotteryUid, Ticket, ticketUid) + WinnersLookup() + ticketUid + WinnersRest();
    == { ReplaceAllFree(lotteryUid, Ticket, ticketUid); }
      WinnersHead() + lotteryUid + WinnersLookup() + ticketUid + WinnersRest();
    }
  }

  // ---------------------------------------------------------------------
  // `__define_time_range`

  /** The time of day appended to both dates. */
  const TimeConst: string := "T00:00:00.000Z"

  /** The query dictionary: the time attribute mapped to a `$gte` and a
      `$lte` bound, each a `$date` of the date followed by midnight. */
  function DateQuery(fromDate: Value, toDate: Value, timeAttribute: string): Value
  {
    Dict([(timeAttribute, Dict([("$gte", Dict([("$date", Str(StrOf(fromDate) + TimeConst))])),
                                ("$lte", Dict([("$date", Str(StrOf(toDate) + TimeConst))]))]))])
  }

  /** `s.replace("'", '"')`. */
  function DoubleQuoted(s: string): string
  {
    ReplaceAll(s, "'", "\"")
  }

  /** `s[1:-1]`: the text without its first and its last character. */
  function Inner(s: string): (r: string)
    ensures |s| >= 2 ==> s == [s[0]] + r + [s[|s| - 1]]
    ensures |s| < 2 ==> r == []
  {
    if |s| >= 2 then s[1..|s| - 1] else []
  }

  /** `__define_time_range`: the text of the query dictionary with double
      quotes, without its outer braces. No single quote remains. */
  function DefineTimeRange(fromDate: Value, toDate: Value, timeAttribute: string): (r: string)
    ensures '\'' !in r
  {
    var text := DoubleQuoted(Repr(DateQuery(fromDate, toDate, timeAttribute)));
    ReplaceCharRemoves(Repr(DateQuery(fromDate, toDate, timeAttribute)), '\'', "\"");
    Inner(text)
  }

  lemma PlainConcat(a: string, b: string)
    requires Plain(a) && Plain(b)
    ensures Plain(a + b)
  {
    assert forall i | 0 <= i < |a + b| :: (a + b)[i] == if i < |a| then a[i] else b[i - |a|];
  }

  /** A plain text is written between double quotes. */
  lemma DoubleQuotedPlain(s: string)
    requires Plain(s)
    ensures DoubleQuoted(ReprStr(s)) == "\"" + s + "\""
  {
    ReprPlain(s);
    assert '\'' !in s by {
      assert forall i | 0 <= i < |s| :: s[i] != '\'';
    }
    ReplaceCharConcat("'" + s, "'", '\'', "\"");
    ReplaceCharConcat("'", s, '\'', "\"");
    ReplaceAllWhole("'", "\"");
    ReplaceAllFree(s, "'", "\"");
  }

  lemma DoubleQuotedFree(s: string)
    requires '\'' !in s
    ensures DoubleQuoted(s) == s
  {
    ReplaceAllFree(s, "'", "\"");
  }

  /** Quotes are replaced piece by piece. */
  lemma DoubleQuotedPieces(a: string, b: string, c: string, d: string, e: string)
    ensures DoubleQuoted(a + b + c + d + e)
      == DoubleQuoted(a) + DoubleQuoted(b) + DoubleQuoted(c) + DoubleQuoted(d) + DoubleQuoted(e)
  {
    ReplaceCharConcat(a + b + c + d, e, '\'', "\"");
    ReplaceCharConcat(a + b + c, d, '\'', "\"");
    ReplaceCharConcat(a + b, c, '\'', "\"");
    ReplaceCharConcat(a, b, '\'', "\"");
  }

  /** Quotes are replaced piece by piece. */
  lemma DoubleQuotedThree(a: string, b: string, c: string)
    ensures DoubleQuoted(a + b + c) == DoubleQuoted(a) + DoubleQuoted(b) + DoubleQuoted(c)
  {
    ReplaceCharConcat(a + b, c, '\'', "\"");
    ReplaceCharConcat(a, b, '\'', "\"");
  }

  /** A JSON member: the key between double quotes, a colon, the value text. */
  function Entry(k: string, text: string): string
  {
    "\"" + k + "\": " + text
  }

  /** One entry `<key>: <value>` with a plain key, double-quoted. */
  lemma DoubleQuotedEntry(k: string, v: Value)
    requires Plain(k)
    ensures DoubleQuoted(ReprStr(k) + ": " + Repr(v)) == Entry(k, DoubleQuoted(Repr(v)))
  {
    var rk, rv := ReprStr(k), Repr(v);
    DoubleQuotedThree(rk, ": ", rv);
    DoubleQuotedFree(": ");
    DoubleQuotedPlain(k);
    Merge("\"", k, "\"", ": ", DoubleQuoted(rv));
    assert "\"" + ": " == "\": ";
  }

  lemma Merge(a: string, k: string, b: string, c: string, rest: string)
    ensures (a + k + b) + c + rest == a + k + (b + c) + rest
  {
  }

  /** Braces hold no quote: replacing inside a one-entry text. */
  lemma DoubleQuotedBraces(r: string)
    ensures DoubleQuoted("{" + r + "}") == "{" + DoubleQuoted(r) + "}"
  {
    DoubleQuotedThree("{", r, "}");
    DoubleQuotedFree("{");
    DoubleQuotedFree("}");
  }

  /** Braces and the comma hold no quote: replacing inside a two-entry text. */
  lemma DoubleQuotedBracesTwo(r1: string, r2: string)
    ensures DoubleQuoted("{" + r1 + ", " + r2 + "}") == "{" + DoubleQuoted(r1) + ", " + DoubleQuoted(r2) + "}"
  {
    assert "{" + r1 + ", " + r2 + "}" == ("{" + r1) + (", " + r2 + "}");
    ReplaceCharConcat("{" + r1, ", " + r2 + "}", '\'', "\"");
    ReplaceCharConcat("{", r1, '\'', "\"");
    DoubleQuotedThree(", ", r2, "}");
    DoubleQuotedFree("{");
    DoubleQuotedFree(", ");
    DoubleQuotedFree("}");
  }

  /** A one-entry dictionary with a plain key, double-quoted. */
  lemma DoubleQuotedDictOne(k: string, v: Value)
    requires Plain(k)
    ensures DoubleQuoted(Repr(Dict([(k, v)]))) == "{" + Entry(k, DoubleQuoted(Repr(v))) + "}"
  {
    ReprDictOne(k, v);
    DoubleQuotedBraces(ReprStr(k) + ": " + Repr(v));
    DoubleQuotedEntry(k, v);
  }

  /** A two-entry dictionary with plain keys, double-quoted. */
  lemma DoubleQuotedDictTwo(k1: string, v1: Value, k2: string, v2: Value)
    requires Plain(k1) && Plain(k2)
    ensures DoubleQuoted(Repr(Dict([(k1, v1), (k2, v2)])))
      == "{" + Entry(k1, DoubleQuoted(Repr(v1))) + ", " + Entry(k2, DoubleQuoted(Repr(v2))) + "}"
  {
    ReprDictTwo(k1, v1, k2, v2);
    DoubleQuotedBracesTwo(ReprStr(k1) + ": " + Repr(v1), ReprStr(k2) + ": " + Repr(v2));
    DoubleQuotedEntry(k1, v1);
    DoubleQuotedEntry(k2, v2);
  }

  /** The text of one bound: `{"$date": "<date>T00:00:00.000Z"}`. */
  function DateText(date: string): string
  {
    "{" + Entry("$date", "\"" + date + TimeConst + "\"") + "}"
  }

  /** The keys and the time of day need no escaping. */
  lemma KeysPlain()
    ensures Plain("$gte") && Plain("$lte") && Plain("$date") && Plain(TimeConst)
  {
    PrintablePlain("$gte");
    PrintablePlain("$lte");
    PrintablePlain("$date");
    PrintablePlain(TimeConst);
  }

  /** The bound on one date, double-quoted. */
  lemma DateBound(date: string)
    requires Plain(date)
    ensures DoubleQuoted(Repr(Dict([("$date", Str(date + TimeConst))]))) == DateText(date)
  {
    KeysPlain();
    PlainConcat(date, TimeConst);
    DoubleQuotedDictOne("$date", Str(date + TimeConst));
    DoubleQuotedPlain(date + TimeConst);
  }

  /** The two bounds: `{"$gte": <from bound>, "$lte": <to bound>}`. */
  lemma BoundsText(fromDate: string, toDate: string)
    requires Plain(fromDate) && Plain(toDate)
    ensures DoubleQuoted(Repr(Dict([("$gte", Dict([("$date", Str(fromDate + TimeConst))])),
                                    ("$lte", Dict([("$date", Str(toDate + TimeConst))]))])))
      == "{" + Entry("$gte", DateText(fromDate)) + ", " + Entry("$lte", DateText(toDate)) + "}"
  {
    DateBound(fromDate);
    DateBound(toDate);
    KeysPlain();
    DoubleQuotedDictTwo("$gte", Dict([("$date", Str(fromDate + TimeConst))]),
                        "$lte", Dict([("$date", Str(toDate + TimeConst))]));
  }

  /** For plain texts, `__define_time_range` yields the JSON member
      `"<attr>": {"$gte": {"$date": "<from>T00:00:00.000Z"}, "$lte": {"$date": "<to>T00:00:00.000Z"}}`. */
  lemma DefineTimeRangeText(fromDate: string, toDate: string, timeAttribute: string)
    requires Plain(fromDate) && Plain(toDate) && Plain(timeAttribute)
    ensures DefineTimeRange(Str(fromDate), Str(toDate), timeAttribute)
      == Entry(timeAttribute, "{" + Entry("$gte", DateText(fromDate)) + ", " + Entry("$lte", DateText(toDate)) + "}")
  {
    var bounds := Dict([("$gte", Dict([("$date", Str(fromDate + TimeConst))])),
                        ("$lte", Dict([("$date", Str(toDate + TimeConst))]))]);
    BoundsText(fromDate, toDate);
    DoubleQuotedDictOne(timeAttribute, bounds);
    var x := Entry(timeAttribute, DoubleQuoted(Repr(bounds)));
    assert Inner("{" + x + "}") == x;
  }

  // ---------------------------------------------------------------------
  // `__define_time_period`

  /** The text between the time attribute and the relative date, and the
      text after the relative date. */
  const PeriodMid: string := "\": {\"$gte\":{\"$date\":\""
  const PeriodEnd: string := "\"}}"

  /** The template of the fragment, with its three placeholders. */
  function PeriodTemplate(): string
  {
    LeadingComa + "\"" + TimeAttribute + PeriodMid + NDays + PeriodEnd
  }

  /** Python's `v == 0`, which `False` satisfies as well. */
  predicate EqualsZero(v: Value)
  {
    v == Int(0) || v == Bool(false)
  }

  /** The relative date: `-<n>d`, or `-0d-` for today, which needs a
      trailing minus. */
  function DayToken(nDays: Value): string
  {
    if EqualsZero(nDays) then "-" + StrOf(nDays) + "d-" else "-" + StrOf(nDays) + "d"
  }

  /** The leading comma, present when `with_leading_coma` is true. */
  function CommaText(withLeadingComa: Value): (c: string)
    ensures c == "," || c == ""
  {
    if Truthy(withLeadingComa) then "," else ""
  }

  /** `__define_time_period`: nothing without a number of days; otherwise
      the template with the comma, the time attribute and the relative date
      put in, in that order. A time attribute that is not a string is
      refused by `str.replace`. */
  function DefineTimePeriod(nDays: Value, timeAttribute: Value, withLeadingComa: Value): (r: Result<string, Error>)
    ensures nDays == NoneValue ==> r == Success("")
    ensures r.Failure? <==> nDays != NoneValue && !timeAttribute.Str?
    ensures r.Failure? ==> r.error == TypeError("replace() argument 2 must be str, not " + ArgTypeName(timeAttribute))
  {
    if nDays == NoneValue then Success("")
    else
      var withComma := ReplaceAll(PeriodTemplate(), LeadingComa, CommaText(withLeadingComa));
      if !timeAttribute.Str? then
        Failure(TypeError("replace() argument 2 must be str, not " + ArgTypeName(timeAttribute)))
      else
        var withAttribute := ReplaceAll(withComma, TimeAttribute, timeAttribute.s);
        Success(ReplaceAll(withAttribute, NDays, DayToken(nDays)))
  }

  /** A `None` time attribute is refused with the message `str.replace`
      gives for `None`: the word `None`, not its class name. */
  lemma DefineTimePeriodNoneAttribute(nDays: Value, withLeadingComa: Value)
    requires nDays != NoneValue
    ensures DefineTimePeriod(nDays, NoneValue, withLeadingComa)
            == Failure(TypeError("replace() argument 2 must be str, not None"))
  {
    var prefix, message := "replace() argument 2 must be str, not ", "replace() argument 2 must be str, not None";
    assert ArgTypeName(NoneValue) == "None";
    assert prefix + "None" == message by {
      forall i | 0 <= i < |message| ensures (prefix + "None")[i] == message[i] {
      }
    }
  }

  /** The test hook: both optional arguments absent means the defaults,
      `"time"` and a leading comma. */
  function TestDefineTimePeriod(nDays: Value, timeAttribute: Value, withLeadingComa: Value): (r: Result<string, Error>)
    ensures timeAttribute == NoneValue && withLeadingComa == NoneValue
            ==> r == DefineTimePeriod(nDays, Str("time"), Bool(true))
    ensures !(timeAttribute == NoneValue && withLeadingComa == NoneValue)
            ==> r == DefineTimePeriod(nDays, timeAttribute, withLeadingComa)
  {
    if timeAttribute == NoneValue && withLeadingComa == NoneValue then
      DefineTimePeriod(nDays, Str("time"), Bool(true))
    else
      DefineTimePeriod(nDays, timeAttribute, withLeadingComa)
  }

  lemma PeriodPieces()
    ensures '#' !in PeriodMid && '#' !in PeriodEnd && PeriodMid[0] == '"' && PeriodEnd[0] == '"'
  {
  }

  /** Two tokens other than `p`, among texts without `#`, stay. */
  lemma PassTwoTokens(y: string, t1: string, m: string, t2: string, e: string, p: string, r: string)
    requires Delimited(t1, '#') && Delimited(t2, '#') && Delimited(p, '#') && t1 != p && t2 != p
    requires '#' !in y && '#' !in m && '#' !in e && m != [] && m[0] !in p
    ensures ReplaceAll(y + t1 + m + t2 + e, p, r) == y + t1 + m + t2 + e
  {
    assert y + t1 + m + t2 + e == y + (t1 + (m + (t2 + e)));
    ReplaceAllFreePrefix(y, t1 + (m + (t2 + e)), p, r);
    assert (m + (t2 + e))[0] == m[0] && m[0] != p[1];
    TokenPrefix(t1, m + (t2 + e), p, '#', r);
    ReplaceAllFreePrefix(m, t2 + e, p, r);
    TokenPrefix(t2, e, p, '#', r);
    ReplaceAllFree(e, p, r);
  }

  /** The comma goes in front; the other placeholders stay. */
  lemma PeriodComma(c: string)
    requires '#' !in c
    ensures ReplaceAll(PeriodTemplate(), LeadingComa, c) == c + "\"" + TimeAttribute + PeriodMid + NDays + PeriodEnd
  {
    TokensDistinct();
    PeriodPieces();
    assert '"' !in LeadingComa;
    var rest := "\"" + TimeAttribute + PeriodMid + NDays + PeriodEnd;
    calc {
      ReplaceAll(PeriodTemplate(), LeadingComa, c);
    == { Assoc(LeadingComa, "\"", TimeAttribute, PeriodMid, NDays, PeriodEnd); }
      ReplaceAll(LeadingComa + rest, LeadingComa, c);
    == { ReplaceAllMatchFront(rest, LeadingComa, c); }
      c + ReplaceAll(rest, LeadingComa, c);
    == { PassTwoTokens("\"", TimeAttribute, PeriodMid, NDays, PeriodEnd, LeadingComa, c); }
      c + rest;
    == { Assoc(c, "\"", TimeAttribute, PeriodMid, NDays, PeriodEnd); }
      c + "\"" + TimeAttribute + PeriodMid + NDays + PeriodEnd;
    }
  }

  /** Regrouping a concatenation of six texts. */
  lemma Assoc(a: string, b: string, c: string, d: string, e: string, f: string)
    ensures a + b + c + d + e + f == a + (b + c + d + e + f)
  {
  }

  /** The time attribute goes after the opening quote. */
  lemma PeriodAttribute(c: string, a: string)
    requires '#' !in c
    ensures ReplaceAll(c + "\"" + TimeAttribute + PeriodMid + NDays + PeriodEnd, TimeAttribute, a)
      == c + "\"" + a + PeriodMid + NDays + PeriodEnd
  {
    TokensDistinct();
    PeriodPieces();
    var rest := PeriodMid + (NDays + PeriodEnd);
    assert c + "\"" + TimeAttribute + PeriodMid + NDays + PeriodEnd == (c + "\"") + (TimeAttribute + rest);
    ReplaceAllFreePrefix(c + "\"", TimeAttribute + rest, TimeAttribute, a);
    ReplaceAllMatchFront(rest, TimeAttribute, a);
    ReplaceAllFreePrefix(PeriodMid, NDays + PeriodEnd, TimeAttribute, a);
    TokenPrefix(NDays, PeriodEnd, TimeAttribute, '#', a);
    ReplaceAllFree(PeriodEnd, TimeAttribute, a);
  }

  /** The relative date goes between the `$date` quotes, and into the
      attribute wherever it holds the placeholder. */
  lemma PeriodDate(c: string, a: string, token: string)
    requires '#' !in c
    ensures ReplaceAll(c + "\"" + a + PeriodMid + NDays + PeriodEnd, NDays, token)
      == c + "\"" + ReplaceAll(a, NDays, token) + PeriodMid + token + PeriodEnd
  {
    PeriodPieces();
    assert NDays[0] == '#' && '"' !in NDays;
    FillAfter(c + "\"", a, PeriodMid, NDays, PeriodEnd, token);
  }

  /** The fragment is `<comma>"<attr>": {"$gte":{"$date":"<token>"}}`. A
      relative-date placeholder inside the attribute is replaced too, since
      the attribute is put in before the date. */
  lemma DefineTimePeriodText(nDays: Value, timeAttribute: string, withLeadingComa: Value)
    requires nDays != NoneValue
    ensures DefineTimePeriod(nDays, Str(timeAttribute), withLeadingComa)
      == Success(CommaText(withLeadingComa) + "\"" + ReplaceAll(timeAttribute, NDays, DayToken(nDays))
                 + PeriodMid + DayToken(nDays) + PeriodEnd)
  {
    var c := CommaText(withLeadingComa);
    assert '#' !in c;
    PeriodComma(c);
    PeriodAttribute(c, timeAttribute);
    PeriodDate(c, timeAttribute, DayToken(nDays));
  }

  /** The relative date of an integer: `-0d-` for zero, `-<n>d` otherwise. */
  lemma DayTokenOfInt(n: int)
    ensures DayToken(Int(n)) == if n == 0 then "-0d-" else "-" + IntToString(n) + "d"
  {
    if n == 0 {
      assert IntToString(0) == "0";
    }
  }

  /** Without `#` in the attribute or in the number's text, no placeholder
      survives, and the fragment starts with a comma exactly when one was
      asked for. */
  lemma DefineTimePeriodComplete(nDays: Value, timeAttribute: string, withLeadingComa: Value)
    requires nDays != NoneValue && '#' !in timeAttribute && '#' !in StrOf(nDays)
    ensures var r := DefineTimePeriod(nDays, Str(timeAttribute), withLeadingComa);
            && r.Success? && '#' !in r.value && r.value != []
            && (r.value[0] == ',' <==> Truthy(withLeadingComa))
  {
    DefineTimePeriodText(nDays, timeAttribute, withLeadingComa);
    ReplaceAllFree(timeAttribute, NDays, DayToken(nDays));
  }

  /** The test hook's defaults give `,"time": {"$gte":{"$date":"<token>"}}`. */
  lemma TestHookDefaults(nDays: Value)
    requires nDays != NoneValue
    ensures TestDefineTimePeriod(nDays, NoneValue, NoneValue)
      == Success("," + "\"" + "time" + PeriodMid + DayToken(nDays) + PeriodEnd)
  {
    DefineTimePeriodText(nDays, "time", Bool(true));
    ReplaceAllFree("time", NDays, DayToken(nDays));
  }
}
