/** The two aggregation pipelines of the lottery queries, as the source
    writes them: line by line, the indentation, then the text of the line,
    split at the placeholders. No piece holds a `#`, so the only `#` in
    a pipeline are those of its placeholders. */
module FunifierTemplates {
  /** `n` spaces. */
  function Spaces(n: nat): (s: string)
    ensures |s| == n && '#' !in s
  {
    seq(n, _ => ' ')
  }

  /** One line of a template: its indentation and its text. */
  function Line(indent: nat, text: string): (s: string)
    requires '#' !in text
    ensures '#' !in s
  {
    Spaces(indent) + text
  }

  /** Two texts without `#` joined hold none either. */
  lemma NoHashConcat(a: string, b: string)
    requires '#' !in a && '#' !in b
    ensures '#' !in a + b
  {
  }

  /** The participant-count pipeline up to the ticket placeholder. */
  function CountHead(): (s: string)
    ensures '#' !in s
  {
    Line(0, "\n")
    + Line(12, "[\n")
    + Line(16, "{\n")
    + Line(20, "\"$match\": " + "{\n")
    + Line(24, "\"type\": " + "2,\n")
    + Line(24, "\"item\": \"")
  }

  /** Part A of: the participant-count pipeline after the ticket placeholder. */
  function CountTailA(): (s: string)
    ensures '#' !in s
  {
    Line(0, "\"\n")
    + Line(20, "}\n")
    + Line(16, "},\n")
    + Line(16, "{\n")
    + Line(20, "\"$count\": " + "\"player\"\n")
    + Line(16, "},\n")
    + Line(16, "{\n")
  }

  /** Part B of: the participant-count pipeline after the ticket placeholder. */
  function CountTailB(): (s: string)
    ensures '#' !in s
  {
    Line(20, "\"$project\"" + ": {\n")
    + Line(24, "\"count\": " + "\"$player\"\n")
    + Line(20, "}\n")
    + Line(16, "}\n")
    + Line(12, "]      \n")
    + Line(0, "        ")
  }

  /** The participant-count pipeline after the ticket placeholder. */
  function CountTail(): (s: string)
    ensures '#' !in s
  {
    var p0, p1 := CountTailA(), CountTailB();
    NoHashConcat(p0, p1);
    p0 + p1
  }

  /** The winners pipeline up to the lottery placeholder. */
  function WinnersHead(): (s: string)
    ensures '#' !in s
  {
    Line(0, "\n")
    + Line(16, "[\n")
    + Line(20, "{\n")
    + Line(24, "\"$match\": " + "{\n")
    + Line(24, "\"type\": " + "5,\n")
    + Line(24, "\"item\": \"")
  }

  /** Part A of: the winners pipeline after the lottery placeholder: the start of the `$lookup`. */
  function WinnersMiddleA(): (s: string)
    ensures '#' !in s && s != [] && s[0] == '"'
  {
    Line(0, "\"\n")
    + Line(24, "}\n")
    + Line(20, "},\n")
    + Line(20, "{\n")
    + Line(24, "\"$lookup\":" + " {\n")
    + Line(24, "\"from\": " + "\"achieveme" + "nt\",\n")
  }

  /** Part B of: the winners pipeline after the lottery placeholder: the start of the `$lookup`. */
  function WinnersMiddleB(): (s: string)
    ensures '#' !in s
  {
    Line(24, "\"let\": {\n")
    + Line(28, "\"playerUID" + "\": " + "\"$player\"\n")
  }

  /** The winners pipeline after the lottery placeholder: the start of the `$lookup`. */
  function WinnersMiddle(): (s: string)
    ensures '#' !in s && s != [] && s[0] == '"'
  {
    var p0, p1 := WinnersMiddleA(), WinnersMiddleB();
    NoHashConcat(p0, p1);
    assert (p0 + p1)[0] == p0[0];
    p0 + p1
  }

  /** Part A of: the `$match` stage of the `$lookup` up to the ticket placeholder. */
  function WinnersJoinA(): (s: string)
    ensures '#' !in s
  {
    Line(24, "},\n")
    + Line(24, "\"pipeline\"" + ": [\n")
    + Line(28, "{\n")
    + Line(28, "\"$match\": " + "{\n")
  }

  /** Part B of: the `$match` stage of the `$lookup` up to the ticket placeholder. */
  function WinnersJoinB(): (s: string)
    ensures '#' !in s
  {
    Line(32, "\"$expr\": " + "{\n")
    + Line(32, "\"$and\": [\n")
    + Line(36, "{ \"$eq\": " + "[\"$type\", " + "2] },\n")
  }

  /** Part C of: the `$match` stage of the `$lookup` up to the ticket placeholder. */
  function WinnersJoinC(): (s: string)
    ensures '#' !in s
  {
    Line(36, "{ \"$eq\": " + "[\"$item\", " + "\"")
  }

  /** The `$match` stage of the `$lookup` up to the ticket placeholder. */
  function WinnersJoin(): (s: string)
    ensures '#' !in s
  {
    var p0, p1, p2 := WinnersJoinA(), WinnersJoinB(), WinnersJoinC();
    NoHashConcat(p0, p1);
    NoHashConcat(p0 + p1, p2);
    p0 + p1 + p2
  }

  /** Part A of: the rest of the `$match` stage of the `$lookup`. */
  function WinnersMatchEndA(): (s: string)
    ensures '#' !in s
  {
    Line(0, "\"] },\n")
    + Line(36, "{ \"$eq\": " + "[\"$player\"" + ", " + "\"$$playerU" + "ID\"] }\n")
    + Line(32, "]\n")
    + Line(32, "}\n")
  }

  /** Part B of: the rest of the `$match` stage of the `$lookup`. */
  function WinnersMatchEndB(): (s: string)
    ensures '#' !in s
  {
    Line(28, "}\n")
    + Line(28, "},\n")
  }

  /** The rest of the `$match` stage of the `$lookup`. */
  function WinnersMatchEnd(): (s: string)
    ensures '#' !in s
  {
    var p0, p1 := WinnersMatchEndA(), WinnersMatchEndB();
    NoHashConcat(p0, p1);
    p0 + p1
  }

  /** Part A of: the `$group` stage of the `$lookup`: the player and the name. */
  function WinnersGroupPlayerA(): (s: string)
    ensures '#' !in s
  {
    Line(28, "{\n")
    + Line(28, "\"$group\": " + "{\n")
    + Line(32, "\"_id\": {\n")
  }

  /** Part B of: the `$group` stage of the `$lookup`: the player and the name. */
  function WinnersGroupPlayerB(): (s: string)
    ensures '#' !in s
  {
    Line(36, "\"playerUID" + "\": " + "\"$player\"," + "\n")
    + Line(36, "\"firstName" + "\": " + "\"$extra.fi" + "rstName\",\n")
  }

  /** Part C of: the `$group` stage of the `$lookup`: the player and the name. */
  function WinnersGroupPlayerC(): (s: string)
    ensures '#' !in s
  {
    Line(36, "\"lastName\"" + ": " + "\"$extra.la" + "stName\",\n")
  }

  /** The `$group` stage of the `$lookup`: the player and the name. */
  function WinnersGroupPlayer(): (s: string)
    ensures '#' !in s
  {
    var p0, p1, p2 := WinnersGroupPlayerA(), WinnersGroupPlayerB(), WinnersGroupPlayerC();
    NoHashConcat(p0, p1);
    NoHashConcat(p0 + p1, p2);
    p0 + p1 + p2
  }

  /** Part A of: the `$group` stage of the `$lookup`: the address and the consents. */
  function WinnersGroupAddressA(): (s: string)
    ensures '#' !in s
  {
    Line(36, "\"phone\": " + "\"$extra.ph" + "one\",\n")
    + Line(36, "\"dateOfBir" + "th\": " + "\"$extra.da" + "teOfBirth\"" + ",\n")
  }

  /** Part B of: the `$group` stage of the `$lookup`: the address and the consents. */
  function WinnersGroupAddressB(): (s: string)
    ensures '#' !in s
  {
    Line(36, "\"street\": " + "\"$extra.st" + "reet\",\n")
    + Line(36, "\"city\": " + "\"$extra.ci" + "ty\",\n")
  }

  /** Part C of: the `$group` stage of the `$lookup`: the address and the consents. */
  function WinnersGroupAddressC(): (s: string)
    ensures '#' !in s
  {
    Line(36, "\"zip\": " + "\"$extra.zi" + "p\",\n")
    + Line(36, "\"tos_accep" + "ted\": " + "\"$extra.to" + "s_accepted" + "\",\n")
  }

  /** Part D of: the `$group` stage of the `$lookup`: the address and the consents. */
  function WinnersGroupAddressD(): (s: string)
    ensures '#' !in s
  {
    Line(36, "\"privacy_a" + "ccepted\": " + "\"$extra.pr" + "ivacy_acce" + "pted\"\n")
  }

  /** The `$group` stage of the `$lookup`: the address and the consents. */
  function WinnersGroupAddress(): (s: string)
    ensures '#' !in s
  {
    var p0, p1, p2, p3 := WinnersGroupAddressA(), WinnersGroupAddressB(), WinnersGroupAddressC(), WinnersGroupAddressD();
    NoHashConcat(p0, p1);
    NoHashConcat(p0 + p1, p2);
    NoHashConcat(p0 + p1 + p2, p3);
    p0 + p1 + p2 + p3
  }

  /** Part A of: the end of the `$lookup` stage. */
  function WinnersLookupEndA(): (s: string)
    ensures '#' !in s
  {
    Line(32, "}\n")
    + Line(28, "}\n")
    + Line(28, "}\n")
    + Line(24, "],\n")
    + Line(24, "\"as\": " + "\"joinedDat" + "a\"\n")
  }

  /** Part B of: the end of the `$lookup` stage. */
  function WinnersLookupEndB(): (s: string)
    ensures '#' !in s
  {
    Line(24, "}\n")
    + Line(20, "},\n")
  }

  /** The end of the `$lookup` stage. */
  function WinnersLookupEnd(): (s: string)
    ensures '#' !in s
  {
    var p0, p1 := WinnersLookupEndA(), WinnersLookupEndB();
    NoHashConcat(p0, p1);
    p0 + p1
  }

  /** Part A of: the `$project` stage: the achievement fields. */
  function WinnersProjectA(): (s: string)
    ensures '#' !in s
  {
    Line(20, "{\n")
    + Line(24, "\"$project\"" + ": {\n")
    + Line(24, "\"player\": " + "1,\n")
    + Line(24, "\"total\": " + "1,\n")
  }

  /** Part B of: the `$project` stage: the achievement fields. */
  function WinnersProjectB(): (s: string)
    ensures '#' !in s
  {
    Line(24, "\"lotteryUI" + "D\": " + "\"$item\",\n")
    + Line(24, "\"time\": " + "1,\n")
    + Line(24, "\"ticketUID" + "\": " + "\"$extra.ti" + "cket\",\n")
  }

  /** The `$project` stage: the achievement fields. */
  function WinnersProject(): (s: string)
    ensures '#' !in s
  {
    var p0, p1 := WinnersProjectA(), WinnersProjectB();
    NoHashConcat(p0, p1);
    p0 + p1
  }

  /** Part A of: the `$project` stage: name and phone from the joined data. */
  function WinnersJoinedNameA(): (s: string)
    ensures '#' !in s
  {
    Line(24, "\"firstname" + "\": { " + "\"$arrayEle" + "mAt\": " + "[\"$joinedD" + "ata._id.fi" + "rstName\", " + "0] },\n")
  }

  /** Part B of: the `$project` stage: name and phone from the joined data. */
  function WinnersJoinedNameB(): (s: string)
    ensures '#' !in s
  {
    Line(24, "\"lastName\"" + ": { " + "\"$arrayEle" + "mAt\": " + "[\"$joinedD" + "ata._id.la" + "stName\", " + "0] },\n")
  }

  /** Part C of: the `$project` stage: name and phone from the joined data. */
  function WinnersJoinedNameC(): (s: string)
    ensures '#' !in s
  {
    Line(24, "\"phone\": " + "{ " + "\"$arrayEle" + "mAt\": " + "[\"$joinedD" + "ata._id.ph" + "one\", 0] " + "},\n")
  }

  /** The `$project` stage: name and phone from the joined data. */
  function WinnersJoinedName(): (s: string)
    ensures '#' !in s
  {
    var p0, p1, p2 := WinnersJoinedNameA(), WinnersJoinedNameB(), WinnersJoinedNameC();
    NoHashConcat(p0, p1);
    NoHashConcat(p0 + p1, p2);
    p0 + p1 + p2
  }

  /** Part A of: the `$project` stage: birth date and place from the joined data. */
  function WinnersJoinedPlaceA(): (s: string)
    ensures '#' !in s
  {
    Line(24, "\"dateOfBir" + "th\": { " + "\"$arrayEle" + "mAt\": " + "[\"$joinedD" + "ata._id.da" + "teOfBirth\"" + ", 0] },\n")
  }

  /** Part B of: the `$project` stage: birth date and place from the joined data. */
  function WinnersJoinedPlaceB(): (s: string)
    ensures '#' !in s
  {
    Line(24, "\"street\": " + "{ " + "\"$arrayEle" + "mAt\": " + "[\"$joinedD" + "ata._id.st" + "reet\", 0] " + "},\n")
    + Line(24, "\"city\": { " + "\"$arrayEle" + "mAt\": " + "[\"$joinedD" + "ata._id.ci" + "ty\", 0] " + "},\n")
  }

  /** The `$project` stage: birth date and place from the joined data. */
  function WinnersJoinedPlace(): (s: string)
    ensures '#' !in s
  {
    var p0, p1 := WinnersJoinedPlaceA(), WinnersJoinedPlaceB();
    NoHashConcat(p0, p1);
    p0 + p1
  }

  /** Part A of: the `$project` stage: post code and consents from the joined data. */
  function WinnersJoinedConsentA(): (s: string)
    ensures '#' !in s
  {
    Line(24, "\"zip\": { " + "\"$arrayEle" + "mAt\": " + "[\"$joinedD" + "ata._id.zi" + "p\", 0] },\n")
  }

  /** Part B of: the `$project` stage: post code and consents from the joined data. */
  function WinnersJoinedConsentB(): (s: string)
    ensures '#' !in s
  {
    Line(24, "\"tos_accep" + "ted\": { " + "\"$arrayEle" + "mAt\": " + "[\"$joinedD" + "ata._id.to" + "s_accepted" + "\", 0] },\n")
  }

  /** Part C of: the `$project` stage: post code and consents from the joined data. */
  function WinnersJoinedConsentC(): (s: string)
    ensures '#' !in s
  {
    Line(24, "\"privacy_a" + "ccepted\": " + "{ " + "\"$arrayEle" + "mAt\": " + "[\"$joinedD" + "ata._id.pr" + "ivacy_acce" + "pted\", 0] " + "}\n")
  }

  /** The `$project` stage: post code and consents from the joined data. */
  function WinnersJoinedConsent(): (s: string)
    ensures '#' !in s
  {
    var p0, p1, p2 := WinnersJoinedConsentA(), WinnersJoinedConsentB(), WinnersJoinedConsentC();
    NoHashConcat(p0, p1);
    NoHashConcat(p0 + p1, p2);
    p0 + p1 + p2
  }

  /** The end of the winners pipeline. */
  function WinnersTail(): (s: string)
    ensures '#' !in s
  {
    Line(24, "}\n")
    + Line(20, "}\n")
    + Line(16, "]\n")
    + Line(0, "            ")
  }

  /** The `$lookup` stage of the winners pipeline up to the ticket
      placeholder. */
  function WinnersLookup(): (s: string)
    ensures '#' !in s && s != [] && s[0] == '"'
  {
    var a, b := WinnersMiddle(), WinnersJoin();
    NoHashConcat(a, b);
    assert (a + b)[0] == a[0];
    a + b
  }

  /** The `$lookup` stage after the ticket placeholder. */
  function WinnersLookupRest(): (s: string)
    ensures '#' !in s
  {
    var a, b, c, d := WinnersMatchEnd(), WinnersGroupPlayer(), WinnersGroupAddress(), WinnersLookupEnd();
    NoHashConcat(a, b);
    NoHashConcat(a + b, c);
    NoHashConcat(a + b + c, d);
    a + b + c + d
  }

  /** The `$project` stage. */
  function WinnersProjection(): (s: string)
    ensures '#' !in s
  {
    var a, b, c, d := WinnersProject(), WinnersJoinedName(), WinnersJoinedPlace(), WinnersJoinedConsent();
    NoHashConcat(a, b);
    NoHashConcat(a + b, c);
    NoHashConcat(a + b + c, d);
    a + b + c + d
  }

  /** The winners pipeline after the ticket placeholder. */
  function WinnersRest(): (s: string)
    ensures '#' !in s
  {
    var a, b, c := WinnersLookupRest(), WinnersProjection(), WinnersTail();
    NoHashConcat(a, b);
    NoHashConcat(a + b, c);
    a + b + c
  }
}
