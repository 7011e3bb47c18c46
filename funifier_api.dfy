/** The Funifier API service: the request it builds (method, host, path,
    headers with Basic credentials, UTF-8 body), the two lottery queries it
    posts, and how it turns the answer into a count or a table. The
    network itself is a parameter: `send` stands for the HTTPS round trip,
    `readJson` for `pd.read_json`, `loads` for `json.loads` and
    `envelopeFromDict` for `APIResponseDTO.from_dict`. */
module FunifierApi {
  import opened Wrappers
  import opened Bytes
  import opened Strings
  import opened PyValue
  import Base64
  import Utf8
  import opened FunifierConstants
  import opened FunifierTemplates
  import opened FunifierQueries

  /** What `conn.request` is given: the method, the host, the path, the
      headers in order, and the body bytes if any. */
  datatype Request = Request(httpMethod: Value, host: Value, path: string,
                             headers: seq<(string, Value)>, body: Option<seq<byte>>)

  /** A decoded table: column names and rows of cells. */
  datatype Table = Table(columns: seq<string>, rows: seq<seq<Value>>)

  /** Every row has one cell per column, and no column name repeats. */
  predicate Rectangular(t: Table)
  {
    && (forall i | 0 <= i < |t.rows| :: |t.rows[i]| == |t.columns|)
    && (forall i, j | 0 <= i < j < |t.columns| :: t.columns[i] != t.columns[j])
  }

  /** A pandas `DataFrame` as far as the service looks at it. */
  type Frame = t: Table | Rectangular(t) witness Table([], [])

  /** The error envelope the API answers with when there is no table. */
  datatype Envelope = Envelope(errorCode: Value, errorMessage: Value)

  /** The position of a column. */
  function ColumnIndex(columns: seq<string>, name: string): (i: nat)
    requires name in columns
    ensures i < |columns| && columns[i] == name
    ensures forall j | 0 <= j < i :: columns[j] != name
  {
    if columns[0] == name then 0 else 1 + ColumnIndex(columns[1..], name)
  }

  /** `__get_counts`: 0 for an empty table; otherwise `int(data["count"])`,
      which needs a `count` column and, as a single value, exactly one
      row. */
  function GetCounts(data: Frame): (r: Result<int, Error>)
    ensures |data.rows| == 0 ==> r == Success(0)
    ensures |data.rows| > 0 && "count" !in data.columns ==> r == Failure(KeyError("count"))
    ensures |data.rows| > 1 && "count" in data.columns
            ==> r == Failure(TypeError("cannot convert the series to <class 'int'>"))
    ensures |data.rows| == 1 && "count" in data.columns
            ==> exists i | 0 <= i < |data.columns| :: data.columns[i] == "count" && r == IntOf(data.rows[0][i])
  {
    if |data.rows| > 0 then
      if "count" !in data.columns then Failure(KeyError("count"))
      else if |data.rows| != 1 then Failure(TypeError("cannot convert the series to <class 'int'>"))
      else IntOf(data.rows[0][ColumnIndex(data.columns, "count")])
    else Success(0)
  }

  /** The table the participant-count pipeline yields, a single `count`
      cell holding `n`, gives `n`. */
  lemma GetCountsOfCountStage(n: int)
    ensures GetCounts(Table(["count"], [[Int(n)]])) == Success(n)
  {
  }

  /** `__get_data`: a text that reads as a table is returned as that table.
      When reading fails with a `ValueError`, the text is read as an error
      envelope: an error code other than 200 raises `FunifierAPIError`
      with the envelope's message, and code 200 falls off the end of the
      handler and returns nothing. Any other failure propagates. */
  function GetData(apiResult: string, readJson: string -> Result<Frame, Error>,
                   loads: string -> Result<Value, Error>,
                   envelopeFromDict: Value -> Result<Envelope, Error>): (r: Result<Option<Frame>, Error>)
  {
    match readJson(apiResult)
    case Success(data) => Success(Some(data))
    case Failure(ValueError(_)) =>
      (match loads(apiResult)
       case Failure(e) => Failure(e)
       case Success(json) =>
         (match envelopeFromDict(json)
          case Failure(e) => Failure(e)
          case Success(dto) =>
            if dto.errorCode != Int(200) then Failure(FunifierApiError(dto.errorMessage))
            else Success(None)))
    case Failure(e) => Failure(e)
  }

  /** The outcomes of `__get_data`, each with the condition that gives it. */
  lemma GetDataOutcomes(apiResult: string, readJson: string -> Result<Frame, Error>,
                        loads: string -> Result<Value, Error>,
                        envelopeFromDict: Value -> Result<Envelope, Error>)
    ensures var r := GetData(apiResult, readJson, loads, envelopeFromDict);
            && (readJson(apiResult).Success? <==> r.Success? && r.value.Some?)
            && (readJson(apiResult).Success? ==> r == Success(Some(readJson(apiResult).value)))
            && (r == Success(None) <==>
                  readJson(apiResult).Failure? && readJson(apiResult).error.ValueError?
                  && loads(apiResult).Success?
                  && envelopeFromDict(loads(apiResult).value).Success?
                  && envelopeFromDict(loads(apiResult).value).value.errorCode == Int(200))
            && (r.Failure? && r.error.FunifierApiError? && !readJson(apiResult).Success?
                ==> readJson(apiResult).error.ValueError? || readJson(apiResult).error.FunifierApiError?)
  {
  }

  /** An envelope with an error code other than 200 raises its message. */
  lemma GetDataRaises(apiResult: string, readJson: string -> Result<Frame, Error>,
                      loads: string -> Result<Value, Error>,
                      envelopeFromDict: Value -> Result<Envelope, Error>,
                      json: Value, code: Value, message: Value)
    requires readJson(apiResult).Failure? && readJson(apiResult).error.ValueError?
    requires loads(apiResult) == Success(json) && envelopeFromDict(json) == Success(Envelope(code, message))
    requires code != Int(200)
    ensures GetData(apiResult, readJson, loads, envelopeFromDict) == Failure(FunifierApiError(message))
  {
  }

  /** `data.decode("utf-8")`: bytes that are not UTF-8 raise. */
  function Receive(data: seq<byte>): (r: Result<string, Error>)
    ensures r.Success? <==> Utf8.Decode(data).Some?
  {
    match Utf8.Decode(data)
    case Some(text) => Success(text)
    case None => Failure(ValueError("'utf-8' codec can't decode bytes"))
  }

  /** Whatever text the API sends is read back unchanged. */
  lemma ReceiveEncoded(text: string)
    ensures Receive(Utf8.Encode(text)) == Success(text)
  {
    Utf8.DecodeEncode(text);
  }

  /** An `APIConfigsDTO`: a dataclass with the fields the service reads. */
  predicate IsConfig(config: Value)
  {
    && config.Obj?
    && "api_key" in KeysOf(config.fields) && "app_secret" in KeysOf(config.fields)
    && "url" in KeysOf(config.fields) && "version" in KeysOf(config.fields)
    && "header" in KeysOf(config.fields)
  }

  /** `FunifierAPI`: its settings are copied from the configuration once,
      when it is made, and never change. */
  class FunifierAPI {
    const apiKey: Value
    const appSecret: Value
    const url: Value
    const version: Value
    const header: Value

    /** `__init__`: the five settings of the configuration. */
    constructor (config: Value)
      requires IsConfig(config)
      ensures Success(apiKey) == GetAttr(config, "api_key")
      ensures Success(appSecret) == GetAttr(config, "app_secret")
      ensures Success(url) == GetAttr(config, "url")
      ensures Success(version) == GetAttr(config, "version")
      ensures Success(header) == GetAttr(config, "header")
    {
      apiKey := GetAttr(config, "api_key").value;
      appSecret := GetAttr(config, "app_secret").value;
      url := GetAttr(config, "url").value;
      version := GetAttr(config, "version").value;
      header := GetAttr(config, "header").value;
    }

    /** The text the Basic credentials encode: key, colon, secret. */
    function Credentials(): string
    {
      StrOf(apiKey) + ":" + StrOf(appSecret)
    }

    /** The `Authorization` header: `Basic ` and the base64 of the UTF-8
        bytes of the credentials, which decode back to them. */
    function Authorization(): (a: string)
      ensures |a| >= 6 && a[..6] == "Basic "
      ensures |a| == 6 + 4 * ((|Utf8.Encode(Credentials())| + 2) / 3)
      ensures Base64.Decode(a[6..]) == Some(Utf8.Encode(Credentials()))
      ensures Utf8.Decode(Base64.Decode(a[6..]).value) == Some(Credentials())
    {
      var encoded := Base64.Encode(Utf8.Encode(Credentials()));
      Base64.DecodeEncode(Utf8.Encode(Credentials()));
      Utf8.DecodeEncode(Credentials());
      assert ("Basic " + encoded)[6..] == encoded;
      "Basic " + encoded
    }

    /** The request path: a slash, the API version, the route. */
    function Path(route: string): string
    {
      "/" + StrOf(version) + route
    }

    /** The path holds the version after its slash and ends with the route. */
    lemma PathParts(route: string)
      ensures var p, v := Path(route), StrOf(version);
              && |p| == 1 + |v| + |route| && p[0] == '/'
              && p[1..1 + |v|] == v && p[1 + |v|..] == route
    {
    }

    /** The header dictionary: `Content-Type` and `Range` from the
        configured header, `Authorization` in between. A missing header
        (or field) raises `AttributeError`. */
    function Headers(): (r: Result<seq<(string, Value)>, Error>)
      ensures r.Success? <==> GetAttr(header, "content_type").Success? && GetAttr(header, "range").Success?
      ensures GetAttr(header, "content_type").Failure? ==> r == Failure(NoAttribute(header, "content_type"))
      ensures header == NoneValue ==> r == Failure(NoAttribute(NoneValue, "content_type"))
      ensures r.Success? ==> KeysOf(r.value) == ["Content-Type", "Authorization", "Range"]
      ensures r.Success? ==> Lookup(r.value, "Authorization") == Some(Str(Authorization()))
      ensures r.Success? ==> && Lookup(r.value, "Content-Type") == Some(GetAttr(header, "content_type").value)
                             && Lookup(r.value, "Range") == Some(GetAttr(header, "range").value)
    {
      match GetAttr(header, "content_type")
      case Failure(e) => Failure(e)
      case Success(contentType) =>
        (match GetAttr(header, "range")
         case Failure(e) => Failure(e)
         case Success(range) =>
           Success([("Content-Type", contentType), ("Authorization", Str(Authorization())), ("Range", range)]))
    }

    /** `__API_request` up to the send: the request for a method, a route
        and an optional body, to the configured host. */
    function ApiRequest(httpMethod: Value, route: string, body: Option<seq<byte>>): (r: Result<Request, Error>)
      ensures r.Success? <==> Headers().Success?
      ensures r.Success? ==> r.value.httpMethod == httpMethod && r.value.host == url && r.value.body == body
      ensures r.Success? ==> r.value.path == Path(route) && r.value.headers == Headers().value
    {
      match Headers()
      case Failure(e) => Failure(e)
      case Success(headers) => Success(Request(httpMethod, url, Path(route), headers, body))
    }

    /** `__GET_request`: method `GET`, no body. */
    function GetRequest(route: string): Result<Request, Error>
    {
      ApiRequest(FunifierConstants.Get().value, route, None)
    }

    /** `__POST_request`: method `POST`, the body encoded as UTF-8. */
    function PostRequest(route: string, body: string): Result<Request, Error>
    {
      ApiRequest(Post().value, route, Some(Utf8.Encode(body)))
    }

    /** A GET request carries the method `"GET"` and no body. */
    lemma GetRequestShape(route: string)
      requires Headers().Success?
      ensures var r := GetRequest(route);
              && r.Success? && r.value.httpMethod == Str("GET") && r.value.body == None
              && r.value.path == Path(route)
    {
      HttpMethodValues();
    }

    /** A POST request carries the method `"POST"` and a body whose bytes
        decode back to the text given. */
    lemma PostRequestShape(route: string, body: string)
      requires Headers().Success?
      ensures var r := PostRequest(route, body);
              && r.Success? && r.value.httpMethod == Str("POST") && r.value.path == Path(route)
              && r.value.body.Some? && Utf8.Decode(r.value.body.value) == Some(body)
    {
      HttpMethodValues();
      Utf8.DecodeEncode(body);
    }

    /** Post a body to a route and read the answer as UTF-8 text; `send`
        stands for the HTTPS round trip. */
    function Exchange(route: string, body: string, send: Request -> seq<byte>): (r: Result<string, Error>)
      ensures Headers().Failure? ==> r == Failure(Headers().error)
    {
      match PostRequest(route, body)
      case Failure(e) => Failure(e)
      case Success(request) => Receive(send(request))
    }

    /** `count_lottery_participants`: post the count pipeline for the
        ticket to the aggregation route, read the answer as a table, take
        its count. */
    function CountLotteryParticipants(ticketUid: string, send: Request -> seq<byte>,
                                      readJson: string -> Result<Frame, Error>): (r: Result<int, Error>)
      ensures Headers().Failure? ==> r == Failure(Headers().error)
    {
      match Exchange(DbAchievementAggr, CountBody(ticketUid), send)
      case Failure(e) => Failure(e)
      case Success(text) =>
        (match readJson(text)
         case Failure(e) => Failure(e)
         case Success(data) => GetCounts(data))
    }

    /** The count request goes to `/<version>/database/achievement/aggregate?strict=true`
        and its body is the count pipeline with the ticket UID in place. */
    lemma CountRequestSent(ticketUid: string)
      requires Headers().Success?
      ensures var r := PostRequest(DbAchievementAggr, CountBody(ticketUid));
              && r.Success? && r.value.path == "/" + StrOf(version) + "/database/achievement/aggregate?strict=true"
              && Utf8.Decode(r.value.body.value) == Some(CountHead() + ticketUid + CountTail())
    {
      PostRequestShape(DbAchievementAggr, CountBody(ticketUid));
      CountBodyFilled(ticketUid);
    }

    /** When the API answers with the single `count` row, that count is
        the result. */
    lemma CountOfAnswer(ticketUid: string, send: Request -> seq<byte>,
                        readJson: string -> Result<Frame, Error>, text: string, n: int)
      requires Headers().Success?
      requires send(PostRequest(DbAchievementAggr, CountBody(ticketUid)).value) == Utf8.Encode(text)
      requires readJson(text) == Success(Table(["count"], [[Int(n)]]))
      ensures CountLotteryParticipants(ticketUid, send, readJson) == Success(n)
    {
      ReceiveEncoded(text);
      GetCountsOfCountStage(n);
    }

    /** `get_lottery_winners_with_address`: post the winners pipeline for
        the lottery and its ticket, then `__get_data` of the answer. */
    function GetLotteryWinnersWithAddress(lotteryUid: string, ticketUid: string, send: Request -> seq<byte>,
                                          readJson: string -> Result<Frame, Error>,
                                          loads: string -> Result<Value, Error>,
                                          envelopeFromDict: Value -> Result<Envelope, Error>)
      : Result<Option<Frame>, Error>
    {
      match Exchange(DbAchievementAggr, WinnersBody(lotteryUid, ticketUid), send)
      case Failure(e) => Failure(e)
      case Success(text) => GetData(text, readJson, loads, envelopeFromDict)
    }

    /** The winners request body is the winners pipeline with the lottery
        UID in place, and the ticket UID in place of every ticket
        placeholder, including one the lottery UID brings in. */
    lemma WinnersRequestSent(lotteryUid: string, ticketUid: string)
      requires Headers().Success?
      ensures var r := PostRequest(DbAchievementAggr, WinnersBody(lotteryUid, ticketUid));
              && r.Success? && r.value.path == "/" + StrOf(version) + "/database/achievement/aggregate?strict=true"
              && Utf8.Decode(r.value.body.value)
                 == Some(WinnersHead() + ReplaceAll(lotteryUid, Ticket, ticketUid) + WinnersLookup()
                         + ticketUid + WinnersRest())
    {
      PostRequestShape(DbAchievementAggr, WinnersBody(lotteryUid, ticketUid));
      WinnersBodyFilled(lotteryUid, ticketUid);
    }

    /** Without a usable header nothing is sent and the `AttributeError`
        propagates. */
    lemma WinnersWithoutHeaders(lotteryUid: string, ticketUid: string, send: Request -> seq<byte>,
                                readJson: string -> Result<Frame, Error>,
                                loads: string -> Result<Value, Error>,
                                envelopeFromDict: Value -> Result<Envelope, Error>)
      requires Headers().Failure?
      ensures GetLotteryWinnersWithAddress(lotteryUid, ticketUid, send, readJson, loads, envelopeFromDict)
              == Failure(Headers().error)
    {
    }

    /** Whatever text the API answers with is handed to `__get_data`
        unchanged, so the outcomes of `GetDataOutcomes` are the outcomes of
        the query. */
    lemma WinnersOfAnswer(lotteryUid: string, ticketUid: string, send: Request -> seq<byte>,
                          readJson: string -> Result<Frame, Error>,
                          loads: string -> Result<Value, Error>,
                          envelopeFromDict: Value -> Result<Envelope, Error>, text: string)
      requires Headers().Success?
      requires send(PostRequest(DbAchievementAggr, WinnersBody(lotteryUid, ticketUid)).value) == Utf8.Encode(text)
      ensures GetLotteryWinnersWithAddress(lotteryUid, ticketUid, send, readJson, loads, envelopeFromDict)
              == GetData(text, readJson, loads, envelopeFromDict)
    {
      ReceiveEncoded(text);
    }
  }

  /** For ASCII credentials the header has `6 + 4 * ceil(n / 3)`
      characters, `n` the length of `key:secret`. */
  lemma AuthorizationLength(api: FunifierAPI)
    requires forall i | 0 <= i < |api.Credentials()| :: api.Credentials()[i] as int < 0x80
    ensures |api.Authorization()| == 6 + 4 * ((|StrOf(api.apiKey)| + 1 + |StrOf(api.appSecret)| + 2) / 3)
  {
    Utf8.EncodeAscii(api.Credentials());
  }

  /** A key without a colon is the part of the credentials before the first
      colon, so the server can split them apart again. */
  lemma CredentialsSplit(api: FunifierAPI)
    requires ':' !in StrOf(api.apiKey)
    ensures Split(api.Credentials(), ":")[0] == StrOf(api.apiKey)
  {
    SplitCharFirst(StrOf(api.apiKey), ':', StrOf(api.appSecret));
  }
}
