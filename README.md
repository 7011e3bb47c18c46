# Funifier lottery-winners client: a verified model

The lottery-winners application talks to the hosted Funifier gamification
API. Around its I/O (HTTPS, pandas, a Streamlit UI) sits a small,
deterministic core. This project models that core in Dafny and proves what it
promises:

- `FunifierAPI` (`common/service/api_funifier_service.py`). It covers:
  - the Basic `Authorization` header, the header dictionary and the request
    path;
  - the two aggregation-pipeline bodies, filled by `str.replace` with the
    lottery and ticket UIDs;
  - the relative-date and absolute-date query fragments;
  - how an answer becomes a count (`__get_counts`) or a table or an error
    (`__get_data`).
- The generic helpers the DTO layer is built on:
  - list membership and filtering (`list_helper.py`);
  - `ExtendedEnum` lookups by name, by substring and by predicate
    (`enum_extension.py`);
  - `ExtendedDTO.to_dict` and `get_object_by_name` (`dto_extension.py`);
  - `get_optional_value` with its type dispatch, and the `List[...]`
    class-name handling (`dto_helper.py`).
- The `from_dict`/`from_string` mappings of the configuration DTOs
  (`api_config_dto.py`, `config_var_dto.py`).

## Layout

| file | module | what it holds |
|---|---|---|
| wrappers.dfy | `Wrappers` | `Option` and `Result` |
| strings.dfy | `Strings` | Python `str.replace` (`ReplaceAll`), `split`/`join`, `in` on texts, `str(int)` and `int(str)`, and the lemmas that compute a replacement piece by piece |
| bytes.dfy, utf8.dfy, base64.dfy | `Bytes`, `Utf8`, `Base64` | bytes; `str.encode`/`bytes.decode` for UTF-8; RFC 4648 base64 (section 4) with a strict decoder |
| py_value.dfy | `PyValue` | Python values: `None`, `str`, `int`, `bool`, list, dict, enum member and dataclass instance. It also gives `getattr`, `dict.get`, `str()`, `repr()`, `int()`, truthiness and the exceptions the core raises |
| list_helper.dfy | `ListHelper` | `list_helper.py` |
| enum_extension.dfy | `EnumExtension` | `enum_extension.py` |
| dto_extension.dfy | `DtoExtension` | `dto_extension.py` |
| dto_helper.dfy | `DtoHelper` | `dto_helper.py`, with a hand-written matcher for `List\[[^\]]*\]` |
| api_config_dto.dfy, config_var_dto.dfy | `ApiConfigDto`, `ConfigVarDto` | the two DTO files |
| funifier_constants.dfy | `FunifierConstants` | placeholder tokens (`pattern.py`), the aggregation route (`routes.py`), `HTTPmethodsEnum` and `EncodingEnum` |
| funifier_templates.dfy | `FunifierTemplates` | the literal text of the two pipeline bodies, cut at the placeholders |
| funifier_queries.dfy | `FunifierQueries` | body filling, `__define_time_range`, `__define_time_period` and its test hook |
| funifier_api.dfy | `FunifierApi` | the `FunifierAPI` class, the requests it builds, `__get_counts` and `__get_data` |

About the `FunifierAPI` model:

- `FunifierAPI` is a class. Its five settings are `const` fields, set once
  by the constructor, as `__init__` does.
- Sending a request is a function parameter `send: Request -> seq<byte>`.
- `pd.read_json`, `json.loads` and `APIResponseDTO.from_dict` are the
  parameters `readJson`, `loads` and `envelopeFromDict`.
- A DataFrame is a `Frame`: column names plus rows, one cell per column.
- The private helpers `__define_time_period`, `__define_time_range` and
  `__get_data` do not read the instance. They are module functions.

Two other source behaviours are modelled the same way:

- Python exceptions are the `Failure` side of a `Result`, carrying the
  exception class and its message.
- A loop with an early return is a `method` proved equal to a specification
  function. This applies to `is_element_in_list`, `from_string`,
  `detects_if_enum_in_x`, `to_dict` and `get_object_by_name`.

## Model

| member | source | states |
|---|---|---|
| FunifierApi.FunifierAPI.constructor | common/service/api_funifier_service.py:90-96 | the key, secret, URL, version and header are the configuration's `api_key`, `app_secret`, `url`, `version`, `header` |
| FunifierApi.FunifierAPI.Authorization | common/service/api_funifier_service.py:102-105 | the value starts with `Basic `; after it comes the base64 of the UTF-8 bytes of `key:secret`, `4·⌈n/3⌉` characters for `n` bytes, which decodes back to those bytes and they to the text |
| FunifierApi.AuthorizationLength | common/service/api_funifier_service.py:102-105 | for ASCII credentials the header has `6 + 4·⌈(|key| + 1 + |secret|)/3⌉` characters |
| FunifierApi.CredentialsSplit | common/service/api_funifier_service.py:103 | a key without a colon is the text before the first colon of `key:secret` |
| FunifierApi.FunifierAPI.PathParts | common/service/api_funifier_service.py:109 | the path is a slash, then the version text, then the route, and each part is recovered from it |
| FunifierApi.FunifierAPI.Headers | common/service/api_funifier_service.py:100-107 | succeeds iff the configured header has `content_type` and `range`; a `None` header raises the `AttributeError` for `content_type`; keys are `Content-Type`, `Authorization`, `Range` in that order, with the header's `content_type`, the Basic value and the header's `range` under them |
| FunifierApi.FunifierAPI.ApiRequest | common/service/api_funifier_service.py:98-109 | fails exactly when the headers fail; otherwise the request has the given method and body, the configured host, the version-prefixed path and the headers |
| FunifierApi.FunifierAPI.GetRequestShape | common/service/api_funifier_service.py:115-117 | a GET request has method `"GET"` and no body |
| FunifierApi.FunifierAPI.PostRequestShape | common/service/api_funifier_service.py:119-122 | a POST request has method `"POST"` and a body whose bytes decode as UTF-8 to the text given |
| FunifierApi.Receive | common/service/api_funifier_service.py:113 | decoding the answer succeeds iff its bytes are UTF-8 |
| FunifierApi.ReceiveEncoded | common/service/api_funifier_service.py:113 | any text sent as UTF-8 is read back unchanged |
| FunifierApi.FunifierAPI.Exchange | common/service/api_funifier_service.py:109-113 | without usable headers the `AttributeError` propagates and nothing else happens |
| FunifierApi.FunifierAPI.CountLotteryParticipants | common/service/api_funifier_service.py:165-170 | without usable headers the header error is the result |
| FunifierApi.FunifierAPI.CountRequestSent | common/service/api_funifier_service.py:148-167 | the count request goes to `/<version>/database/achievement/aggregate?strict=true` and its body is the count pipeline with the ticket UID in place of the placeholder |
| FunifierApi.FunifierAPI.CountOfAnswer | common/service/api_funifier_service.py:167-170 | when the API answers with the single `count` row `n`, the result is `n` |
| FunifierApi.FunifierAPI.WinnersRequestSent | common/service/api_funifier_service.py:185-256 | for every pair of UIDs, the winners request goes to the aggregation route, and its body is the winners pipeline with the lottery UID in place and the ticket UID in place of every ticket placeholder, including one the lottery UID brings in |
| FunifierApi.FunifierAPI.WinnersWithoutHeaders | common/service/api_funifier_service.py:256-257 | without usable headers the winners query fails with the header error |
| FunifierApi.FunifierAPI.WinnersOfAnswer | common/service/api_funifier_service.py:256-257 | the answer text goes to `__get_data` unchanged |
| FunifierApi.GetCounts | common/service/api_funifier_service.py:363-366 | an empty table gives 0. Otherwise a missing `count` column raises `KeyError`, several rows raise pandas' `TypeError`, and one row gives `int()` of its `count` cell |
| FunifierApi.GetCountsOfCountStage | common/service/api_funifier_service.py:363-364 | the one-cell `count` table holding `n` gives `n` |
| FunifierApi.GetDataOutcomes | common/service/api_funifier_service.py:387-398 | a table is returned iff the text reads as one. Nothing is returned iff reading fails with `ValueError` and the envelope decodes with code 200. A `FunifierAPIError` arises only from the envelope branch or from the reader itself |
| FunifierApi.GetDataRaises | common/service/api_funifier_service.py:390-395 | an envelope whose code is not 200 raises `FunifierAPIError` with its message |
| FunifierQueries.CountBodyFilled | common/service/api_funifier_service.py:148-165 | the count body is the template with the placeholder replaced by the ticket UID, every other character unchanged |
| FunifierQueries.WinnersBodyFilled | common/service/api_funifier_service.py:185-254 | the winners body: the lottery placeholder becomes the lottery UID, then every ticket placeholder, including any the lottery UID brought in, becomes the ticket UID |
| FunifierQueries.WinnersBodyPlain | common/service/api_funifier_service.py:185-254 | for a lottery UID without `#`, both UIDs appear verbatim where their placeholders were and the rest of the template is unchanged |
| FunifierQueries.Inner | common/service/api_funifier_service.py:299 | `s[1:-1]` is `s` without its first and last character, and empty for shorter texts |
| FunifierQueries.DefineTimeRange | common/service/api_funifier_service.py:284-299 | no single quote remains in the fragment |
| FunifierQueries.DefineTimeRangeText | common/service/api_funifier_service.py:284-299 | for plain texts, the fragment is `"<attr>": {"$gte": {"$date": "<from>T00:00:00.000Z"}, "$lte": {"$date": "<to>T00:00:00.000Z"}}` |
| FunifierQueries.CommaText | common/service/api_funifier_service.py:335-338 | the leading comma is `","` or empty |
| FunifierQueries.DefineTimePeriod | common/service/api_funifier_service.py:325-345 | `None` days give `""`. Otherwise it fails iff the attribute is not a text, with the `TypeError` that `str.replace` raises: `replace() argument 2 must be str, not <type>`, where `<type>` is `None` for `None` and the class name otherwise |
| FunifierQueries.DefineTimePeriodNoneAttribute | common/service/api_funifier_service.py:341-344 | with a number of days and a `None` time attribute, the result is `TypeError("replace() argument 2 must be str, not None")` |
| FunifierQueries.DefineTimePeriodText | common/service/api_funifier_service.py:335-345 | the fragment is `<comma>"<attr>": {"$gte":{"$date":"<token>"}}`, with the token also replacing a `#n_days#` that the attribute brings in |
| FunifierQueries.DayTokenOfInt | common/service/api_funifier_service.py:328-333 | the date token of 0 is `-0d-`; of any other `n` it is `-<n>d` |
| FunifierQueries.DefineTimePeriodComplete | common/service/api_funifier_service.py:335-345 | it succeeds with no `#` left in the text, and the text starts with a comma iff `with_leading_coma` is true |
| FunifierQueries.TestHookDefaults | common/service/api_funifier_service.py:402-406 | the defaults give `,"time": {"$gte":{"$date":"<token>"}}` |
| FunifierConstants.Placeholders | common/constants/funifier/pattern.py:20-28 | there are eight placeholder tokens |
| FunifierConstants.PlaceholdersDelimited | common/constants/funifier/pattern.py:21-28 | every token is a name between two `#` with no `#` inside, and no two are equal |
| FunifierConstants.HttpMethods | common/enums/common/http_methods.py:22-77 | `HTTPmethodsEnum` has five members |
| FunifierConstants.HttpMethodValues | common/enums/common/http_methods.py:30-47 | `auto()` makes `GET` `"GET"` and `POST` `"POST"`, and `from_string` finds each back by name |
| FunifierConstants.Encodings | common/enums/common/encoding.py:22-30 | `EncodingEnum` has four members |
| FunifierConstants.EncodingValues | common/enums/common/encoding.py:27-29 | member names are distinct; `UTF8` is `utf-8` and `ASCII` is `ascii` |
| Base64.Encode | common/service/api_funifier_service.py:103-105 | the encoding has `4·⌈n/3⌉` ASCII characters |
| Base64.DecodeEncode | common/service/api_funifier_service.py:103-105 | decoding the encoding gives the bytes back |
| Utf8.DecodeEncode | common/service/api_funifier_service.py:122 | decoding the UTF-8 encoding of a text gives the text back |
| Strings.ReplaceAllIsJoinOfSplit | common/service/api_funifier_service.py:165 | `s.replace(p, r)` is `r.join(s.split(p))` |
| Strings.ReplaceAllConcat | common/service/api_funifier_service.py:252-253 | replacement distributes over a concatenation that no occurrence crosses |
| ListHelper.SingleAsList | common/helper/list_helper.py:51-52 | a single element is looked up exactly as the one-element list holding it |
| ListHelper.ElementInListFound | common/helper/list_helper.py:57-59 | an element that is one of the list's items is found |
| ListHelper.ElementInListPyEquality | common/helper/list_helper.py:59 | membership is Python's `==`: a dictionary is found whatever the order of its keys, and `True` is found as `1` |
| PyValue.PyEqRefl | common/helper/list_helper.py:59 | every value is `==` to itself |
| ListHelper.IsElementInList | common/helper/list_helper.py:51-61 | `TypeError` when the second argument is not a list; otherwise true iff some candidate is `==` to some item of the list, with Python's equality |
| ListHelper.ElementInListEmpty | common/helper/list_helper.py:54-61 | nothing is in an empty list; an empty list of elements finds nothing; the type check comes first |
| ListHelper.ElementInListExamples | common/helper/list_helper.py:38-49 | the four documented examples give their documented results |
| ListHelper.Filter | common/helper/list_helper.py:82 | the result is no longer than the input and every kept object satisfies the criteria |
| ListHelper.FilterIsSubsequence | common/helper/list_helper.py:82 | the kept objects are in their original order |
| ListHelper.FilterCount | common/helper/list_helper.py:82 | every occurrence of an object satisfying the criteria is kept; none of one that does not |
| ListHelper.FilterMembership | common/helper/list_helper.py:82 | an object is kept iff it is in the input and satisfies the criteria |
| ListHelper.FilterIdempotent | common/helper/list_helper.py:82 | filtering twice is filtering once |
| ListHelper.FilterEvens | common/helper/list_helper.py:74-80 | the evens of 1..10 are 2, 4, 6, 8, 10 |
| EnumExtension.ListValues | common/extensions/enum_extension.py:39-41 | one value per member, in declaration order |
| EnumExtension.Keys | common/extensions/enum_extension.py:48-51 | one name per member, in declaration order |
| EnumExtension.ToDict | common/extensions/enum_extension.py:43-46 | `to_dict()` is a dictionary |
| EnumExtension.ToDictAgrees | common/extensions/enum_extension.py:43-51 | the dictionary's keys are `keys()`, and each name maps to the value `list()` has at the same position |
| EnumExtension.FromString | common/extensions/enum_extension.py:63-79 | fails iff no member has that name, with `ValueError("No matching enum value for <s>")`; otherwise the first member declared with that name, with its value |
| EnumExtension.FromStringScan | common/extensions/enum_extension.py:76-79 | the loop returns what `FromString` specifies |
| EnumExtension.StrOfMember | common/extensions/enum_extension.py:106-109 | `str(member)` is `str(member.value)` |
| EnumExtension.DetectScan | common/extensions/enum_extension.py:82-104 | the loop returns what the search specifies: `method` applied first, then the first match, `DEFAULT`, or `ValueError` |
| EnumExtension.DetectSkips | common/extensions/enum_extension.py:99-101 | members with a `None` value or a value not in the text do not change the outcome |
| EnumExtension.DetectFirstMatch | common/extensions/enum_extension.py:97-101 | the first member, in declaration order, whose value occurs in the (transformed) text is returned |
| EnumExtension.DetectNoMatch | common/extensions/enum_extension.py:102-104 | with no match, `DEFAULT` if the class has it, else `ValueError` naming the text |
| EnumExtension.WhereExact | common/extensions/enum_extension.py:174 | a member is in `where`'s result iff it satisfies the predicate, and the result keeps declaration order |
| EnumExtension.WhereColorExample | common/extensions/enum_extension.py:122-138 | `Color.where(value > 2)` is BLUE, YELLOW, PURPLE |
| EnumExtension.IdentityRoundTrip | common/extensions/enum_extension.py:180-189 | an `auto()` member's value and text are its name, and `from_string` of the name gives the member back |
| DtoExtension.TransformValue | common/extensions/dto_extension.py:74-77 | the result is `None` iff the input is `None` or `"None"`; otherwise it is the input |
| DtoExtension.ToDict | common/extensions/dto_extension.py:30-52 | the loop builds what the field-by-field specification gives |
| DtoExtension.ToDictKeys | common/extensions/dto_extension.py:39-42 | the keys are exactly the names of the fields that are neither `None` nor `"None"`, in field order |
| DtoExtension.ToDictField | common/extensions/dto_extension.py:39-50 | an absent field has no key. An enum member is stored as its value and a nested DTO as its own dictionary. A list becomes one dictionary per item, in order. Anything else is copied |
| DtoExtension.ItemDictsAll | common/extensions/dto_extension.py:44 | a converted list has one dictionary per item, in order |
| DtoExtension.ToDictPlain | common/extensions/dto_extension.py:39-50 | a DTO of texts other than `"None"` becomes the dictionary of its fields |
| DtoExtension.ToDictFailure | common/extensions/dto_extension.py:43-44 | every failure is the `AttributeError` for `to_dict` on some value nested in the DTO that is neither an enum member nor an `ExtendedDTO` |
| DtoExtension.GetObjectByName | common/extensions/dto_extension.py:54-71 | the loop returns what the search specifies |
| DtoExtension.FirstWithAttrSkips | common/extensions/dto_extension.py:68-70 | objects whose attribute differs from `name` are passed over |
| DtoExtension.ObjectByNameFound | common/extensions/dto_extension.py:67-70 | the first object whose attribute equals `name` is returned |
| DtoExtension.ObjectByNameNotFound | common/extensions/dto_extension.py:67-71 | no list, an empty list or no match gives `None` |
| DtoHelper.Iterate | common/helper/dto_helper.py:122 | a list is iterated item by item; only lists, texts and dictionaries are iterable |
| DtoHelper.Dispatch | common/helper/dto_helper.py:140-156 | scalar, enum and DTO types pass; another class raises `This type has not yet been implemented!` |
| DtoHelper.ConvertAll | common/helper/dto_helper.py:120-126 | a successful conversion has one result per item, each that item's conversion; a failure is some item's failure |
| DtoHelper.OptionalAbsent | common/helper/dto_helper.py:114-115 | no object, or an absent key, gives `None` |
| DtoHelper.OptionalStrOfNull | common/helper/dto_helper.py:131-132 | a present `null` read as `str` gives `"None"` |
| DtoHelper.OptionalScalar | common/helper/dto_helper.py:129-136 | a present key gives `value_type(v)`, the enum member named `v`, or `from_dict(v)` |
| DtoHelper.OptionalList | common/helper/dto_helper.py:118-126 | `List[T]` converts each item the same way, keeping length and order |
| DtoHelper.OptionalUnsupported | common/helper/dto_helper.py:127-138 | another class, alone or in a list, raises the not-implemented `TypeError` |
| DtoHelper.FindListPatternIff | common/helper/dto_helper.py:32 | the matcher holds iff the text has `List[`, then no `]`, then `]` |
| DtoHelper.NoCloseNoMatch | common/helper/regex_helper.py:47-48 | a text without `]`, such as `List_ANALYTICS_263509169`, does not match |
| DtoHelper.StripPlain | common/helper/dto_helper.py:59 | a plain class name is unchanged by both removals |
| DtoHelper.ExtractDtoNameCases | common/helper/dto_helper.py:57-61 | `List[Name]` gives `(True, Name)` and `Name` gives `(False, Name)` |
| DtoHelper.ImportStringRoundTrip | common/helper/dto_helper.py:63-78 | the statement is `from <path> import <name>` and reads back to that path and name |
| ApiConfigDto.ApiConfigsFromDict | domain_objects/dto/common/api_config_dto.py:83-99 | a decoded configuration is an `APIConfigsDTO` with seven fields |
| ApiConfigDto.ApiConfigsFromString | domain_objects/dto/common/api_config_dto.py:101-104 | `from_string(s)` is `from_dict` of the parsed text, or the parser's error |
| ApiConfigDto.FromDictNone | domain_objects/dto/common/api_config_dto.py:33-99 | every field of every DTO defaults to `None` |
| ApiConfigDto.HeaderFields | domain_objects/dto/common/api_config_dto.py:39-44 | `ContentType`, `Accept`, `Range` go to `content_type`, `accept`, `range`; absent keys give `None` |
| ApiConfigDto.IdFields | domain_objects/dto/common/api_config_dto.py:52-57 | lower-case `name`, `value`, `type` go to the fields of the same name |
| ApiConfigDto.SettingsIds | domain_objects/dto/common/api_config_dto.py:67-71 | `Ids` is decoded item by item through `Id.from_dict` |
| ApiConfigDto.ApiConfigsTexts | domain_objects/dto/common/api_config_dto.py:85-88 | `ApiKey`, `AppSecret`, `Url`, `Version` go to the first four fields |
| ApiConfigDto.ApiConfigsHeader | domain_objects/dto/common/api_config_dto.py:89 | `Header` is decoded by `Header.from_dict` |
| ApiConfigDto.ApiConfigsScope | domain_objects/dto/common/api_config_dto.py:90 | lower-case `scope` is a list of texts, item by item |
| ApiConfigDto.ApiConfigsSettings | domain_objects/dto/common/api_config_dto.py:91 | `Settings` is decoded by `Settings.from_dict` |
| ApiConfigDto.HeaderToDict | domain_objects/dto/common/api_config_dto.py:33-44 | a header decoded from three texts gives them back from `to_dict()` under the field names |
| ConfigVarDto.FromDict | domain_objects/dto/big_query/config_variables/config_var_dto.py:31-36 | fails iff the input is not a dictionary, with the `AttributeError` for `get` |
| ConfigVarDto.FromString | domain_objects/dto/big_query/config_variables/config_var_dto.py:38-41 | `from_string(s)` is `from_dict` of the parsed text, or the parser's error |
| ConfigVarDto.FromDictRoundTrip | domain_objects/dto/big_query/config_variables/config_var_dto.py:32-36 | a row stored as a dictionary is read back |
| ConfigVarDto.FromDictMissingKey | domain_objects/dto/big_query/config_variables/config_var_dto.py:33-35 | a missing key gives the text `"None"`, not a failure |
| ConfigVarDto.FromDictFields | domain_objects/dto/big_query/config_variables/config_var_dto.py:33-35 | each field is `str()` of the first dictionary entry under its key |

## Left out

- The network: `http.client.HTTPSConnection(url)`, the request and the
  response. The bytes the server answers with are the parameter `send`,
  and a failing connection is not modelled.
- FunifierApi.FunifierAPI.ApiRequest: the connection constructor is not
  modelled, so a URL it refuses (not a text, for instance `None` when the
  configuration has no `Url`) is not shown to fail before the headers are
  built; "fails exactly when the headers fail" holds for a text URL the
  constructor accepts.
- `pd.read_json`, `json.loads` and `APIResponseDTO.from_dict`. They are the
  parameters `readJson`, `loads` and `envelopeFromDict`.
  `domain_objects/dto/funifier/api_response_dto.py` and the
  `FunifierAPIError` class are not part of this model.
- Logging (`do_logging`, `logging.exception`). It has no effect on results.
- `create_dto_object`'s `exec` import and `Id.get_value`'s `eval`. These are
  reflection with no static meaning.
- `float` in `get_optional_value` and in the Python values. There is no
  floating point, so `1 == 1.0` is not modelled either. Python's `==`
  (`PyValue.PyEq`) is used for list membership; elsewhere the core compares
  a value with a text or with the code 200, where it coincides with
  equality of values.
  `__define_time_period` compares `n_days` with 0 as Python does, so
  `False` counts as 0.
- `ExtendedEnum.values()`, `ExtendedEnum.print()`, enum aliases and the
  `__main__` demo blocks. These are console output, or their behaviour is
  that of `list()`.
- `app.py`, `logging_helper.py`, and the other routes and placeholders of
  the constant modules, which the core does not use.
- `repr` of characters outside printable ASCII and the Latin-1 controls,
  and the exact message of a `UnicodeDecodeError`. That error is a
  `ValueError` with a fixed message.
- `TypeName` does not prefix a dataclass's module in `str(type(v))`.
- `int()` on texts takes an optional sign and decimal digits only.
  Underscores and surrounding spaces are not accepted.
- FunifierQueries.DefineTimeRangeText: proved only for dates and an
  attribute made of characters `repr` writes unescaped. Other texts are
  still modelled by `DefineTimeRange`, and for them only the absence of
  single quotes is proved.
- FunifierQueries.WinnersBodyPlain: the exact text is proved for lottery
  UIDs without `#`. `WinnersBodyFilled` covers every UID.
- FunifierApi.FunifierAPI.CountLotteryParticipants: its own contract covers
  only the header failure. The other outcomes are the lemmas
  `CountRequestSent` and `CountOfAnswer`.
- FunifierApi.FunifierAPI.GetLotteryWinnersWithAddress: it has no contract
  of its own. Its outcomes are `WinnersWithoutHeaders`, `WinnersOfAnswer`
  and `WinnersRequestSent`.
