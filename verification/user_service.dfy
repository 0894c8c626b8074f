/** The request side of src/api/user-service.ts: the option bag is spread
    into a query map, list-valued `nat`, `inc` and `exc` entries are joined
    with commas, and the query is handed to the HTTP client, which the model
    takes as an abstract function. */
module UserApi {
  import opened Wrappers
  import opened Text
  import opened Types
  import opened Dates
  import UserFormatters

  /** A value of the query object: a number, a string or a list of strings. */
  datatype ParamValue = PNum(n: int) | PStr(s: string) | PList(items: seq<string>)

  /** The keys a spread bag can produce: the property names of
      `UserFetchParams`, each written out by `KeyName`. */
  datatype QueryKey = ResultsKey | GenderKey | NatKey | SeedKey | IncKey | ExcKey | PageKey

  function KeyName(k: QueryKey): string {
    match k
    case ResultsKey => "results"
    case GenderKey => "gender"
    case NatKey => "nat"
    case SeedKey => "seed"
    case IncKey => "inc"
    case ExcKey => "exc"
    case PageKey => "page"
  }

  /** Distinct keys are distinct property names, so a map over `QueryKey`
      is the object with those names. */
  lemma KeyNamesDistinct(j: QueryKey, k: QueryKey)
    ensures KeyName(j) == KeyName(k) <==> j == k
  {
  }

  /** `Record<string, any>`, keyed by property name; the order of the keys
      is not modelled. */
  type QueryParams = map<QueryKey, ParamValue>

  /** `httpClient.get(path, query)`: the response, or the error it rejects with. */
  type Fetch = (string, QueryParams) -> Result<ApiResponse, ApiError>

  const ApiPath: string := "/api/"

  const AllKeys: set<QueryKey> := {ResultsKey, GenderKey, NatKey, SeedKey, IncKey, ExcKey, PageKey}

  /** The keys whose list values are joined: "nat", "inc" and "exc". */
  predicate IsListKey(k: QueryKey) {
    k.NatKey? || k.IncKey? || k.ExcKey?
  }

  function GenderText(g: Gender): string {
    match g
    case Male => "male"
    case Female => "female"
  }

  function StrOrListValue(v: StrOrList): ParamValue {
    match v
    case Str(s) => PStr(s)
    case List(xs) => PList(xs)
  }

  /** The value of the property under key `k`, when it is present. */
  function Field(p: UserFetchParams, k: QueryKey): Option<ParamValue> {
    match k
    case ResultsKey => if p.results.Some? then Some(PNum(p.results.value)) else None
    case GenderKey => if p.gender.Some? then Some(PStr(GenderText(p.gender.value))) else None
    case NatKey => if p.nationality.Some? then Some(StrOrListValue(p.nationality.value)) else None
    case SeedKey => if p.seed.Some? then Some(PStr(p.seed.value)) else None
    case IncKey => if p.inc.Some? then Some(StrOrListValue(p.inc.value)) else None
    case ExcKey => if p.exc.Some? then Some(StrOrListValue(p.exc.value)) else None
    case PageKey => if p.page.Some? then Some(PNum(p.page.value)) else None
  }

  /** `{ ...params }`: one entry per present property, under the property's
      own name; nothing at all for an absent bag. */
  function Spread(params: Option<UserFetchParams>): QueryParams {
    match params
    case None => map[]
    case Some(p) => map k | k in AllKeys && Field(p, k).Some? :: Field(p, k).value
  }

  /** What a list under a list key is sent as; every other value unchanged. */
  function SentAt(k: QueryKey, v: ParamValue): ParamValue {
    if IsListKey(k) && v.PList? then PStr(Join(v.items, ",")) else v
  }

  /** The query as sent: every list under a list key becomes its elements
      joined by ","; every other entry is kept as it is. */
  function Normalized(q: QueryParams): (r: QueryParams)
    ensures r.Keys == q.Keys
    ensures forall k :: k in q ==> r[k] == SentAt(k, q[k])
  {
    map k | k in q :: SentAt(k, q[k])
  }

  /** The sent query, key by key: a key is present exactly when its
      property is, and holds that property's value as sent. */
  lemma SentAtKey(p: UserFetchParams, k: QueryKey)
    ensures k in Normalized(Spread(Some(p))) <==> Field(p, k).Some?
    ensures Field(p, k).Some? ==> Normalized(Spread(Some(p)))[k] == SentAt(k, Field(p, k).value)
  {
  }

  /** The keys of the properties present in the bag. */
  function PresentKeys(params: Option<UserFetchParams>): set<QueryKey> {
    if params.None? then {}
    else
      var p := params.value;
      (if p.results.Some? then {ResultsKey} else {})
      + (if p.gender.Some? then {GenderKey} else {})
      + (if p.nationality.Some? then {NatKey} else {})
      + (if p.seed.Some? then {SeedKey} else {})
      + (if p.inc.Some? then {IncKey} else {})
      + (if p.exc.Some? then {ExcKey} else {})
      + (if p.page.Some? then {PageKey} else {})
  }

  /** The query carries exactly the keys of the present properties: none is
      dropped and none is invented. */
  lemma QueryKeys(params: Option<UserFetchParams>)
    ensures Normalized(Spread(params)).Keys == PresentKeys(params)
  {
    if params.Some? {
      forall k
        ensures k in Normalized(Spread(params)) <==> k in PresentKeys(params)
      {
        SentAtKey(params.value, k);
        PresentKey(params.value, k);
      }
    }
  }

  lemma PresentKey(p: UserFetchParams, k: QueryKey)
    ensures k in PresentKeys(Some(p)) <==> Field(p, k).Some?
  {
  }

  /** What a `string | string[]` property is sent as. */
  /** Each property is sent under its key exactly when it is present:
      numbers and strings unchanged, gender by its name, and `nat`, `inc`
      and `exc` as the string or the joined list. */
  lemma QueryValues(p: UserFetchParams)
    ensures var q := Normalized(Spread(Some(p)));
      && (ResultsKey in q <==> p.results.Some?) && (p.results.Some? ==> q[ResultsKey] == PNum(p.results.value))
      && (GenderKey in q <==> p.gender.Some?) && (p.gender.Some? ==> q[GenderKey] == PStr(GenderText(p.gender.value)))
      && (NatKey in q <==> p.nationality.Some?)
      && (p.nationality.Some? && p.nationality.value.Str? ==> q[NatKey] == PStr(p.nationality.value.text))
      && (p.nationality.Some? && p.nationality.value.List? ==> q[NatKey] == PStr(Join(p.nationality.value.items, ",")))
      && (SeedKey in q <==> p.seed.Some?) && (p.seed.Some? ==> q[SeedKey] == PStr(p.seed.value))
      && (IncKey in q <==> p.inc.Some?)
      && (p.inc.Some? && p.inc.value.Str? ==> q[IncKey] == PStr(p.inc.value.text))
      && (p.inc.Some? && p.inc.value.List? ==> q[IncKey] == PStr(Join(p.inc.value.items, ",")))
      && (ExcKey in q <==> p.exc.Some?)
      && (p.exc.Some? && p.exc.value.Str? ==> q[ExcKey] == PStr(p.exc.value.text))
      && (p.exc.Some? && p.exc.value.List? ==> q[ExcKey] == PStr(Join(p.exc.value.items, ",")))
      && (PageKey in q <==> p.page.Some?) && (p.page.Some? ==> q[PageKey] == PNum(p.page.value))
  {
  }

  /** A joined list keeps every element in its order: splitting the sent
      string at "," gives the list back when no element holds a comma. */
  lemma JoinedListRoundTrip(k: QueryKey, xs: seq<string>)
    requires IsListKey(k)
    requires |xs| >= 1 && forall i :: 0 <= i < |xs| ==> ',' !in xs[i]
    ensures SentAt(k, PList(xs)).PStr? && Split(SentAt(k, PList(xs)).s, ',') == xs
  {
    SplitJoin(xs, ',');
  }

  /** An empty array is truthy in JavaScript, so an empty list is sent as
      the empty string rather than dropped. */
  lemma EmptyListSentEmpty(k: QueryKey)
    requires IsListKey(k)
    ensures SentAt(k, PList([])) == PStr("")
  {
  }

  /** No bag, or a bag with no properties, gives the empty query. */
  lemma NoParamsEmptyQuery()
    ensures Normalized(Spread(None)) == map[]
    ensures Normalized(Spread(Some(NoParams))) == map[]
  {
    QueryKeys(Some(NoParams));
  }

  /** The sent query holds no lists. */
  lemma QueryHasNoLists(params: Option<UserFetchParams>)
    ensures forall k :: k in Normalized(Spread(params)) ==> !Normalized(Spread(params))[k].PList?
  {
    var q := Spread(params);
    forall k | k in q
      ensures q[k].PList? ==> IsListKey(k)
    {
    }
  }

  /** Normalising twice is normalising once. */
  lemma NormalizedIdempotent(q: QueryParams)
    ensures Normalized(Normalized(q)) == Normalized(q)
  {
  }

  /** `{ ...params, results: 1 }` */
  function WithSingleResult(params: Option<UserFetchParams>): UserFetchParams {
    (if params.None? then NoParams else params.value).(results := Some(1))
  }

  /** The single-user request asks for one result whatever the caller gave,
      and sends every other property as the list request would. */
  lemma SingleResultQuery(params: Option<UserFetchParams>)
    ensures Normalized(Spread(Some(WithSingleResult(params))))
         == Normalized(Spread(params))[ResultsKey := PNum(1)]
  {
    var p := WithSingleResult(params);
    var m := Normalized(Spread(params))[ResultsKey := PNum(1)];
    forall k
      ensures k in m <==> Field(p, k).Some?
      ensures k in m ==> m[k] == SentAt(k, Field(p, k).value)
    {
      if params.Some? {
        SentAtKey(params.value, k);
      }
    }
    QueryIs(p, m);
  }

  /** user-service.test.ts: a bag with lists is sent with the lists joined. */
  lemma ListParamsExample()
    ensures Normalized(Spread(Some(UserFetchParams(Some(5), Some(Male), Some(List(["us", "gb"])), Some("test"),
                                                   Some(List(["name", "gender", "email"])), None, None))))
         == map[ResultsKey := PNum(5), GenderKey := PStr("male"), NatKey := PStr("us,gb"), SeedKey := PStr("test"),
                IncKey := PStr("name,gender,email")]
  {
    var p := UserFetchParams(Some(5), Some(Male), Some(List(["us", "gb"])), Some("test"),
                             Some(List(["name", "gender", "email"])), None, None);
    var m := map[ResultsKey := PNum(5), GenderKey := PStr("male"), NatKey := PStr("us,gb"), SeedKey := PStr("test"),
                 IncKey := PStr("name,gender,email")];
    JoinExamples();
    forall k
      ensures k in m <==> Field(p, k).Some?
      ensures k in m ==> m[k] == SentAt(k, Field(p, k).value)
    {
    }
    QueryIs(p, m);
  }

  /** A map that agrees with `SentAtKey` on every key is the sent query. */
  lemma QueryIs(p: UserFetchParams, m: QueryParams)
    requires forall k :: k in m <==> Field(p, k).Some?
    requires forall k :: k in m ==> m[k] == SentAt(k, Field(p, k).value)
    ensures Normalized(Spread(Some(p))) == m
  {
    forall k
      ensures k in Normalized(Spread(Some(p))) <==> k in m
      ensures k in m ==> Normalized(Spread(Some(p)))[k] == m[k]
    {
      SentAtKey(p, k);
    }
  }

  lemma JoinExamples()
    ensures Join(["us", "gb"], ",") == "us,gb"
    ensures Join(["name", "gender", "email"], ",") == "name,gender,email"
  {
  }

  /** user-service.test.ts: the single-user request with filters, and
      without. */
  lemma SingleResultExamples()
    ensures Normalized(Spread(Some(WithSingleResult(None)))) == map[ResultsKey := PNum(1)]
    ensures Normalized(Spread(Some(WithSingleResult(Some(NoParams.(gender := Some(Male), nationality := Some(Str("us"))))))))
         == map[ResultsKey := PNum(1), GenderKey := PStr("male"), NatKey := PStr("us")]
  {
    var m1 := map[ResultsKey := PNum(1)];
    forall k
      ensures k in m1 <==> Field(WithSingleResult(None), k).Some?
      ensures k in m1 ==> m1[k] == SentAt(k, Field(WithSingleResult(None), k).value)
    {
    }
    QueryIs(WithSingleResult(None), m1);
    var p := WithSingleResult(Some(NoParams.(gender := Some(Male), nationality := Some(Str("us")))));
    var m2 := map[ResultsKey := PNum(1), GenderKey := PStr("male"), NatKey := PStr("us")];
    forall k
      ensures k in m2 <==> Field(p, k).Some?
      ensures k in m2 ==> m2[k] == SentAt(k, Field(p, k).value)
    {
    }
    QueryIs(p, m2);
  }

  /** The service object; its HTTP client is the abstract `Fetch`. */
  class UserService {
    const client: Fetch

    constructor(client: Fetch)
      ensures this.client == client
    {
      this.client := client;
    }

    /** The query of getUsers: the spread, then the three conditional
        overwrites of the list-valued keys. */
    method BuildQuery(params: Option<UserFetchParams>) returns (query: QueryParams)
      ensures query == Normalized(Spread(params))
    {
      query := Spread(params);
      if params.Some? && params.value.nationality.Some? && params.value.nationality.value.List? {
        query := query[NatKey := PStr(Join(params.value.nationality.value.items, ","))];
      }
      if params.Some? && params.value.inc.Some? && params.value.inc.value.List? {
        query := query[IncKey := PStr(Join(params.value.inc.value.items, ","))];
      }
      if params.Some? && params.value.exc.Some? && params.value.exc.value.List? {
        query := query[ExcKey := PStr(Join(params.value.exc.value.items, ","))];
      }
      if params.Some? {
        forall k
          ensures k in query <==> Field(params.value, k).Some?
          ensures k in query ==> query[k] == SentAt(k, Field(params.value, k).value)
        {
        }
        QueryIs(params.value, query);
      }
    }

    /** getUsers: what the client answers for the normalised query, the
        error passed on unchanged. */
    method GetUsers(params: Option<UserFetchParams>) returns (r: Result<ApiResponse, ApiError>)
      ensures r == client(ApiPath, Normalized(Spread(params)))
    {
      var query := BuildQuery(params);
      r := client(ApiPath, query);
    }

    /** getRandomUser: the first user of a one-result request; `None`
        stands for the `undefined` of an empty result list. */
    method GetRandomUser(params: Option<UserFetchParams>) returns (r: Result<Option<RandomUser>, ApiError>)
      ensures var sent := client(ApiPath, Normalized(Spread(params))[ResultsKey := PNum(1)]);
        && (sent.Failure? ==> r == Failure(sent.error))
        && (sent.Success? && |sent.value.results| > 0 ==> r == Success(Some(sent.value.results[0])))
        && (sent.Success? && |sent.value.results| == 0 ==> r == Success(None))
    {
      SingleResultQuery(params);
      var response := GetUsers(Some(WithSingleResult(params)));
      match response
      case Failure(e) => r := Failure(e);
      case Success(body) =>
        if |body.results| == 0 {
          r := Success(None);
        } else {
          r := Success(Some(body.results[0]));
        }
    }

    function FullName(user: RandomUser): (r: string)
      ensures r == UserFormatters.FullName(user) && NoEdgeWhitespace(r)
    {
      UserFormatters.FullName(user)
    }

    function FormattedAddress(user: RandomUser): (r: string)
      ensures r == UserFormatters.FormattedAddress(user) && NoEdgeWhitespace(r)
    {
      UserFormatters.FormattedAddress(user)
    }

    /** The JavaScript date parser of the running engine is a parameter. */
    method FormatDateOfBirth(user: RandomUser, options: Option<UserFormatOptions>, parse: DateParser)
      returns (r: string)
      ensures r == UserFormatters.FormattedDob(user.dob.date, UserFormatters.DateFormatOf(options), parse)
    {
      r := UserFormatters.FormatDateOfBirth(user, options, parse);
    }
  }
}
