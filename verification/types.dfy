/** The records exchanged with the Random User API and the option bags of
    the SDK (src/types/index.ts).  JavaScript numbers that carry counts,
    street numbers and postcodes are integers here. */
module Types {
  import opened Wrappers

  datatype Name = Name(title: string, first: string, last: string)

  datatype Street = Street(number: int, name: string)

  /** A postcode arrives from the API either as text or as a number. */
  datatype Postcode = PostText(text: string) | PostNumber(number: int)

  datatype Coordinates = Coordinates(latitude: string, longitude: string)

  datatype Timezone = Timezone(offset: string, description: string)

  datatype Location = Location(
    street: Street,
    city: string,
    state: string,
    country: string,
    postcode: Postcode,
    coordinates: Coordinates,
    timezone: Timezone)

  datatype Login = Login(
    uuid: string, username: string, password: string,
    salt: string, md5: string, sha1: string, sha256: string)

  /** The `dob` and `registered` blocks: an ISO-8601 date-time and an age. */
  datatype DatedAge = DatedAge(date: string, age: int)

  datatype IdDocument = IdDocument(name: string, value: string)

  datatype Picture = Picture(large: string, medium: string, thumbnail: string)

  /** One user record.  The source's field `nat` is `nationality` here,
      because `nat` names a Dafny type. */
  datatype RandomUser = RandomUser(
    gender: string,
    name: Name,
    location: Location,
    email: string,
    login: Login,
    dob: DatedAge,
    registered: DatedAge,
    phone: string,
    cell: string,
    id: IdDocument,
    picture: Picture,
    nationality: string)

  datatype Info = Info(seed: string, results: int, page: int, version: string)

  datatype ApiResponse = ApiResponse(results: seq<RandomUser>, info: Info)

  /** The error value a failed request is reported with. */
  datatype ApiError = ApiError(code: string, message: string, details: Option<map<string, string>>)

  datatype Gender = Male | Female

  /** `string | string[]` */
  datatype StrOrList = Str(text: string) | List(items: seq<string>)

  /** The request options; an absent property is `None`.  `nationality`
      is sent under the query key "nat". */
  datatype UserFetchParams = UserFetchParams(
    results: Option<int>,
    gender: Option<Gender>,
    nationality: Option<StrOrList>,
    seed: Option<string>,
    inc: Option<StrOrList>,
    exc: Option<StrOrList>,
    page: Option<int>)

  const NoParams: UserFetchParams := UserFetchParams(None, None, None, None, None, None, None)

  datatype UserFormatOptions = UserFormatOptions(dateFormat: Option<string>)
}
