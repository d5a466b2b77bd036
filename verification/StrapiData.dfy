/**
 * `getStrapiData`: a GET of a content collection, returning the decoded page or raising
 * one of four messages that say how the call failed.
 */
module StrapiData {
  import opened Wrappers
  import opened Decimal
  import opened Http

  datatype AuthorAttributes = AuthorAttributes(
    authorId: string, name: string, createdAt: string, updatedAt: string, publishedAt: string)

  datatype Author = Author(id: int, attributes: AuthorAttributes)

  datatype CourseAttributes = CourseAttributes(
    courseId: string, title: string, description: string, creationDate: string,
    duration: int, slug: string, createdAt: string, updatedAt: string, publishedAt: string,
    authors: CourseAuthorRelation)

  /** The authors nested in a course, under their own `data` field. */
  datatype CourseAuthorRelation = CourseAuthorRelation(data: seq<Author>)

  datatype Course = Course(id: int, attributes: CourseAttributes)

  datatype Pagination = Pagination(page: int, pageSize: int, pageCount: int, total: int)

  /** The metadata of a page, holding its pagination. */
  datatype Meta = Meta(pagination: Pagination)

  /** A page of a collection: its items and the pagination metadata. */
  datatype StrapiApiResponse = StrapiApiResponse(data: seq<Course>, meta: Meta)

  const FetchPrefix: string := "Error fetching data: "
  const NoResponseMessage: string := "No response received"
  const SetupPrefix: string := "Error setting up request: "
  const UnexpectedMessage: string := "An unexpected error occurred"

  /** The request for the resource path `url`. */
  function DataRequest(url: string): (req: Request)
    ensures req.Get? && req.headers == map[]
    ensures |req.url| == |ApiBase| + |url| && req.url[..|ApiBase|] == ApiBase && req.url[|ApiBase|..] == url
  {
    Get(ApiBase + url, map[])
  }

  /** `getStrapiData(url)` against `server`. */
  function GetStrapiData(url: string, server: Server<StrapiApiResponse>): (r: Result<StrapiApiResponse, Thrown>)
    ensures r.Ok? <==> server(DataRequest(url)).Success?
    ensures r.Ok? ==> r.value == server(DataRequest(url)).data
    ensures r.Err? ==> r.error.Error?
    ensures var o := server(DataRequest(url));
      && (o.Response? ==> r == Err(Error(FetchPrefix + NatToString(o.status))))
      && (o.NoResponse? ==> r == Err(Error(NoResponseMessage)))
      && (o.SetupFailed? ==> r == Err(Error(SetupPrefix + o.message)))
      && (o.NonAxios? ==> r == Err(Error(UnexpectedMessage)))
  {
    var o := server(DataRequest(url));
    if o.Success? then Ok(o.data) else Err(Error(MessageOf(Classify(o))))
  }

  /** The failure taxonomy of a content fetch. */
  datatype FetchError =
    | ServerRejected(status: nat)
    | Unreachable
    | RequestSetupFailed(message: string)
    | Unexpected

  /** The taxonomy class of a failed outcome. */
  function Classify<T>(o: Outcome<T>): FetchError
    requires !o.Success?
  {
    match o
    case Response(status, _) => ServerRejected(status)
    case NoResponse => Unreachable
    case SetupFailed(message) => RequestSetupFailed(message)
    case NonAxios => Unexpected
  }

  function StartsWith(s: string, prefix: string): bool {
    |prefix| <= |s| && s[..|prefix|] == prefix
  }

  /**
   * Recovers the failure class, with its status code or setup message, from a raised message.
   * The status must be written as `toString` writes it (no leading zero), so each message
   * reads back to at most one class and each class to exactly one message.
   */
  function ReadFetchError(message: string): Option<FetchError> {
    if message == NoResponseMessage then Some(Unreachable)
    else if message == UnexpectedMessage then Some(Unexpected)
    else if StartsWith(message, FetchPrefix) then
      var text := message[|FetchPrefix|..];
      match ParseNat(text)
      case Some(status) => if NatToString(status) == text then Some(ServerRejected(status)) else None
      case None => None
    else if StartsWith(message, SetupPrefix) then Some(RequestSetupFailed(message[|SetupPrefix|..]))
    else None
  }

  lemma PrefixOf(prefix: string, rest: string)
    ensures StartsWith(prefix + rest, prefix) && (prefix + rest)[|prefix|..] == rest
  {
    assert (prefix + rest)[..|prefix|] == prefix;
  }

  /**
   * Every failure raises exactly one of the four messages, and the message tells the
   * failure class apart, down to the status code or the setup message: reading it back
   * gives the class of the outcome.
   */
  lemma GetStrapiDataClassifies(url: string, server: Server<StrapiApiResponse>)
    requires !server(DataRequest(url)).Success?
    ensures GetStrapiData(url, server).Err?
    ensures ReadFetchError(GetStrapiData(url, server).error.message) == Some(Classify(server(DataRequest(url))))
    ensures GetStrapiData(url, server).error == Error(MessageOf(Classify(server(DataRequest(url)))))
  {
    var o := server(DataRequest(url));
    var m := GetStrapiData(url, server).error.message;
    match o
    case Response(status, _) =>
      PrefixOf(FetchPrefix, NatToString(status));
      NatToStringRoundTrip(status);
      assert m[0] == 'E' && m != NoResponseMessage && m != UnexpectedMessage;
    case NoResponse =>
    case SetupFailed(message) =>
      PrefixOf(SetupPrefix, message);
      assert m[0] == 'E' && m != NoResponseMessage && m != UnexpectedMessage;
      assert m[6] == 's' && !StartsWith(m, FetchPrefix);
    case NonAxios =>
  }

  /** The message each failure class is raised with. */
  function MessageOf(e: FetchError): string {
    match e
    case ServerRejected(status) => FetchPrefix + NatToString(status)
    case Unreachable => NoResponseMessage
    case RequestSetupFailed(message) => SetupPrefix + message
    case Unexpected => UnexpectedMessage
  }

  /**
   * Reading is exact: a message that reads back as a class is that class's message, so
   * a padded status such as "Error fetching data: 0404" reads back as nothing.
   */
  lemma ReadFetchErrorExact(message: string, e: FetchError)
    requires ReadFetchError(message) == Some(e)
    ensures message == MessageOf(e)
  {
    if e.ServerRejected? {
      assert message == message[..|FetchPrefix|] + message[|FetchPrefix|..];
    } else if e.RequestSetupFailed? {
      assert message == message[..|SetupPrefix|] + message[|SetupPrefix|..];
    }
  }

  lemma PaddedStatusNotRead()
    ensures ReadFetchError(FetchPrefix + "0404") == None
  {
    var m := FetchPrefix + "0404";
    if ReadFetchError(m).Some? {
      ReadFetchErrorExact(m, ReadFetchError(m).value);
      assert m[|FetchPrefix|] == '0';
    }
  }

  /** Two failures with the same raised message are of the same class. */
  lemma FetchMessagesDistinguish(url: string, s1: Server<StrapiApiResponse>, s2: Server<StrapiApiResponse>)
    requires !s1(DataRequest(url)).Success? && !s2(DataRequest(url)).Success?
    requires GetStrapiData(url, s1) == GetStrapiData(url, s2)
    ensures Classify(s1(DataRequest(url))) == Classify(s2(DataRequest(url)))
  {
    GetStrapiDataClassifies(url, s1);
    GetStrapiDataClassifies(url, s2);
  }
}
