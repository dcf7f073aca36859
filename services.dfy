/** The shortening service: it validates its input, builds the record and
    delegates to the repository, propagating every error unchanged and never
    retrying. The URL parser and the random code generator are inputs: the
    parser as a function, the generated code as a string. */
module Services {
  import opened Wrappers
  import OriginalUrls
  import ShortCodes
  import opened ShortenedUrls
  import opened Ports
  import opened InMemory

  /** The length of every generated short code. */
  const DefaultShortCodeLength: nat := 8

  /** Whichever error a step of the service raised, unchanged. */
  datatype ServiceError =
    | UrlFailed(urlError: OriginalUrls.UrlError)
    | CodeFailed(codeError: ShortCodes.ShortCodeError)
    | CreateFailed(createError: CreateUrlError)
    | GetFailed(getError: GetByCodeError)

  /** `shorten_url` on a table, given the parser and the generated code. */
  function Shorten(store: Store, parse: OriginalUrls.UrlParser, url: string, generated: string)
    : (s: Step<Result<ShortenedUrl, ServiceError>>)
    // An unparsable URL fails with the parser's error before the table is consulted.
    ensures parse(url).Failure? ==>
      s == Step(store, Failure(UrlFailed(OriginalUrls.ParseError(parse(url).error))))
    // A code of the generator's length is always accepted as a short code.
    ensures |generated| == DefaultShortCodeLength ==> !(s.result.Failure? && s.result.error.CodeFailed?)
    // Success: the parsed URL paired with the generated code, now stored under that code.
    ensures s.result.Success? <==> parse(url).Success? && generated != "" && generated !in store
    ensures s.result.Success? ==>
      && s.result.value == ShortenedUrl(OriginalUrls.OriginalUrl(parse(url).value), ShortCodes.ShortCode(generated))
      && s.store == store[generated := s.result.value]
    // A collision surfaces as `AlreadyExists`; nothing is retried and nothing changes.
    ensures parse(url).Success? && generated != "" && generated in store ==>
      s == Step(store, Failure(CreateFailed(AlreadyExists)))
    ensures s.result.Failure? ==> s.store == store
  {
    match OriginalUrls.New(parse, url)
    case Failure(e) => Step(store, Failure(UrlFailed(e)))
    case Success(u) =>
      match ShortCodes.New(generated)
      case Failure(e) => Step(store, Failure(CodeFailed(e)))
      case Success(c) =>
        var created := CreateRecord(store, ShortenedUrls.New(u, c));
        match created.result
        case Success(v) => Step(created.store, Success(v))
        case Failure(e) => Step(created.store, Failure(CreateFailed(e)))
  }

  /** `get_by_code` on a table: the empty code is refused before the table is
      consulted; any other code gets the repository's answer unchanged. */
  function Resolve(store: Store, code: string): (r: Result<ShortenedUrl, ServiceError>)
    ensures code == "" ==> r == Failure(CodeFailed(ShortCodes.NoEmptyString))
    ensures code != "" ==> (r.Success? <==> code in store)
    ensures code != "" && r.Success? ==> r.value == store[code]
    ensures code != "" && r.Failure? ==> r == Failure(GetFailed(NotFound))
    ensures r.Success? && KeysMatch(store) ==> r.value.shortCode.value == code
  {
    match ShortCodes.New(code)
    case Failure(e) => Failure(CodeFailed(e))
    case Success(c) =>
      match FindByCode(store, c)
      case Success(v) => Success(v)
      case Failure(e) => Failure(GetFailed(e))
  }

  /** Shortening then resolving the generated code gives back the record,
      whose URL is the parser's serialization of the input. */
  lemma ShortenThenResolve(store: Store, parse: OriginalUrls.UrlParser, url: string, generated: string)
    requires Shorten(store, parse, url, generated).result.Success?
    ensures var s := Shorten(store, parse, url, generated);
      && Resolve(s.store, generated) == s.result
      && OriginalUrls.Display(s.result.value.originalUrl) == parse(url).value
  {
  }

  /** Two shortenings that draw the same code: the second fails with
      `AlreadyExists` and the first record is still the one resolved. */
  lemma CollisionKeepsFirst(store: Store, parse: OriginalUrls.UrlParser, url1: string, url2: string, generated: string)
    requires Shorten(store, parse, url1, generated).result.Success?
    requires parse(url2).Success?
    ensures var first := Shorten(store, parse, url1, generated);
      var second := Shorten(first.store, parse, url2, generated);
      && second.result == Failure(CreateFailed(AlreadyExists))
      && Resolve(second.store, generated) == first.result
  {
  }

  /** The service object. Its only state is the repository it was given. */
  class Service {
    const repo: InMemoryStorage

    /** `Service::new`. */
    constructor (repo: InMemoryStorage)
      ensures this.repo == repo
    {
      this.repo := repo;
    }

    /** `shorten_url`: parse, make the code, build the record, create it. */
    method ShortenUrl(parse: OriginalUrls.UrlParser, url: string, generated: string)
      returns (res: Result<ShortenedUrl, ServiceError>)
      requires repo.Valid()
      modifies repo
      ensures repo.Valid()
      ensures Step(repo.store, res) == Shorten(old(repo.store), parse, url, generated)
    {
      var originalUrl := OriginalUrls.New(parse, url);
      if originalUrl.Failure? {
        return Failure(UrlFailed(originalUrl.error));
      }
      var shortCode := ShortCodes.New(generated);
      if shortCode.Failure? {
        return Failure(CodeFailed(shortCode.error));
      }
      var shortenedUrl := ShortenedUrls.New(originalUrl.value, shortCode.value);
      var created := repo.Create(shortenedUrl);
      match created
      case Success(v) => res := Success(v);
      case Failure(e) => res := Failure(CreateFailed(e));
    }

    /** `get_by_code`: validate the code, then ask the repository. */
    method GetByCode(code: string) returns (res: Result<ShortenedUrl, ServiceError>)
      requires repo.Valid()
      ensures res == Resolve(repo.store, code)
    {
      var shortCode := ShortCodes.New(code);
      if shortCode.Failure? {
        return Failure(CodeFailed(shortCode.error));
      }
      var found := repo.GetByCode(shortCode.value);
      match found
      case Success(v) => res := Success(v);
      case Failure(e) => res := Failure(GetFailed(e));
    }
  }

  /** Two lookups in a row, with no write between them, agree. */
  method ResolveTwice(service: Service, code: string)
    returns (a: Result<ShortenedUrl, ServiceError>, b: Result<ShortenedUrl, ServiceError>)
    requires service.repo.Valid()
    ensures a == b
  {
    a := service.GetByCode(code);
    b := service.GetByCode(code);
  }

  /** On a fresh in-memory service, shortening two URLs with a forced common
      code: the first succeeds and resolves to its URL, the second fails with
      `AlreadyExists`, and the first record survives. */
  method ForcedCollision(parse: OriginalUrls.UrlParser, url1: string, url2: string, code: string)
    returns (first: Result<ShortenedUrl, ServiceError>, second: Result<ShortenedUrl, ServiceError>,
             found: Result<ShortenedUrl, ServiceError>)
    requires parse(url1).Success? && parse(url2).Success? && code != ""
    ensures first.Success? && OriginalUrls.Display(first.value.originalUrl) == parse(url1).value
    ensures second == Failure(CreateFailed(AlreadyExists))
    ensures found == first
  {
    var repo := new InMemoryStorage();
    var service := new Service(repo);
    first := service.ShortenUrl(parse, url1, code);
    second := service.ShortenUrl(parse, url2, code);
    found := service.GetByCode(code);
  }
}
