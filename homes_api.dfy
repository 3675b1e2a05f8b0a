/** The three HTTP handlers for homes: create a home, read it back, and ask
    the advice provider about it. Each handler is a decision over what the
    store lookup and the provider return. */
module HomesApi {
  import opened Wrappers
  import opened Models
  import opened Schemas
  import opened HomeService
  import opened LlmService

  const UnprocessableEntity := 422
  const NotFound := 404
  const ServiceUnavailable := 503

  /** The `detail` of an error response. The wording of the fixed messages
      lives in `app.core.messages`, which is not part of this model, so the
      messages are named rather than spelled out. */
  datatype ErrorDetail =
    | InvalidHomeId          // the path parameter breaks `ge=1`
    | InvalidBody(fields: seq<Field>)  // the request body breaks `HomeCreate`
    | HomeNotFoundMessage    // HOME_NOT_FOUND
    | LlmUnavailableMessage  // LLM_UNAVAILABLE

  /** A response: a body with status 200, or an HTTP error. */
  datatype Response<T> = Ok(body: T) | HttpError(status: nat, detail: ErrorDetail)

  /** `AdviceResponse`: the recommendations, as a list. */
  datatype AdviceResponse = AdviceResponse(recommendations: seq<string>)

  /** What a handler asks of its collaborators, in order. */
  datatype Call = LookupHome(homeId: int) | AskProvider(home: Home)

  /** A response together with the calls made to produce it. */
  datatype Handled<T> = Handled(response: Response<T>, calls: seq<Call>)

  /** `GET /homes/{home_id}`. The path parameter must be at least 1; then
      the home with that id is returned, or 404 when there is none. */
  function GetHome(t: Table, homeId: int): (r: Response<HomeResponse>)
    requires KeyedById(t)
    ensures homeId < 1 ==> r == HttpError(UnprocessableEntity, InvalidHomeId)
    ensures homeId >= 1 && (forall k :: k in t ==> t[k].id != homeId) ==> r == HttpError(NotFound, HomeNotFoundMessage)
    ensures r.Ok? <==> homeId >= 1 && exists k :: k in t && t[k].id == homeId
    ensures r.Ok? ==> r.body.id == homeId && exists h :: h in t.Values && r.body == ToResponse(h)
  {
    if homeId < 1 then HttpError(UnprocessableEntity, InvalidHomeId)
    else
      match GetHomeById(t, homeId)
      case None => HttpError(NotFound, HomeNotFoundMessage)
      case Some(home) => Ok(ToResponse(home))
  }

  /** `POST /homes/{home_id}/advice`, with the injected provider's
      `generate_advice` as `advise`. After the path check, one lookup; a
      missing home ends the request with 404 before the provider is asked;
      otherwise the provider's list is the body, and any exception it raises
      becomes 503. */
  function GetAdvice(t: Table, homeId: int, advise: Home -> Advice): (h: Handled<AdviceResponse>)
    requires KeyedById(t)
    ensures homeId < 1 ==> h == Handled(HttpError(UnprocessableEntity, InvalidHomeId), [])
    ensures homeId >= 1 ==> |h.calls| >= 1 && h.calls[0] == LookupHome(homeId)
    ensures homeId >= 1 && (forall k :: k in t ==> t[k].id != homeId) ==>
      h == Handled(HttpError(NotFound, HomeNotFoundMessage), [LookupHome(homeId)])
    ensures homeId >= 1 && GetHomeById(t, homeId).Some? ==>
      var home := GetHomeById(t, homeId).value;
      && h.calls == [LookupHome(homeId), AskProvider(home)]
      && (advise(home).Raised? ==> h.response == HttpError(ServiceUnavailable, LlmUnavailableMessage))
      && (advise(home).Generated? ==> h.response == Ok(AdviceResponse(advise(home).recommendations)))
    ensures forall c :: c in h.calls && c.AskProvider? ==> c.home in t.Values && c.home.id == homeId
    ensures h.response.Ok? ==>
      && |h.calls| == 2 && h.calls[1].AskProvider?
      && advise(h.calls[1].home) == Generated(h.response.body.recommendations)
  {
    if homeId < 1 then Handled(HttpError(UnprocessableEntity, InvalidHomeId), [])
    else
      match GetHomeById(t, homeId)
      case None => Handled(HttpError(NotFound, HomeNotFoundMessage), [LookupHome(homeId)])
      case Some(home) =>
        var calls := [LookupHome(homeId), AskProvider(home)];
        match advise(home)
        case Raised => Handled(HttpError(ServiceUnavailable, LlmUnavailableMessage), calls)
        case Generated(recommendations) => Handled(Ok(AdviceResponse(recommendations)), calls)
  }

  /** The request makes exactly one lookup, whatever happens after it. */
  lemma AdviceLooksUpOnce(t: Table, homeId: int, advise: Home -> Advice)
    requires KeyedById(t) && homeId >= 1
    ensures var calls := GetAdvice(t, homeId, advise).calls;
      |set i | 0 <= i < |calls| && calls[i].LookupHome?| == 1
  {
    var calls := GetAdvice(t, homeId, advise).calls;
    assert (set i | 0 <= i < |calls| && calls[i].LookupHome?) == {0};
  }

  /** The response is 503 exactly when the provider was asked and raised. */
  lemma AdviceUnavailableIff(t: Table, homeId: int, advise: Home -> Advice)
    requires KeyedById(t)
    ensures var h := GetAdvice(t, homeId, advise);
      h.response == HttpError(ServiceUnavailable, LlmUnavailableMessage) <==>
        |h.calls| == 2 && h.calls[1].AskProvider? && advise(h.calls[1].home).Raised?
  {
  }

  /** The provider of a deployment: `get_llm_provider`'s choice, asked
      through the backend call `complete`. */
  function Advise(provider: Provider, complete: (string, string) -> Completion): Home -> Advice
  {
    home => GenerateAdvice(provider, home, complete)
  }

  /** A successful advice response is never an empty list, whichever
      provider answers. */
  lemma AdviceNeverEmpty(t: Table, homeId: int, provider: Provider, complete: (string, string) -> Completion)
    requires KeyedById(t)
    requires GetAdvice(t, homeId, Advise(provider, complete)).response.Ok?
    ensures |GetAdvice(t, homeId, Advise(provider, complete)).response.body.recommendations| >= 1
  {
    var h := GetAdvice(t, homeId, Advise(provider, complete));
    var home := h.calls[1].home;
    assert Advise(provider, complete)(home) == GenerateAdvice(provider, home, complete);
  }

  /** With the fixed provider, advice on an existing home is the five fixed
      recommendations, and it never fails. */
  lemma MockAdviceForExistingHome(t: Table, homeId: int, complete: (string, string) -> Completion)
    requires KeyedById(t) && homeId in t
    ensures GetAdvice(t, homeId, Advise(MockProvider, complete)).response == Ok(AdviceResponse(MockRecommendations))
  {
    assert Advise(MockProvider, complete)(t[homeId]) == GenerateAdvice(MockProvider, t[homeId], complete);
  }

  /** `POST /homes`. A body that breaks `HomeCreate` is refused with 422 and
      the store is untouched; otherwise the home is created and returned. */
  method CreateHomeEndpoint(store: HomeStore, body: Payload, now: Timestamp) returns (r: Response<HomeResponse>)
    requires store.Valid()
    modifies store
    ensures store.Valid()
    ensures Validate(body).Failure? ==>
      && r == HttpError(UnprocessableEntity, InvalidBody(Validate(body).error))
      && store.rows == old(store.rows) && store.history == old(store.history)
    ensures Validate(body).Success? ==>
      && store.history == old(store.history) + [Creation(Validate(body).value, now)]
      && r.Ok? && r.body.id == old(store.lastId) + 1 && r.body.id !in old(store.rows)
      && Describes(r.body, Validate(body).value)
      && store.rows == old(store.rows)[r.body.id := store.rows[r.body.id]]
      && GetHome(store.rows, r.body.id) == r
  {
    match Validate(body)
    case Failure(fields) =>
      r := HttpError(UnprocessableEntity, InvalidBody(fields));
    case Success(data) =>
      var home := store.CreateHome(data, now);
      r := Ok(ToResponse(home));
  }

  /** Creating a home on a fresh store and then reading it back returns the
      same record, under id 1; an id never handed out is not found. */
  method CreateThenFetch(body: Payload, now: Timestamp, otherId: int)
    returns (created: Response<HomeResponse>, fetched: Response<HomeResponse>, missing: Response<HomeResponse>)
    requires Validate(body).Success?
    requires otherId > 1
    ensures created.Ok? && created.body.id == 1
    ensures Describes(created.body, Validate(body).value)
    ensures fetched == created
    ensures missing == HttpError(NotFound, HomeNotFoundMessage)
  {
    var store := new HomeStore();
    created := CreateHomeEndpoint(store, body, now);
    fetched := GetHome(store.rows, created.body.id);
    LookupAfterCreations(store.history, otherId);
    missing := GetHome(store.rows, otherId);
  }

  /** The example of creating a home: size 120, built 1995, gas heating,
      partial insulation and a note come back as sent. */
  lemma CreateExample()
    ensures var body := Payload(Some(120), Some(1995), Some("GAS"), Some("PARTIAL"), Some("Single family"));
      Validate(body) == Success(HomeCreate(120, Some(1995), GAS, Some(PARTIAL), Some("Single family")))
  {
  }

  /** The path parameter 0 is refused before any lookup. */
  lemma InvalidIdExample(t: Table, advise: Home -> Advice)
    requires KeyedById(t)
    ensures GetHome(t, 0).HttpError? && GetHome(t, 0).status == 422
    ensures GetAdvice(t, 0, advise).response.HttpError?
    ensures GetAdvice(t, 0, advise).response.status == 422
    ensures GetAdvice(t, 0, advise).calls == []
  {
  }
}
