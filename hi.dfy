/**
 * The `Hi` client: a name-gender lookup served from a cache keyed by the
 * request URL, falling back to the remote service on a miss.
 */
module HiLookup {

  import opened Wrappers
  import opened Bytes
  import opened Keys

  /** A decoded JSON value; the client passes records through without looking inside. */
  datatype Json =
    | Null
    | Bool(b: bool)
    | Number(n: int)
    | Text(s: bytes)
    | List(items: seq<Json>)
    | Object(fields: seq<(bytes, Json)>)

  /** The two fields the client reads from the decoded response object. */
  datatype Response = Response(success: bool, results: seq<Json>)

  /** What the HTTP transport does with a request: a body, or a `CurlException`. */
  datatype Transfer = Body(text: bytes) | CurlError(message: bytes)

  /** What `Json::decode` makes of a body: the response, or a `JsonException`. */
  datatype Decoding = Decoded(response: Response) | JsonError(message: bytes)

  /** The collaborators the client cannot see: the injected sender and the JSON decoder. */
  datatype Backend = Backend(send: bytes -> Transfer, decode: bytes -> Decoding)

  /** A cached answer: `FALSE` when the service found nothing, otherwise `results[0]`. */
  datatype Value = NotFound | Found(record: Json)

  /**
   * The client's `Exception`, carrying the message of the failure it replaces;
   * `NoResults` stands for a successful response with an empty `results` list.
   */
  datatype Failure = Exception(message: bytes) | NoResults

  datatype Result<T> = Ok(value: T) | Err(failure: Failure)

  /** `Hi::fetchUrl`: the response body, or the transport's message wrapped in `Exception`. */
  function FetchUrl(backend: Backend, url: bytes): (r: Result<bytes>)
    ensures r.Ok? <==> backend.send(url).Body?
    ensures r.Ok? ==> r.value == backend.send(url).text
    ensures r.Err? ==> r.failure == Exception(backend.send(url).message)
  {
    match backend.send(url)
    case Body(text) => Ok(text)
    case CurlError(message) => Err(Exception(message))
  }

  /** `Hi::parseJson`: the decoded response, or the decoder's message wrapped in `Exception`. */
  function ParseJson(backend: Backend, data: bytes): (r: Result<Response>)
    ensures r.Ok? <==> backend.decode(data).Decoded?
    ensures r.Ok? ==> r.value == backend.decode(data).response
    ensures r.Err? ==> r.failure == Exception(backend.decode(data).message)
  {
    match backend.decode(data)
    case Decoded(response) => Ok(response)
    case JsonError(message) => Err(Exception(message))
  }

  /** `$json->success ? $json->results[0] : FALSE`, with the empty list made an error. */
  function Extract(response: Response): (r: Result<Value>)
    ensures !response.success ==> r == Ok(NotFound)
    ensures response.success && response.results != [] ==> r == Ok(Found(response.results[0]))
    ensures response.success && response.results == [] ==> r == Err(NoResults)
  {
    if !response.success then Ok(NotFound)
    else if response.results == [] then Err(NoResults)
    else Ok(Found(response.results[0]))
  }

  /** The work of a miss: fetch the URL, decode the body, pick the answer. */
  function Fetch(backend: Backend, url: bytes): Result<Value>
  {
    match FetchUrl(backend, url)
    case Err(f) => Err(f)
    case Ok(data) =>
      match ParseJson(backend, data)
      case Err(f) => Err(f)
      case Ok(response) => Extract(response)
  }

  /** The answer of one lookup and the cache after it. */
  datatype Step = Step(result: Result<Value>, cache: map<bytes, Value>)

  /** `Cache::load` with the fallback of `Hi::to`: a hit is returned, a miss is fetched and stored. */
  function Load(backend: Backend, cache: map<bytes, Value>, url: bytes): Step
  {
    if url in cache then Step(Ok(cache[url]), cache)
    else
      match Fetch(backend, url)
      case Ok(v) => Step(Ok(v), cache[url := v])
      case Err(f) => Step(Err(f), cache)
  }

  /** A hit returns the stored value and leaves the cache as it was. */
  lemma LoadHit(backend: Backend, cache: map<bytes, Value>, url: bytes)
    requires url in cache
    ensures Load(backend, cache, url) == Step(Ok(cache[url]), cache)
  {
  }

  /**
   * A miss answers `results[0]` on success and `FALSE` otherwise, and stores
   * that answer under the URL and nowhere else.
   */
  lemma LoadMiss(backend: Backend, cache: map<bytes, Value>, url: bytes, body: bytes, response: Response)
    requires url !in cache
    requires backend.send(url) == Body(body) && backend.decode(body) == Decoded(response)
    requires !response.success || response.results != []
    ensures var v := if response.success then Found(response.results[0]) else NotFound;
            Load(backend, cache, url) == Step(Ok(v), cache[url := v])
  {
  }

  /**
   * A failed fetch or decode surfaces as `Exception` with the original message,
   * and the cache keeps no trace of it.
   */
  lemma LoadFailure(backend: Backend, cache: map<bytes, Value>, url: bytes)
    requires url !in cache
    ensures backend.send(url).CurlError? ==>
              Load(backend, cache, url) == Step(Err(Exception(backend.send(url).message)), cache)
    ensures backend.send(url).Body? && backend.decode(backend.send(url).text).JsonError? ==>
              Load(backend, cache, url)
              == Step(Err(Exception(backend.decode(backend.send(url).text).message)), cache)
  {
  }

  /** Storing one key changes no other entry, and no entry already present ever changes. */
  lemma LoadTouchesOnlyItsKey(backend: Backend, cache: map<bytes, Value>, url: bytes, k: bytes)
    ensures var c := Load(backend, cache, url).cache;
            && (k != url ==> (k in c <==> k in cache))
            && (k in cache ==> k in c && c[k] == cache[k])
            && (k in c && k !in cache ==> k == url && Load(backend, cache, url).result == Ok(c[k]))
  {
  }

  /**
   * Once a lookup has answered, the same lookup is a hit with the same answer,
   * `FALSE` included: the service is asked for a key at most once.
   */
  lemma LoadAgain(backend: Backend, cache: map<bytes, Value>, url: bytes)
    ensures var s := Load(backend, cache, url);
            s.result.Ok? ==> url in s.cache && Load(backend, s.cache, url) == s
  {
  }

  /** The client: a type hint, the cache, and the transport it was given. */
  class Hi {

    /** `$type`: `null`, `TYPE_NAME` or `TYPE_SURNAME`. */
    var nameType: Option<bytes>
    /** The contents of the cache storage, keyed by URL. */
    var cache: map<bytes, Value>
    const backend: Backend

    /** What the storage held when the client was created. */
    ghost const initial: map<bytes, Value>
    /** The keys this client has stored, in order. */
    ghost var saved: seq<bytes>
    /** Every URL handed to the transport, in order. */
    ghost var requests: seq<bytes>

    /**
     * Every cached key was either found at construction, with its value
     * unchanged, or stored once by this client after a request for it.
     */
    ghost predicate Valid()
      reads this
    {
      && (forall i, j | 0 <= i < j < |saved| :: saved[i] != saved[j])
      && (forall k | k in saved :: k !in initial && k in cache && k in requests)
      && (forall k | k in cache :: k in initial || k in saved)
      && (forall k | k in initial :: k in cache && cache[k] == initial[k])
    }

    constructor (stored: map<bytes, Value>, backend: Backend)
      ensures Valid()
      ensures nameType == None && cache == stored && this.backend == backend
      ensures initial == stored && saved == [] && requests == []
    {
      this.nameType := None;
      this.cache := stored;
      this.backend := backend;
      this.initial := stored;
      this.saved := [];
      this.requests := [];
    }

    method SetType(nameType: Option<bytes>)
      modifies this`nameType
      ensures this.nameType == nameType
    {
      this.nameType := nameType;
    }

    function GetType(): (t: Option<bytes>)
      reads this
      ensures t == nameType
    {
      nameType
    }

    /**
     * A lookup of `name` for `gender` answered `r`: the cache moved as `Load`
     * says for the URL of the request, and the transport was asked for that
     * URL exactly when it was not cached.
     */
    twostate predicate Answered(name: bytes, gender: Option<bytes>, new r: Result<Value>)
      reads this
    {
      var url := UrlFor(name, old(nameType), gender);
      var s := Load(backend, old(cache), url);
      && nameType == old(nameType)
      && r == s.result
      && cache == s.cache
      && requests == old(requests) + (if url in old(cache) then [] else [url])
    }

    method To(name: bytes, gender: Option<bytes>) returns (r: Result<Value>)
      requires Valid()
      modifies this`cache, this`saved, this`requests
      ensures Valid()
      ensures Answered(name, gender, r)
    {
      var url := UrlFor(name, nameType, gender);
      r := Lookup(url);
    }

    /**
     * `$this->cache->load($url, …)`: a hit answers from the cache; a miss asks
     * the transport, decodes, picks the answer and stores it.
     */
    method Lookup(url: bytes) returns (r: Result<Value>)
      requires Valid()
      modifies this`cache, this`saved, this`requests
      ensures Valid()
      ensures r == Load(backend, old(cache), url).result
      ensures cache == Load(backend, old(cache), url).cache
      ensures requests == old(requests) + (if url in old(cache) then [] else [url])
    {
      if url in cache {
        r := Ok(cache[url]);
        return;
      }
      requests := requests + [url];
      var data := FetchUrl(backend, url);
      if data.Err? {
        r := Err(data.failure);
        return;
      }
      var json := ParseJson(backend, data.value);
      if json.Err? {
        r := Err(json.failure);
        return;
      }
      r := Extract(json.value);
      if r.Ok? {
        Save(url, r.value);
      }
    }

    /** `$this->cache->save` on a miss: a new key gets its value, nothing else moves. */
    method Save(url: bytes, v: Value)
      requires Valid() && url !in cache && url in requests
      modifies this`cache, this`saved
      ensures Valid()
      ensures cache == old(cache)[url := v] && saved == old(saved) + [url]
    {
      cache := cache[url := v];
      saved := saved + [url];
    }

    method Mr(name: bytes) returns (r: Result<Value>)
      requires Valid()
      modifies this`cache, this`saved, this`requests
      ensures Valid()
      ensures Answered(name, Some(GENDER_MALE), r)
    {
      r := To(name, Some(GENDER_MALE));
    }

    method Ms(name: bytes) returns (r: Result<Value>)
      requires Valid()
      modifies this`cache, this`saved, this`requests
      ensures Valid()
      ensures Answered(name, Some(GENDER_FEMALE), r)
    {
      r := To(name, Some(GENDER_FEMALE));
    }
  }
}
