# Hi: a cached name-gender lookup client, modelled in Dafny

`ondrs\Hi\Hi` is a small PHP client for a web service that tells whether a
first name or surname is male or female. A lookup cleans up the name, builds
a request URL from the name, the client's optional type hint (`name` or
`surname`) and the requested gender, and uses that URL as the key of a
read-through cache. On a hit it answers from the cache. On a miss it fetches
the URL, decodes the JSON reply, and answers `results[0]` when the service
reports success and `FALSE` otherwise. It stores that answer, so a negative
answer is cached too. A transport or decoding failure becomes the client's
own `Exception` with the original message, and nothing is cached.

The model has six modules:

- `Wrappers`: the `Option` type, for PHP's nullable `$type` and `$gender`.
- `Bytes`: PHP strings as byte sequences, plus ASCII literals.
- `FormEncoding`: PHP's `urlencode`, with `urldecode` as its proved inverse.
- `Names`: the name clean-up `fixEncoding`, `trim`, `lower`.
- `Keys`: the cache key (the request URL), a parser that reads a key back
  into its parts, and the proofs that the key is injective and ignores
  whitespace and case in the name.
- `HiLookup`: the client class `Hi`, whose fields `nameType` and `cache`
  are updated in place. It also holds the spec function `Load`, which
  describes one cache-aside lookup as a value.

The client calls two collaborators it cannot see: the HTTP sender and the
JSON decoder. Both are parameters, as a `Backend` value given to the
constructor. The sender maps a URL to a body or a curl error. The decoder
maps a body to a decoded response or a JSON error. Two ghost logs record
what happened. `requests` lists every URL handed to the sender. `saved`
lists every key this client stored. The class invariant `Valid` says that
every cached key was either present at construction, with its value
unchanged, or was stored once by this client after a request for it. That
a stored entry is never overwritten is not part of `Valid`. It follows from
the postconditions of `Lookup` and `To`, which give the new cache as
`Load` of the old one, together with `LoadTouchesOnlyItsKey`.

The service address at `src/ondrs/Hi/Hi.php:29` has no trailing slash, so
keys read `http://hi.ondraplsek.cz?name=…` (line 102).

## Model

| member | source | states |
|---|---|---|
| FormEncoding.UrlEncode | src/ondrs/Hi/Hi.php:102 | `urlencode` output is at least as long as its input and at most three times as long, and contains only unreserved bytes, `+` and `%` |
| FormEncoding.EncodedHasNoAmpersand | src/ondrs/Hi/Hi.php:102-109 | an encoded value never contains `&`, so a parameter value cannot run into the next parameter |
| FormEncoding.DecodeEncode | src/ondrs/Hi/Hi.php:102 | `urldecode(urlencode(s)) == s` for every byte string |
| FormEncoding.EncodeInjective | src/ondrs/Hi/Hi.php:102 | two different values never encode to the same text |
| Names.FixEncoding | src/ondrs/Hi/Hi.php:98 | the UTF-8 repair, the identity on the valid input the model assumes (see "## Left out") |
| Names.Trim | src/ondrs/Hi/Hi.php:99 | `Strings::trim` on ASCII whitespace; pinned down by `TrimSplits` and `TrimOf` below |
| Names.Lower | src/ondrs/Hi/Hi.php:100 | `Strings::lower` on ASCII: same length, each byte lowered; characterised by `LowerEqualIff` below |
| Names.Normalize | src/ondrs/Hi/Hi.php:98-100 | the clean-up `lower(trim(fixEncoding(name)))`; shape, idempotence and padding and case invariance proved by `NormalizeShape`, `NormalizeIdempotent` and `NormalizeIgnoresPaddingAndCase` below |
| Names.TrimSplits | src/ondrs/Hi/Hi.php:99 | a string is its leading whitespace, then its trim, then its trailing whitespace, and the trim has no whitespace at either end |
| Names.TrimOf | src/ondrs/Hi/Hi.php:99 | any whitespace around a string with no whitespace at its ends is exactly what `trim` removes |
| Names.TrimIgnoresPadding | src/ondrs/Hi/Hi.php:99 | extra whitespace around a name never changes its trim |
| Names.LowerByteEqualIff | src/ondrs/Hi/Hi.php:100 | two bytes lower alike if and only if they are equal or are the upper- and lower-case forms of one ASCII letter |
| Names.LowerEqualIff | src/ondrs/Hi/Hi.php:100 | two names lower to the same string if and only if they differ only in ASCII letter case |
| Names.LowerTrimCommute | src/ondrs/Hi/Hi.php:99-100 | lowering creates and removes no whitespace, so trimming then lowering equals lowering then trimming |
| Names.NormalizeShape | src/ondrs/Hi/Hi.php:98-100 | a cleaned-up name has no whitespace at either end and no upper-case ASCII letter |
| Names.NormalizeIdempotent | src/ondrs/Hi/Hi.php:98-100 | cleaning up a name twice gives what cleaning it up once gives |
| Names.NormalizeIgnoresPaddingAndCase | src/ondrs/Hi/Hi.php:98-100 | names that differ only in surrounding whitespace and letter case share one cleaned-up form |
| Names.ExampleNameIsLowered | src/ondrs/Hi/Hi.php:98-100 | ` Alice ` cleans up exactly as `alice` does |
| Names.ExampleNameIsNormal | src/ondrs/Hi/Hi.php:98-100 | `alice` is already clean |
| Keys.Key | src/ondrs/Hi/Hi.php:102-110 | the URL for an already clean name; read back by `ParseKeyOfKey`, injective by `KeyInjective` |
| Keys.TypePart | src/ondrs/Hi/Hi.php:104-106 | `&type=` and the encoded type hint when there is one, else nothing; read back by `ParseOptionsOf` |
| Keys.GenderPart | src/ondrs/Hi/Hi.php:108-110 | `&gender=` and the encoded gender when one is asked for, else nothing; read back by `ParseOptionsOf` |
| Keys.UrlFor | src/ondrs/Hi/Hi.php:98-110 | the cache key `Hi::to` uses: `Key` of the cleaned-up name; its shape and invariance proved by `UrlForShape`, an instance by `ExampleUrl` |
| Keys.ParseOptionsOf | src/ondrs/Hi/Hi.php:104-109 | the optional `&type=` and `&gender=` parameters, in that order, read back into the type hint and gender they encode, absent ones included |
| Keys.ParseKeyOfKey | src/ondrs/Hi/Hi.php:102-109 | every key reads back into exactly the name, type hint and gender it was built from |
| Keys.KeyInjective | src/ondrs/Hi/Hi.php:102-109 | two lookups share a cache entry only when name, type hint and gender are all equal |
| Keys.UrlForShape | src/ondrs/Hi/Hi.php:98-102 | a key starts with the service address, `?name=` and the encoded clean name, and is the same for all spellings that differ only in surrounding whitespace or case |
| Keys.ExampleUrl | src/ondrs/Hi/Hi.php:98-109 | with type hint `name`, a female lookup of ` Alice ` uses the key `http://hi.ondraplsek.cz?name=alice&type=name&gender=female` |
| HiLookup.FetchUrl | src/ondrs/Hi/Hi.php:131-142 | a body is returned as it is, and a curl error becomes `Exception` with the transport's message |
| HiLookup.ParseJson | src/ondrs/Hi/Hi.php:149-156 | a decoded response is returned as it is, and a decoding error becomes `Exception` with the decoder's message |
| HiLookup.Extract | src/ondrs/Hi/Hi.php:117 | an unsuccessful response answers `FALSE`, and a successful one answers its first result |
| HiLookup.Fetch | src/ondrs/Hi/Hi.php:114-117 | the work of a miss: `FetchUrl`, then `ParseJson`, then `Extract`, the first failure winning; its outcomes stated by `LoadMiss` and `LoadFailure` |
| HiLookup.Load | src/ondrs/Hi/Hi.php:112-122 | the cache-aside step as a value, answer and new cache; pinned down by `LoadHit`, `LoadMiss`, `LoadFailure`, `LoadTouchesOnlyItsKey` and `LoadAgain`, and implemented by `Hi.Lookup` |
| HiLookup.LoadHit | src/ondrs/Hi/Hi.php:112 | a cached key answers its stored value, and the cache stays as it was |
| HiLookup.LoadMiss | src/ondrs/Hi/Hi.php:112-121 | a miss answers `results[0]` on success and `FALSE` otherwise, and stores that answer under the key |
| HiLookup.LoadFailure | src/ondrs/Hi/Hi.php:112-115 | a failed fetch or decode answers `Exception` with the original message, and the cache stays as it was |
| HiLookup.LoadTouchesOnlyItsKey | src/ondrs/Hi/Hi.php:119 | a lookup adds at most its own key, holding the answer it gave, and changes or removes no other entry |
| HiLookup.LoadAgain | src/ondrs/Hi/Hi.php:112-121 | after a lookup that answered, including with `FALSE`, the same lookup is a hit with the same answer, so the service is asked once per key |
| HiLookup.Hi.constructor | src/ondrs/Hi/Hi.php:42-50 | a new client has no type hint, sees the storage's current contents, and has sent no request |
| HiLookup.Hi.SetType | src/ondrs/Hi/Hi.php:56-59 | the type hint becomes the given value, `null` included, and nothing else changes |
| HiLookup.Hi.GetType | src/ondrs/Hi/Hi.php:65-68 | returns the type hint last set, which is `null` on a new client |
| HiLookup.Hi.To | src/ondrs/Hi/Hi.php:96-123 | the answer and the new cache are what `Load` gives for the key of the cleaned-up name, current type hint and gender; the sender is asked for that key exactly on a miss; the type hint and the invariant are kept |
| HiLookup.Hi.Lookup | src/ondrs/Hi/Hi.php:112-122 | the cache-aside step for one key equals `Load`, and it logs a request only on a miss |
| HiLookup.Hi.Save | src/ondrs/Hi/Hi.php:119 | a new key gets its value, no other entry changes, and the invariant is kept |
| HiLookup.Hi.Mr | src/ondrs/Hi/Hi.php:75-78 | behaves exactly as `To` with gender `male` |
| HiLookup.Hi.Ms | src/ondrs/Hi/Hi.php:85-88 | behaves exactly as `To` with gender `female` |

## Left out

- Transport: the default `CurlSender`, `Request` and `getResponse`. The sender is a function from URL to body or curl error. The service is assumed to answer the same URL the same way.
- JSON decoding (`Json::decode`): it is a function from body to response or error. Of the decoded object only `success` and `results` are modelled. JSON numbers are integers.
- Storage: the cache directory, `FileSystem::createDir` and `FileStorage`. The constructor takes the storage's current contents as a map instead of a directory. File I/O errors are not modelled.
- Nette `Cache` internals are not modelled: cache dependencies, expiry, locking, and the second save that `Cache::load` does after its fallback returns. That second save writes the same value again.
- HiLookup.LoadMiss, HiLookup.LoadAgain: Nette `Cache` treats a stored `NULL` as absent. In PHP a first result that is JSON `null` is therefore not kept, and that key is fetched again on every call. The model stores it like any other answer, so "asked once per key" holds in the model but not in PHP for such a key.
- HiLookup.LoadMiss, HiLookup.Extract: a first result that is JSON `false` is, in PHP, the same `FALSE` that means "not found". The model keeps `Found(Bool(false))` and `NotFound` apart.
- HiLookup.Extract: a successful reply with an empty `results` list gives the error `NoResults`, with nothing stored. PHP reads the missing offset as `NULL` with a notice, returns that `NULL`, and keeps nothing.
- Names.FixEncoding: the repair of invalid UTF-8 is the identity here. The model takes names as already valid.
- Names.Trim: only the ASCII whitespace bytes space, tab, line feed, carriage return, NUL and vertical tab are stripped. The Unicode no-break space that `Strings::trim` also strips is not.
- Names.Lower: only ASCII `A`–`Z` are lowered. Multibyte UTF-8 letters are unchanged, whereas `Strings::lower` lowers them.
- Concurrency: two clients sharing one cache directory are not modelled.
- Exceptions other than `CurlException` and `JsonException`, for example a PHP error from a malformed decoded object, are not modelled.
