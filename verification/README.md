# Booru provider adapters, modelled in Dafny

This project models the two booru image-source adapters of koishi-plugin-booru:
the Gelbooru source (`packages/core/src/sources/gelbooru/index.ts`) and the
Danbooru source (`packages/danbooru/src/index.ts`). Each adapter is split
into pure translation functions with the HTTP call cut out:

- **Request side.** A query (tag list and count) plus the adapter configuration
  becomes a request. For Gelbooru that is a literal URL string, with an optional
  credential (key pair) drawn from a pool and appended verbatim. For Danbooru it
  is a URL plus an ordered parameter list.
- **Response side.** The decoded payload is checked for shape, and native post
  records are mapped to the canonical result `{url, pageUrl, author, tags, nsfw}`.
  Tags and authors are de-underscored and the rating is classified.

Files:

- `wrappers.dfy`: `Option` (`None` is JavaScript's `undefined`) and `Attempt` (a value, or the error thrown instead).
- `strings.dfy`: `ReplaceAll`, `Split`, `Join`, `TrimSlash`. They follow JavaScript's
  `replace(/c/g, t)`, `split(c)` and `join(sep)`: `"".split(' ')` is `[""]` and `[].join(sep)` is `""`.
  The file also holds the split/join/replace lemmas the adapters' proofs rest on.
- `decimal.dfy`: how a number prints in a URL (`${n}`), and reading it back.
- `image_source.dfy`: `Query`, the canonical `Result`, parameter values, and the author and
  tag normalisation that both adapters apply in the same way.
- `gelbooru.dfy`, `danbooru.dfy`: the two adapters.

The transport is a function parameter `fetch` of each adapter's `Get`, so
every property holds for whatever decoded payload it returns, within the payload
shapes the model has (see "## Left out" for `null` bodies and records).

Points where the code may surprise a reader:

- Gelbooru's tags are not URL-encoded. The code only joins them with `'+'`
  (`packages/core/src/sources/gelbooru/index.ts:21`), and the model does the same. A tag holding
  `'&'` ends up inside the query string unchanged, so `Gelbooru.QueryStringSplits` assumes no such tag.
  Only the key pair is documented as already encoded (`index.ts:37`).
- A malformed Gelbooru payload is not signalled as an error. `get` returns `undefined`,
  modelled as `None`, which is distinct from `Some([])` for an empty post list.
- Danbooru's configuration requires a login and API key (`packages/danbooru/src/index.ts:18-19`),
  but the code never sends them. `Danbooru.BuildRequest` sends only `tags`, `random` and `limit`.
- Danbooru does not guard an empty array. Reading the first post of `[]` throws, modelled as
  the failure `UndefinedPost`, which is distinct from the `SessionError` for a non-array body.

## Model

| member | source | states |
|---|---|---|
| Gelbooru.PickIndex | packages/core/src/sources/gelbooru/index.ts:15 | `floor(random * n)` lands in `[0, n)` for every draw in `[0, 1)` and every non-empty pool |
| Gelbooru.KeyPair | packages/core/src/sources/gelbooru/index.ts:13-16 | an empty pool gives no key pair; otherwise the pick is `keyPairs[i]` for some index `i` in range |
| Gelbooru.KeyPairReachesEveryEntry | packages/core/src/sources/gelbooru/index.ts:15 | every entry of the pool is drawn by some random value, so no entry is unreachable |
| Gelbooru.TagsParamSplits | packages/core/src/sources/gelbooru/index.ts:21 | when no tag contains `'+'`, the `tags` parameter split at `'+'` gives back the query tags then `sort:random`; an empty list gives `"+sort:random"` |
| Gelbooru.UrlLayout | packages/core/src/sources/gelbooru/index.ts:20-39 | the URL is the trimmed endpoint, `'?'`, the entries `tags=…`, `page=dapi`, `s=post`, `q=index`, `json=1`, `limit=<count>` in that order joined by `'&'`, then the key pair |
| Gelbooru.QueryStringSplits | packages/core/src/sources/gelbooru/index.ts:28-33 | when no tag contains `'&'`, splitting the query string at `'&'` recovers exactly the six `key=value` entries in order |
| Gelbooru.UrlEndsWithLimit | packages/core/src/sources/gelbooru/index.ts:26-33 | without a key pair the URL ends with `&limit=<count>` |
| Gelbooru.KeyPairAppended | packages/core/src/sources/gelbooru/index.ts:35-39 | a key pair is appended to the unauthenticated URL verbatim, with no separator or encoding |
| Gelbooru.RequestUrlCredential | packages/core/src/sources/gelbooru/index.ts:13-16 | the requested URL carries nothing after the parameters for an empty pool, and exactly one pool member otherwise |
| Gelbooru.IsNsfw | packages/core/src/sources/gelbooru/index.ts:53 | a rating is not-safe exactly when it is `"explicit"` or `"questionable"` |
| Gelbooru.ParseResponse | packages/core/src/sources/gelbooru/index.ts:43-55 | a non-array `post` field gives no value (not an error); an array gives one result per post, so an empty array gives an empty list |
| Gelbooru.ResultsDescribePosts | packages/core/src/sources/gelbooru/index.ts:47-54 | result `k` copies `file_url` and `source` of post `k`; its author is the owner's space-separated names de-underscored and joined by `", "`; its tags are `'_'`-free, one per space-separated piece, and give back the native tag string; `nsfw` is the classified rating |
| Gelbooru.Get | packages/core/src/sources/gelbooru/index.ts:41-55 | the adapter answers `undefined` exactly when the fetched payload's `post` is not an array, and otherwise one result per fetched post |
| ImageSource.NormalizeAuthor | packages/core/src/sources/gelbooru/index.ts:51 | the normalised author has no `'_'` and is one character longer per space of the raw field |
| ImageSource.AuthorIsArtistList | packages/danbooru/src/index.ts:45 | the author is the space-separated artist names, each de-underscored, joined by `", "` (used by both adapters, Gelbooru line 51 too) |
| ImageSource.AuthorExample | packages/core/src/sources/gelbooru/index.ts:51 | `"artist_one artist_two"` becomes `"artist one, artist two"` |
| ImageSource.AuthorShortExample | packages/danbooru/src/index.ts:45 | `"a_b c_d"` becomes `"a b, c d"` |
| ImageSource.NormalizeTags | packages/core/src/sources/gelbooru/index.ts:52 | there are as many tags as spaces plus one, and no tag contains `'_'` |
| ImageSource.TagsRoundTrip | packages/danbooru/src/index.ts:46 | re-underscoring the normalised tags and joining with `' '` rebuilds the native tag string, so no separator is lost or invented |
| ImageSource.TagsExample | packages/core/src/sources/gelbooru/index.ts:52 | `"blue_hair cat_ears"` becomes `["blue hair", "cat ears"]` |
| Decimal.ToNatFromNat | packages/core/src/sources/gelbooru/index.ts:26-32 | the printed `limit` value reads back as the requested count |
| Danbooru.EncodeTag | packages/danbooru/src/index.ts:32 | an encoded query tag is the tag's space-separated pieces joined by `'_'`: every `' '` becomes `'_'` and every other character, `'_'` included, is kept; the length is unchanged |
| Danbooru.BuildRequest | packages/danbooru/src/index.ts:31-35 | the request goes to `<endpoint>/posts.json` with exactly `tags`, `random=true`, `limit=1`, and no `login`/`apiKey` parameter |
| Danbooru.RequestIgnoresCountAndCredentials | packages/danbooru/src/index.ts:31-35 | the request depends only on the endpoint and the query tags, not on the count, the login or the API key |
| Danbooru.TagsParamSplits | packages/danbooru/src/index.ts:32 | for a non-empty query, splitting the `tags` parameter at `' '` gives exactly the encoded query tags |
| Danbooru.TagRoundTrip | packages/danbooru/src/index.ts:32 | decoding the encoded form of a tag without `'_'` gives the tag back |
| Danbooru.QueryTagsRoundTrip | packages/danbooru/src/index.ts:32-46 | a post whose tag string is the `tags` parameter sent normalises back to the query tags (non-empty query, no `'_'`) |
| Danbooru.IsNsfw | packages/danbooru/src/index.ts:47 | the `e`/`q` comparison agrees with classifying against the table `["e", "q"]` |
| Danbooru.RatingCodes | packages/danbooru/src/index.ts:47 | a one-letter code is not-safe exactly when it is `e` or `q`; Gelbooru's long-form words count as safe here |
| Danbooru.ParseResponse | packages/danbooru/src/index.ts:37-48 | a non-array body fails with `SessionError('commands.booru.message.no-response')`; an empty array fails on the missing post; otherwise the result comes from post 0 |
| Danbooru.FirstPostOnly | packages/danbooru/src/index.ts:41 | only the first post determines the outcome |
| Danbooru.ResultDescribesFirstPost | packages/danbooru/src/index.ts:41-48 | on a non-empty array the result copies `file_url` and `source` of post 0; its author is the artist names de-underscored and joined by `", "`; its tags are `'_'`-free, one per space-separated piece, and give back the native tag string; `nsfw` holds exactly for `e`/`q` |
| Danbooru.Get | packages/danbooru/src/index.ts:30-49 | the adapter fails exactly when the fetched body is not an array or is empty |

## Left out

- HTTP transport (`this.http.get`, `ctx.http.axios`): network I/O, including how the client serialises Danbooru's parameter list. The decoded payload is the result of the `fetch` parameter instead.
- Fields of a post that are missing or not strings: the records are modelled with string fields only.
- Schema and config declarations, plugin registration (`apply`, `ctx.booru.register`), and the `languages`/`source` metadata: library glue with no behaviour.
- The `ImageSource` base class and weighted label-based source selection: `packages/core/src/source.ts` is not part of this model.
- `Math.random`: floating point. A draw is an exact fraction `num/den` in `[0, 1)`, so double rounding in `Math.random() * n` is not modelled.
- Gelbooru.KeyPair: uniformity of the pick is not stated, because the model has no probability. The model states that every entry is reachable (`Gelbooru.KeyPairReachesEveryEntry`) instead.
- `trimSlash` is koishi's helper and its source is not part of this model. It is assumed to remove a single trailing `'/'`.
- `query.count` is a natural number. Negative, fractional or missing counts, and how JavaScript prints them, are not modelled.
- Decimal.FromNat: agrees with JavaScript's printing of `limit=${query.count}` only below 2^53. JavaScript rounds larger integers and prints 10^21 and above as `1e+21`; such counts are not modelled.
- Gelbooru.ParseResponse: a `null` body, a `null` record inside `post`, or a non-string `owner`/`tags` throws a TypeError in the source (`data.post` at line 43, the record at lines 49-52). A missing or non-string `file_url`/`source`/`rating` is passed through or compared without throwing (lines 49, 50, 53). Here the payload is always an object and every record field is a string.
- Danbooru.ParseResponse: a `null` first record, or a non-string `tag_string_artist`/`tag_string` (lines 45-46), throws in the source. A missing or non-string `file_url`/`source`/`rating` is passed through or compared without throwing (lines 43, 44, 47), for example `url: undefined`; such records cannot be represented here, where every field is a string.
