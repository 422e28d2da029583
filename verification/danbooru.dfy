/**
 The Danbooru adapter (packages/danbooru/src/index.ts): the request to
 `posts.json` for a query, and the mapping of the decoded body's first post
 to one canonical result. The HTTP call in between is the `fetch`
 parameter of `Get`.
 */
module Danbooru {
  import opened Wrappers
  import opened Strings
  import opened ImageSource

  /** Adapter configuration. The login and API key are configured but never sent. */
  datatype Config = Config(endpoint: String, login: String, apiKey: String)

  /** An HTTP GET to `url` with query parameters, in the order given. */
  datatype Request = Request(url: String, params: seq<(String, ParamValue)>)

  /** One native post record of `posts.json`. */
  datatype Post = Post(fileUrl: String, source: String, tagStringArtist: String, tagString: String, rating: String)

  /** The decoded response body: an array of posts, or anything else. */
  datatype Body = Posts(posts: seq<Post>) | NotArray

  /**
   What `get` throws instead of returning: the `SessionError` raised for a
   non-array body (carrying its message key), or the `TypeError` raised
   when the first post of an empty array is read.
   */
  datatype Error = SessionError(key: String) | UndefinedPost

  const NoResponseKey: String := "commands.booru.message.no-response"

  /** Rating codes Danbooru reports for not-safe posts. */
  const NsfwRatings: seq<String> := ["e", "q"]

  // ---------------------------------------------------------------------
  // Request side
  // ---------------------------------------------------------------------

  /** Multi-word tags use '_' between words on the wire. */
  function EncodeTag(t: String): (r: String)
    ensures ' ' !in r
    ensures |r| == |t|
    ensures r == Join(Split(t, ' '), "_")
  {
    ReplaceAllIsSplitJoin(t, ' ', "_");
    ReplaceAll(t, ' ', "_")
  }

  /** `tags.map(EncodeTag)`. */
  function EncodeTags(tags: seq<String>): seq<String>
  {
    seq(|tags|, k requires 0 <= k < |tags| => EncodeTag(tags[k]))
  }

  /** The `tags` parameter: the encoded query tags joined by one ' '. */
  function TagsParam(tags: seq<String>): String
  {
    Join(EncodeTags(tags), " ")
  }

  /** The request for a query; the query's count and the credentials do not enter it. */
  function BuildRequest(cfg: Config, q: Query): (req: Request)
    ensures req.url == TrimSlash(cfg.endpoint) + "/posts.json"
    ensures |req.params| == 3
    ensures req.params[0] == ("tags", Text(TagsParam(q.tags)))
    ensures req.params[1] == ("random", Flag(true)) && req.params[2] == ("limit", Number(1))
    ensures forall k :: 0 <= k < |req.params| ==> req.params[k].0 !in {"login", "apiKey", "api_key"}
  {
    Request(
      TrimSlash(cfg.endpoint) + "/posts.json",
      [("tags", Text(TagsParam(q.tags))), ("random", Flag(true)), ("limit", Number(1))])
  }

  // ---------------------------------------------------------------------
  // Response side
  // ---------------------------------------------------------------------

  /** `rating === 'e' || rating === 'q'`. */
  function IsNsfw(rating: String): (nsfw: bool)
    ensures nsfw <==> Classify(NsfwRatings, rating)
  {
    rating == "e" || rating == "q"
  }

  function ToResult(post: Post): Result
  {
    Result(post.fileUrl, post.source, NormalizeAuthor(post.tagStringArtist), NormalizeTags(post.tagString), IsNsfw(post.rating))
  }

  /**
   The payload check and mapping: a non-array body throws the session
   error, an empty array fails on the missing first post, otherwise the
   first post alone becomes the result.
   */
  function ParseResponse(body: Body): (r: Attempt<Result, Error>)
    ensures body.NotArray? <==> r == Failure(SessionError(NoResponseKey))
    ensures body == Posts([]) <==> r == Failure(UndefinedPost)
    ensures r.Success? ==> body.Posts? && |body.posts| > 0 && r.value.url == body.posts[0].fileUrl
  {
    match body
    case NotArray => Failure(SessionError(NoResponseKey))
    case Posts(posts) =>
      if |posts| == 0 then Failure(UndefinedPost) else Success(ToResult(posts[0]))
  }

  /** `get`: build the request, hand it to the transport, parse what comes back. */
  function Get(cfg: Config, q: Query, fetch: Request -> Body): (r: Attempt<Result, Error>)
    ensures r.Failure? <==> fetch(BuildRequest(cfg, q)).NotArray? || fetch(BuildRequest(cfg, q)) == Posts([])
  {
    ParseResponse(fetch(BuildRequest(cfg, q)))
  }

  // ---------------------------------------------------------------------
  // Lemmas
  // ---------------------------------------------------------------------

  /**
   The request is fixed by the endpoint and the query tags alone: the
   requested count, the login and the API key make no difference.
   */
  lemma {:induction false} RequestIgnoresCountAndCredentials(c1: Config, c2: Config, q1: Query, q2: Query)
    requires c1.endpoint == c2.endpoint && q1.tags == q2.tags
    ensures BuildRequest(c1, q1) == BuildRequest(c2, q2)
  {
  }

  /**
   For a non-empty query, splitting the `tags` parameter at ' ' recovers
   exactly one encoded tag per query tag.
   */
  lemma {:induction false} TagsParamSplits(tags: seq<String>)
    requires |tags| > 0
    ensures Split(TagsParam(tags), ' ') == EncodeTags(tags)
  {
    var encoded := EncodeTags(tags);
    assert forall k :: 0 <= k < |encoded| ==> ' ' !in encoded[k];
    SplitJoin(encoded, ' ');
  }

  /** Decoding an encoded tag gives the tag back when it has no '_' of its own. */
  lemma {:induction false} TagRoundTrip(t: String)
    requires '_' !in t
    ensures ReplaceAll(EncodeTag(t), '_', " ") == t
  {
    ReplaceAllInverse(t, ' ', '_');
  }

  /**
   A post whose tag string is exactly the `tags` parameter sent normalises
   back to the query tags, for a non-empty query without '_' in its tags.
   */
  lemma {:induction false} QueryTagsRoundTrip(tags: seq<String>)
    requires |tags| > 0
    requires forall k :: 0 <= k < |tags| ==> '_' !in tags[k]
    ensures NormalizeTags(TagsParam(tags)) == tags
  {
    TagsParamSplits(tags);
    var r := NormalizeTags(TagsParam(tags));
    forall k | 0 <= k < |tags|
      ensures r[k] == tags[k]
    {
      TagRoundTrip(tags[k]);
    }
  }

  /** Only the first post matters; the rest of the array is ignored. */
  lemma {:induction false} FirstPostOnly(p: Post, rest1: seq<Post>, rest2: seq<Post>)
    ensures ParseResponse(Posts([p] + rest1)) == ParseResponse(Posts([p] + rest2))
  {
  }

  /**
   A successful result describes the first post: links copied, the author
   is the artist list de-underscored and joined by ", ", the tags are free of
   '_' and give back the native tag string, and the rating is classified.
   */
  lemma {:induction false} ResultDescribesFirstPost(posts: seq<Post>)
    requires |posts| > 0
    ensures var r := ParseResponse(Posts(posts));
      && r.Success?
      && r.value.url == posts[0].fileUrl
      && r.value.pageUrl == posts[0].source
      && r.value.author == Join(ReplaceEach(Split(posts[0].tagStringArtist, ' '), '_', " "), ", ")
      && '_' !in r.value.author
      && |r.value.tags| == Count(posts[0].tagString, ' ') + 1
      && (forall j :: 0 <= j < |r.value.tags| ==> '_' !in r.value.tags[j])
      && Join(ReplaceEach(r.value.tags, ' ', "_"), " ") == posts[0].tagString
      && (r.value.nsfw <==> posts[0].rating == "e" || posts[0].rating == "q")
  {
    TagsRoundTrip(posts[0].tagString);
    AuthorIsArtistList(posts[0].tagStringArtist);
  }

  /**
   The two vocabularies do not mix: a single-letter code other than "e"
   or "q" is safe, and Gelbooru's long-form words are safe here too.
   */
  lemma {:induction false} RatingCodes(ch: char)
    ensures IsNsfw([ch]) <==> ch == 'e' || ch == 'q'
    ensures !IsNsfw("explicit") && !IsNsfw("questionable")
  {
  }
}
