/**
 The Gelbooru adapter (packages/core/src/sources/gelbooru/index.ts): the
 credential pick, the request URL for a query, and the mapping of the
 decoded JSON payload to canonical results. The HTTP GET in between is the
 `fetch` parameter of `Get`.
 */
module Gelbooru {
  import opened Wrappers
  import opened Strings
  import Decimal
  import opened ImageSource

  /** Adapter configuration; each key pair is a ready-to-append, URL-encoded query fragment. */
  datatype Config = Config(endpoint: String, keyPairs: seq<String>)

  /** One native post record of the `dapi` JSON answer. */
  datatype Post = Post(fileUrl: String, source: String, owner: String, tags: String, rating: String)

  /** The payload's `post` field: an array of records, or anything else (missing, an object, ...). */
  datatype PostField = Posts(posts: seq<Post>) | NotArray

  /** The decoded response body `{ post: ... }`. */
  datatype Response = Response(post: PostField)

  /** A draw of `Math.random()`, the exact fraction `num / den` in [0, 1). */
  datatype Roll = Roll(num: nat, den: nat)

  predicate ValidRoll(roll: Roll)
  {
    roll.num < roll.den
  }

  /** Ratings Gelbooru reports for not-safe posts. */
  const NsfwRatings: seq<String> := ["explicit", "questionable"]

  // ---------------------------------------------------------------------
  // Request side
  // ---------------------------------------------------------------------

  /** `Math.floor(Math.random() * n)`. */
  function PickIndex(n: nat, roll: Roll): (i: nat)
    requires ValidRoll(roll)
    ensures n > 0 ==> i < n
  {
    ScaledFloorBelow(roll.num, roll.den, n);
    roll.num * n / roll.den
  }

  /** The `keyPair` getter: nothing for an empty pool, otherwise the drawn entry. */
  function KeyPair(keyPairs: seq<String>, roll: Roll): (r: Option<String>)
    requires ValidRoll(roll)
    ensures keyPairs == [] <==> r == None
    ensures r.Some? ==> exists i :: 0 <= i < |keyPairs| && r.value == keyPairs[i]
  {
    if |keyPairs| == 0 then None
    else
      var i := PickIndex(|keyPairs|, roll);
      assert keyPairs[i] == keyPairs[i];
      Some(keyPairs[i])
  }

  /** The `tags` parameter: query tags joined by '+', then the random-order directive. */
  function TagsParam(tags: seq<String>): String
  {
    Join(tags, "+") + "+sort:random"
  }

  /** The request parameters, in the order the request object lists them. */
  function Params(q: Query): seq<(String, ParamValue)>
  {
    [ ("tags", Text(TagsParam(q.tags))),
      ("page", Text("dapi")),
      ("s", Text("post")),
      ("q", Text("index")),
      ("json", Number(1)),
      ("limit", Number(q.count)) ]
  }

  /** Each parameter printed as `key=value`, without any encoding. */
  function Entries(ps: seq<(String, ParamValue)>): seq<String>
  {
    seq(|ps|, k requires 0 <= k < |ps| => ps[k].0 + "=" + Stringify(ps[k].1))
  }

  function QueryString(q: Query): String
  {
    Join(Entries(Params(q)), "&")
  }

  /** The request URL, with the picked key pair (if any, and if non-empty) appended verbatim. */
  function Url(cfg: Config, q: Query, keyPair: Option<String>): String
  {
    var url := TrimSlash(cfg.endpoint) + "?" + QueryString(q);
    if keyPair.Some? && keyPair.value != "" then url + keyPair.value else url
  }

  function RequestUrl(cfg: Config, q: Query, roll: Roll): String
    requires ValidRoll(roll)
  {
    Url(cfg, q, KeyPair(cfg.keyPairs, roll))
  }

  // ---------------------------------------------------------------------
  // Response side
  // ---------------------------------------------------------------------

  /** `['explicit', 'questionable'].includes(rating)`. */
  function IsNsfw(rating: String): (nsfw: bool)
    ensures nsfw <==> rating == "explicit" || rating == "questionable"
  {
    Classify(NsfwRatings, rating)
  }

  /** One native post as a canonical result. */
  function ToResult(post: Post): Result
  {
    Result(post.fileUrl, post.source, NormalizeAuthor(post.owner), NormalizeTags(post.tags), IsNsfw(post.rating))
  }

  function ToResults(posts: seq<Post>): (r: seq<Result>)
    ensures |r| == |posts|
    ensures forall k :: 0 <= k < |posts| ==> r[k] == ToResult(posts[k])
  {
    if posts == [] then [] else [ToResult(posts[0])] + ToResults(posts[1..])
  }

  /**
   The payload check and mapping: a `post` field that is not an array gives
   no value at all (not an error); an array gives one result per post.
   */
  function ParseResponse(resp: Response): (r: Option<seq<Result>>)
    ensures r == None <==> resp.post.NotArray?
    ensures resp.post.Posts? ==> r.Some? && |r.value| == |resp.post.posts|
  {
    match resp.post
    case NotArray => None
    case Posts(posts) => Some(ToResults(posts))
  }

  /** `get`: build the URL, hand it to the transport, parse what comes back. */
  function Get(cfg: Config, q: Query, roll: Roll, fetch: String -> Response): (r: Option<seq<Result>>)
    requires ValidRoll(roll)
    ensures r == None <==> fetch(RequestUrl(cfg, q, roll)).post.NotArray?
    ensures r.Some? ==> |r.value| == |fetch(RequestUrl(cfg, q, roll)).post.posts|
  {
    var url := RequestUrl(cfg, q, roll);
    ParseResponse(fetch(url))
  }

  // ---------------------------------------------------------------------
  // Lemmas
  // ---------------------------------------------------------------------

  /** `floor(num / den * n) < n` whenever `num < den` and `n > 0`. */
  lemma {:induction false} ScaledFloorBelow(num: nat, den: nat, n: nat)
    requires num < den
    ensures n > 0 ==> num * n / den < n
  {
    if n > 0 {
      var q := num * n / den;
      assert q * den <= num * n;
      assert num * n < den * n by {
        assert (den - num) * n > 0;
      }
    }
  }

  lemma {:induction false} MulSign(a: int, n: nat)
    requires n > 0
    ensures a < 0 ==> a * n <= -(n as int)
    ensures a > 0 ==> a * n >= n
  {
    if n > 1 {
      MulSign(a, n - 1);
      assert a * n == a * (n - 1) + a;
    }
  }

  lemma {:induction false} DivCancel(i: nat, n: nat)
    requires n > 0
    ensures i * n / n == i
  {
    var q, r := i * n / n, i * n % n;
    assert i * n == q * n + r;
    assert (i - q) * n == i * n - q * n;
    MulSign(i - q, n);
  }

  /** Every entry of the pool is drawn by some roll; the pick is not biased away from any entry. */
  lemma {:induction false} KeyPairReachesEveryEntry(keyPairs: seq<String>, i: nat)
    requires i < |keyPairs|
    ensures ValidRoll(Roll(i, |keyPairs|))
    ensures KeyPair(keyPairs, Roll(i, |keyPairs|)) == Some(keyPairs[i])
  {
    DivCancel(i, |keyPairs|);
  }

  /**
   Tags are not re-encoded: split at '+', the parameter gives back the query
   tags followed by the directive. An empty tag list leaves a leading '+'.
   */
  lemma {:induction false} TagsParamSplits(tags: seq<String>)
    requires forall k :: 0 <= k < |tags| ==> '+' !in tags[k]
    ensures tags == [] ==> TagsParam(tags) == "+sort:random"
    ensures Split(TagsParam(tags), '+') == (if tags == [] then [""] else tags) + ["sort:random"]
  {
    var front := if tags == [] then [""] else tags;
    assert Join(front, "+") == Join(tags, "+");
    JoinSnoc(front, "sort:random", "+");
    assert "+sort:random" == "+" + "sort:random";
    assert TagsParam(tags) == Join(front + ["sort:random"], "+");
    assert '+' !in "sort:random";
    SplitJoin(front + ["sort:random"], '+');
  }

  /** The six parameters, printed in their fixed order. */
  lemma {:induction false} EntriesLayout(q: Query)
    ensures Entries(Params(q)) == ExpectedEntries(q)
  {
    var e := Entries(Params(q));
    ConstantEntries(q);
    QueryEntries(q);
    assert forall k :: 0 <= k < 6 ==> e[k] == ExpectedEntries(q)[k];
  }

  /** The four entries that do not depend on the query. */
  lemma {:induction false} ConstantEntries(q: Query)
    ensures |Entries(Params(q))| == 6
    ensures Entries(Params(q))[1] == "page=dapi"
    ensures Entries(Params(q))[2] == "s=post"
    ensures Entries(Params(q))[3] == "q=index"
    ensures Entries(Params(q))[4] == "json=1"
  {
    assert "page" + "=" + "dapi" == "page=dapi";
    assert "s" + "=" + "post" == "s=post";
    assert "q" + "=" + "index" == "q=index";
    assert Decimal.FromNat(1) == "1";
    assert "json" + "=" + "1" == "json=1";
  }

  /** The two entries carrying the query. */
  lemma {:induction false} QueryEntries(q: Query)
    ensures Entries(Params(q))[0] == "tags=" + TagsParam(q.tags)
    ensures Entries(Params(q))[5] == "limit=" + Decimal.FromNat(q.count)
  {
    assert "tags" + "=" == "tags=";
    assert "limit" + "=" == "limit=";
  }

  /** The printed parameters in their fixed order. */
  function ExpectedEntries(q: Query): seq<String>
  {
    ["tags=" + TagsParam(q.tags), "page=dapi", "s=post", "q=index", "json=1", "limit=" + Decimal.FromNat(q.count)]
  }

  /**
   The request URL spelled out: endpoint without its trailing slash, '?',
   the six `key=value` entries in fixed order joined by '&', and the picked
   key pair glued on with no separator.
   */
  lemma {:induction false} UrlLayout(cfg: Config, q: Query, keyPair: Option<String>)
    ensures Url(cfg, q, keyPair) ==
      TrimSlash(cfg.endpoint) + "?" + Join(ExpectedEntries(q), "&") + (if keyPair.Some? then keyPair.value else "")
  {
    EntriesLayout(q);
  }

  /** Without a key pair the URL ends with `&limit=<count>`. */
  lemma {:induction false} UrlEndsWithLimit(cfg: Config, q: Query)
    ensures var tail := "&limit=" + Decimal.FromNat(q.count);
      var bare := Url(cfg, q, None);
      |bare| >= |tail| && bare[|bare| - |tail|..] == tail
  {
    var tail := "&limit=" + Decimal.FromNat(q.count);
    var front := QueryStringEnds(q);
    var head := TrimSlash(cfg.endpoint) + "?" + front;
    BareUrl(cfg, q);
    assert Url(cfg, q, None) == head + tail;
    SuffixOfConcat(head, tail);
  }

  lemma {:induction false} BareUrl(cfg: Config, q: Query)
    ensures Url(cfg, q, None) == TrimSlash(cfg.endpoint) + "?" + QueryString(q)
  {
  }

  /** The query string is some prefix followed by `&limit=<count>`. */
  lemma {:induction false} QueryStringEnds(q: Query) returns (front: String)
    ensures QueryString(q) == front + "&limit=" + Decimal.FromNat(q.count)
  {
    var e := Entries(Params(q));
    var limit := Decimal.FromNat(q.count);
    ConstantEntries(q);
    QueryEntries(q);
    front := Join(e[..5], "&");
    JoinLast(e, "&");
    assert QueryString(q) == front + "&" + ("limit=" + limit);
  }

  lemma {:induction false} SuffixOfConcat(a: String, b: String)
    ensures (a + b)[|a + b| - |b|..] == b
  {
  }

  /** A picked key pair is appended to the unauthenticated URL verbatim, with no separator. */
  lemma {:induction false} KeyPairAppended(cfg: Config, q: Query, keyPair: String)
    ensures Url(cfg, q, Some(keyPair)) == Url(cfg, q, None) + keyPair
  {
    UrlLayout(cfg, q, None);
    UrlLayout(cfg, q, Some(keyPair));
  }

  /**
   With no '&' inside any query tag, splitting the query string at '&'
   recovers the six `key=value` entries in order.
   */
  lemma {:induction false} QueryStringSplits(q: Query)
    requires forall k :: 0 <= k < |q.tags| ==> '&' !in q.tags[k]
    ensures Split(QueryString(q), '&') == ExpectedEntries(q)
  {
    EntriesLayout(q);
    var e := Entries(Params(q));
    JoinAbsent(q.tags, "+", '&');
    assert '&' !in TagsParam(q.tags);
    assert '&' !in Decimal.FromNat(q.count);
    assert forall k :: 0 <= k < |e| ==> '&' !in e[k];
    SplitJoin(e, '&');
  }

  /**
   The URL actually requested carries either nothing after `limit=<count>`
   (empty pool) or exactly one member of the pool.
   */
  lemma {:induction false} RequestUrlCredential(cfg: Config, q: Query, roll: Roll)
    requires ValidRoll(roll)
    ensures cfg.keyPairs == [] ==> RequestUrl(cfg, q, roll) == Url(cfg, q, None)
    ensures cfg.keyPairs != [] ==>
      exists i :: 0 <= i < |cfg.keyPairs| && RequestUrl(cfg, q, roll) == Url(cfg, q, None) + cfg.keyPairs[i]
  {
    var kp := KeyPair(cfg.keyPairs, roll);
    if kp.Some? {
      KeyPairAppended(cfg, q, kp.value);
    }
  }

  /**
   Each result describes its post: links copied, the author is the owner
   list de-underscored and joined by ", ", one '_'-free tag per
   space-separated piece with the native tag string recoverable, and the
   rating classified.
   */
  lemma {:induction false} ResultsDescribePosts(resp: Response)
    requires resp.post.Posts?
    ensures var posts := resp.post.posts;
      var r := ParseResponse(resp).value;
      forall k :: 0 <= k < |posts| ==>
        && r[k].url == posts[k].fileUrl
        && r[k].pageUrl == posts[k].source
        && r[k].author == Join(ReplaceEach(Split(posts[k].owner, ' '), '_', " "), ", ")
        && '_' !in r[k].author
        && |r[k].tags| == Count(posts[k].tags, ' ') + 1
        && (forall j :: 0 <= j < |r[k].tags| ==> '_' !in r[k].tags[j])
        && Join(ReplaceEach(r[k].tags, ' ', "_"), " ") == posts[k].tags
        && (r[k].nsfw <==> posts[k].rating in {"explicit", "questionable"})
  {
    var posts := resp.post.posts;
    forall k | 0 <= k < |posts|
      ensures Join(ReplaceEach(NormalizeTags(posts[k].tags), ' ', "_"), " ") == posts[k].tags
      ensures NormalizeAuthor(posts[k].owner) == Join(ReplaceEach(Split(posts[k].owner, ' '), '_', " "), ", ")
    {
      TagsRoundTrip(posts[k].tags);
      AuthorIsArtistList(posts[k].owner);
    }
  }
}
