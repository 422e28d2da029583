/**
 The provider-independent vocabulary: the query every adapter receives, the
 canonical result every adapter produces, and the normalisation of artist
 and tag strings that both adapters apply to their native records.
 */
module ImageSource {
  import opened Strings
  import Decimal

  /** What the caller asks for: tags to match and how many images. */
  datatype Query = Query(tags: seq<String>, count: nat)

  /** One image in the shape handed back to the chat layer. */
  datatype Result = Result(
    url: String,
    pageUrl: String,
    author: String,
    tags: seq<String>,
    nsfw: bool)

  /** A request parameter value before serialisation. */
  datatype ParamValue = Text(text: String) | Number(number: nat) | Flag(flag: bool)

  /**
   The artist field: space-separated artist names, '_' inside a name.
   Each ' ' becomes ", " first, then each '_' becomes ' '.
   */
  function NormalizeAuthor(raw: String): (r: String)
    ensures '_' !in r
    ensures |r| == |raw| + Count(raw, ' ')
  {
    ReplaceAll(ReplaceAll(raw, ' ', ", "), '_', " ")
  }

  /**
   The tag field: split on every single ' ' (empty pieces kept, as
   JavaScript's split does), then each '_' inside a tag becomes ' '.
   */
  function NormalizeTags(raw: String): (r: seq<String>)
    ensures |r| == Count(raw, ' ') + 1
    ensures forall k :: 0 <= k < |r| ==> '_' !in r[k]
  {
    ReplaceEach(Split(raw, ' '), '_', " ")
  }

  /**
   How a parameter value prints inside a URL (JavaScript's `${value}`), as
   Gelbooru does when it builds its URL by hand. Danbooru's parameters are
   handed to the HTTP client unprinted, so no adapter prints a `Flag`.
   */
  function Stringify(v: ParamValue): String
  {
    match v
    case Text(t) => t
    case Number(n) => Decimal.FromNat(n)
    case Flag(b) => if b then "true" else "false"
  }

  /** A rating counts as not safe exactly when the provider's table lists it. */
  predicate Classify(nsfwRatings: seq<String>, rating: String)
  {
    rating in nsfwRatings
  }

  /**
   The author string is the list of artists, each de-underscored, joined
   with ", ".
   */
  lemma {:induction false} AuthorIsArtistList(raw: String)
    ensures NormalizeAuthor(raw) == Join(ReplaceEach(Split(raw, ' '), '_', " "), ", ")
  {
    ReplaceAllIsSplitJoin(raw, ' ', ", ");
    ReplaceAllJoin(Split(raw, ' '), ", ", '_', " ");
  }

  /**
   Normalising tags loses nothing: turning every ' ' of every tag back into
   '_' and joining with ' ' rebuilds the native tag string.
   */
  lemma {:induction false} TagsRoundTrip(raw: String)
    ensures Join(ReplaceEach(NormalizeTags(raw), ' ', "_"), " ") == raw
  {
    var pieces := Split(raw, ' ');
    forall k | 0 <= k < |pieces|
      ensures ReplaceAll(ReplaceAll(pieces[k], '_', " "), ' ', "_") == pieces[k]
    {
      ReplaceAllInverse(pieces[k], '_', ' ');
    }
    assert ReplaceEach(NormalizeTags(raw), ' ', "_") == pieces;
    JoinSplit(raw, ' ');
  }

  lemma {:induction false} AuthorExample()
    ensures NormalizeAuthor("artist_one artist_two") == "artist one, artist two"
  {
    assert "artist_one artist_two" == "artist" + "_" + "one" + " " + "artist" + "_" + "two";
    assert "artist one, artist two" == "artist" + " " + "one" + ", " + "artist" + " " + "two";
    TwoWordExample("artist", "one", "artist", "two");
  }

  lemma {:induction false} AuthorShortExample()
    ensures NormalizeAuthor("a_b c_d") == "a b, c d"
  {
    assert "a_b c_d" == "a" + "_" + "b" + " " + "c" + "_" + "d";
    assert "a b, c d" == "a" + " " + "b" + ", " + "c" + " " + "d";
    TwoWordExample("a", "b", "c", "d");
  }

  /** `x_y z_w` names the two artists `x y` and `z w`. */
  lemma {:induction false} TwoWordExample(x: String, y: String, z: String, w: String)
    requires '_' !in x && '_' !in y && '_' !in z && '_' !in w
    requires ' ' !in x && ' ' !in y && ' ' !in z && ' ' !in w
    ensures NormalizeAuthor(x + "_" + y + " " + z + "_" + w) == x + " " + y + ", " + z + " " + w
    ensures NormalizeTags(x + "_" + y + " " + z + "_" + w) == [x + " " + y, z + " " + w]
  {
    var first, second := x + "_" + y, z + "_" + w;
    var raw := x + "_" + y + " " + z + "_" + w;
    var pieces := Split(raw, ' ');
    assert pieces == [first, second] by {
      assert raw == first + [' '] + second;
      SplitPrefix(first, second, ' ');
      SplitNoSeparator(second, ' ');
    }
    var named := ReplaceEach(pieces, '_', " ");
    assert named == [x + " " + y, z + " " + w] by {
      ReplaceAllSingle(x, y, '_', " ");
      ReplaceAllSingle(z, w, '_', " ");
      assert first == x + ['_'] + y;
      assert second == z + ['_'] + w;
    }
    AuthorIsArtistList(raw);
    assert Join(named, ", ") == named[0] + ", " + named[1] by {
      assert named[1..] == [named[1]];
    }
  }

  lemma {:induction false} TagsExample()
    ensures NormalizeTags("blue_hair cat_ears") == ["blue hair", "cat ears"]
  {
    assert "blue_hair cat_ears" == "blue" + "_" + "hair" + " " + "cat" + "_" + "ears";
    assert "blue hair" == "blue" + " " + "hair";
    assert "cat ears" == "cat" + " " + "ears";
    TwoWordExample("blue", "hair", "cat", "ears");
  }
}
