/**
 * The Xiaohongshu path (`xhs_get.py`): ask a parsing API about a share link, fail over to its
 * second endpoint, and shape the answer into an image post or a video post whose sizes come from
 * HEAD probes of the video URLs.
 *
 * The GETs are answered in order by a script (the secondary endpoint can be asked twice, and the
 * two answers may differ); a HEAD is answered by a function of the URL it probes.
 */
module XhsGet {
  import opened Wrappers
  import opened Text
  import opened PyData

  const PrimaryApi: string := "https://api.kxzjoker.cn/api/jiexi_video?url="
  const SecondaryApi: string := "https://api.kxzjoker.cn/api/jiexi_video_2?url="
  const ParseFailureMessage: string := "解析失败或数据格式不正确"

  // ---------------------------------------------------------------------------------------------
  // fetch

  /** What one GET got: a transport failure, or a response with its `Content-Type` header and decoded body. */
  datatype FetchAnswer =
    | FetchFailed
      /** `body` is the JSON the body decodes to, `None` when it is not JSON */
    | Fetched(contentType: Option<string>, body: Option<Json>)

  /** `fetch`: the body is decoded only under a `Content-Type` that contains `application/json`. */
  function Fetch(a: FetchAnswer): (r: Result<Json, Exc>)
    ensures r.Ok? <==> a.Fetched? && Contains(a.contentType.GetOr(""), "application/json") && a.body.Some?
    ensures r.Ok? ==> r.value == a.body.value
    ensures a.Fetched? && !Contains(a.contentType.GetOr(""), "application/json") ==>
      r == Err(UnexpectedContentType(a.contentType))
  {
    match a
    case FetchFailed => Err(NetworkFailure)
    case Fetched(contentType, body) =>
      if Contains(contentType.GetOr(""), "application/json") then
        if body.Some? then Ok(body.value) else Err(JsonDecodeError)
      else Err(UnexpectedContentType(contentType))
  }

  function AnswerAt(answers: seq<FetchAnswer>, k: nat): FetchAnswer {
    if k < |answers| then answers[k] else FetchFailed
  }

  // ---------------------------------------------------------------------------------------------
  // Failover

  /** The outcome of the try/except block: the result used, or the exception the handler let out, and the endpoints asked. */
  datatype Failover = Failover(result: Result<Json, Exc>, endpoints: seq<string>)

  /**
   * Lines 28-37: ask the primary endpoint; on a maintenance code (201) ask the secondary one; any
   * exception in the block (the primary failing, its answer not being a dict, or that secondary
   * request failing) sends the handler to the secondary endpoint once more, unprotected.
   */
  function FailoverSpec(url: string, answers: seq<FetchAnswer>): (f: Failover)
    ensures 1 <= |f.endpoints| <= 3 && f.endpoints[0] == PrimaryApi + url
    ensures forall k | 1 <= k < |f.endpoints| :: f.endpoints[k] == SecondaryApi + url
    ensures |f.endpoints| == 1 <==>
      && Fetch(AnswerAt(answers, 0)).Ok?
      && Get(Fetch(AnswerAt(answers, 0)).value, "code").Ok?
      && !EqualsInt(Get(Fetch(AnswerAt(answers, 0)).value, "code").value, 201)
    ensures |f.endpoints| == 1 ==> f.result == Fetch(AnswerAt(answers, 0))
    ensures |f.endpoints| == 3 <==>
      && Fetch(AnswerAt(answers, 0)).Ok?
      && Get(Fetch(AnswerAt(answers, 0)).value, "code").Ok?
      && EqualsInt(Get(Fetch(AnswerAt(answers, 0)).value, "code").value, 201)
      && Fetch(AnswerAt(answers, 1)).Err?
    ensures f.result == Fetch(AnswerAt(answers, |f.endpoints| - 1))
  {
    var primary := PrimaryApi + url;
    var secondary := SecondaryApi + url;
    match Fetch(AnswerAt(answers, 0))
    case Err(_) => Failover(Fetch(AnswerAt(answers, 1)), [primary, secondary])
    case Ok(result) =>
      match Get(result, "code")
      case Err(_) => Failover(Fetch(AnswerAt(answers, 1)), [primary, secondary])
      case Ok(code) =>
        if !EqualsInt(code, 201) then Failover(Ok(result), [primary])
        else
          match Fetch(AnswerAt(answers, 1))
          case Ok(second) => Failover(Ok(second), [primary, secondary])
          case Err(_) => Failover(Fetch(AnswerAt(answers, 2)), [primary, secondary, secondary])
  }

  // ---------------------------------------------------------------------------------------------
  // int(...) of a header value

  predicate AllDigits(s: string) {
    forall k | 0 <= k < |s| :: IsDigit(s[k])
  }

  /** What `int` accepts once the surrounding whitespace is stripped: an optional sign, then decimal digits. */
  predicate IntLiteral(t: string) {
    || (t != [] && AllDigits(t))
    || (|t| > 1 && (t[0] == '-' || t[0] == '+') && AllDigits(t[1..]))
  }

  /** A magnitude with its sign. */
  function Signed(negative: bool, magnitude: nat): int {
    if negative then -(magnitude as int) else magnitude
  }

  /** `int(s)` for a `str`: optional surrounding whitespace, an optional sign, then decimal digits. */
  function IntOf(s: string): (r: Result<int, Exc>)
    ensures r.Ok? <==> IntLiteral(Strip(s))
    ensures r.Err? ==> r.error == InvalidLiteral(s)
  {
    var t := Strip(s);
    if |t| > 1 && (t[0] == '-' || t[0] == '+') && AllDigits(t[1..]) then
      Ok(Signed(t[0] == '-', DigitsValue(t[1..])))
    else if t != [] && AllDigits(t) then Ok(DigitsValue(t))
    else Err(InvalidLiteral(s))
  }

  /** `int(str(n))` is `n`: a `Content-Length` written by `str` reads back as the same size. */
  lemma IntOfNatToString(n: nat)
    ensures IntOf(NatToString(n)) == Ok(n)
  {
    DecimalValue(n);
    IntOfDigits(NatToString(n));
  }

  /** `int(s)` of a non-empty run of decimal digits is their value. */
  lemma IntOfDigits(s: string)
    requires s != [] && AllDigits(s)
    ensures IntOf(s) == Ok(DigitsValue(s))
  {
    assert IsDigit(s[0]) && IsDigit(s[|s| - 1]);
    StripTrimmed(s);
  }

  /** A sign in front of a run of decimal digits gives the digits' value, negated after a `-`. */
  lemma IntOfSigned(t: string)
    requires |t| > 1 && (t[0] == '-' || t[0] == '+') && AllDigits(t[1..])
    ensures IntOf(t) == Ok(Signed(t[0] == '-', DigitsValue(t[1..])))
  {
    SignedTrimmed(t);
  }

  /** A signed literal has no whitespace at either end. */
  lemma SignedTrimmed(t: string)
    requires |t| > 1 && (t[0] == '-' || t[0] == '+') && AllDigits(t[1..])
    ensures Strip(t) == t
  {
    assert IsDigit(t[1..][|t| - 2]);
    StripTrimmed(t);
  }

  lemma {:induction false} DecimalDigits(n: nat)
    ensures AllDigits(NatToString(n))
    decreases n
  {
    if n >= 10 {
      DecimalDigits(n / 10);
    }
  }

  lemma {:induction false} DecimalValue(n: nat)
    ensures AllDigits(NatToString(n)) && DigitsValue(NatToString(n)) == n
    decreases n
  {
    DecimalDigits(n);
    if n >= 10 {
      var s := NatToString(n);
      assert s[..|s| - 1] == NatToString(n / 10);
      DecimalValue(n / 10);
    }
  }

  // ---------------------------------------------------------------------------------------------
  // The video sizes

  /** What a HEAD probe got: a transport failure, or the `Content-Length` header if any. */
  datatype HeadAnswer = HeadFailed | HeadReply(contentLength: Option<string>)

  /** `int(await fetch_head(session, url))`: the header's value, 0 when it is absent. */
  function SizeOf(a: HeadAnswer): (r: Result<int, Exc>)
    ensures a == HeadReply(None) ==> r == Ok(0)
    ensures a.HeadReply? && a.contentLength.Some? ==> r == IntOf(a.contentLength.value)
    ensures a.HeadFailed? ==> r == Err(NetworkFailure)
  {
    match a
    case HeadFailed => Err(NetworkFailure)
    case HeadReply(None) => Ok(0)
    case HeadReply(Some(h)) => IntOf(h)
  }

  /** One probe: the size `head` gives for a URL. */
  function Measure(head: Json -> HeadAnswer): Json -> Result<int, Exc> {
    url => SizeOf(head(url))
  }

  /** The probe loop from URL `i` on, with the sizes found so far. */
  function SizesFrom(urls: seq<Json>, i: nat, probe: Json -> Result<int, Exc>, sizes: seq<int>): Result<seq<int>, Exc>
    requires i <= |urls|
    decreases |urls| - i
  {
    if i == |urls| then Ok(sizes)
    else
      var size :- probe(urls[i]);
      SizesFrom(urls, i + 1, probe, sizes + [size])
  }

  /** The probe loop gets through exactly when every probe does, with one size per URL in URL order. */
  lemma {:induction false} SizesInOrder(urls: seq<Json>, i: nat, probe: Json -> Result<int, Exc>, sizes: seq<int>)
    requires i <= |urls|
    ensures SizesFrom(urls, i, probe, sizes).Ok? <==> forall k | i <= k < |urls| :: probe(urls[k]).Ok?
    ensures SizesFrom(urls, i, probe, sizes).Ok? ==>
      var r := SizesFrom(urls, i, probe, sizes).value;
      && |r| == |sizes| + |urls| - i && r[..|sizes|] == sizes
      && forall k | i <= k < |urls| :: r[|sizes| + k - i] == probe(urls[k]).value
    decreases |urls| - i
  {
    if i < |urls| && probe(urls[i]).Ok? {
      var sizes' := sizes + [probe(urls[i]).value];
      SizesInOrder(urls, i + 1, probe, sizes');
      if SizesFrom(urls, i + 1, probe, sizes').Ok? {
        var r := SizesFrom(urls, i + 1, probe, sizes').value;
        assert r[..|sizes|] == r[..|sizes'|][..|sizes|];
        assert r[|sizes|] == r[..|sizes'|][|sizes|];
      }
    }
  }

  /** The sizes a successful probe loop gathers are the probes' answers, URL by URL. */
  lemma SizesMatch(items: seq<Json>, probe: Json -> Result<int, Exc>, sizes: seq<int>)
    requires SizesFrom(items, 0, probe, []) == Ok(sizes)
    ensures |sizes| == |items|
    ensures forall k | 0 <= k < |items| :: Ok(sizes[k]) == probe(items[k])
  {
    SizesInOrder(items, 0, probe, []);
  }

  /** `sum(xs)` */
  function Sum(xs: seq<int>): int {
    if xs == [] then 0 else Sum(xs[..|xs| - 1]) + xs[|xs| - 1]
  }

  /** The probe loop, `video_sizes.append(int(video_size))` for each URL. */
  method MeasureVideos(urls: seq<Json>, head: Json -> HeadAnswer) returns (r: Result<seq<int>, Exc>)
    ensures r == SizesFrom(urls, 0, Measure(head), [])
  {
    var videoSizes: seq<int> := [];
    var i := 0;
    while i < |urls|
      invariant 0 <= i <= |urls|
      invariant SizesFrom(urls, i, Measure(head), videoSizes) == SizesFrom(urls, 0, Measure(head), [])
    {
      var size := SizeOf(head(urls[i]));
      if size.Err? {
        return Err(size.error);
      }
      videoSizes := videoSizes + [size.value];
      i := i + 1;
    }
    r := Ok(videoSizes);
  }

  // ---------------------------------------------------------------------------------------------
  // The result

  /** The dict `xhs_parse` returns. */
  datatype XhsResult =
    | ImagePost(title: Json, count: nat, urls: Json)
    | VideoPost(title: Json, count: nat, videoSizes: seq<int>, urls: Json, cover: Json, size: int)
      /** `{"error": "解析失败或数据格式不正确"}` */
    | ParseFailure

  /** A bare string becomes a one-element list; anything else is kept. */
  function Coerce(j: Json): (r: Json)
    ensures j.JStr? ==> r == JArr([j])
    ensures !j.JStr? ==> r == j
  {
    if j.JStr? then JArr([j]) else j
  }

  /** Lines 41-50: the image post; a bare string counts as a list of one. */
  function ImagePostOf(data: Json): (r: Result<XhsResult, Exc>)
    ensures r.Ok? <==>
      && Subscript(data, "images").Ok? && Subscript(data, "title").Ok?
      && Len(Coerce(Subscript(data, "images").value)).Ok?
    ensures r.Ok? ==>
      && r.value.ImagePost?
      && r.value.urls == Coerce(Subscript(data, "images").value)
      && Subscript(data, "title") == Ok(r.value.title)
      && Len(r.value.urls) == Ok(r.value.count) && !r.value.urls.JStr?
  {
    var images :- Subscript(data, "images");
    var title :- Subscript(data, "title");
    var count :- Len(Coerce(images));
    Ok(ImagePost(title, count, Coerce(images)))
  }

  /** Lines 51-67: the video post, once every URL has been probed in order. */
  function VideoPostOf(data: Json, head: Json -> HeadAnswer): (r: Result<XhsResult, Exc>)
    ensures r.Ok? ==>
      && r.value.VideoPost?
      && Subscript(data, "download_url").Ok? && r.value.urls == Coerce(Subscript(data, "download_url").value)
      && Subscript(data, "video_title") == Ok(r.value.title)
      && data.JObj? && r.value.cover == Lookup(data.members, "image_url").GetOr(JStr(""))
      && Elements(r.value.urls).Ok? && |r.value.videoSizes| == r.value.count == |Elements(r.value.urls).value|
      && r.value.size == Sum(r.value.videoSizes) && !r.value.urls.JStr?
      && forall k | 0 <= k < r.value.count ::
           Ok(r.value.videoSizes[k]) == Measure(head)(Elements(r.value.urls).value[k])
  {
    var videoUrls :- Subscript(data, "download_url");
    var urls := Coerce(videoUrls);
    var items :- Elements(urls);
    var sizes :- SizesFrom(items, 0, Measure(head), []);
    SizesMatch(items, Measure(head), sizes);
    var title :- Subscript(data, "video_title");
    var cover := Lookup(data.members, "image_url").GetOr(JStr(""));
    Ok(VideoPost(title, |items|, sizes, urls, cover, Sum(sizes)))
  }

  /** The data has neither `images` nor `download_url`. */
  predicate NeitherKey(ms: seq<Member>) {
    Lookup(ms, "images").None? && Lookup(ms, "download_url").None?
  }

  /** Lines 39-68: the record built from the answer used; `Err` is an exception that escapes. */
  function Assemble(result: Json, head: Json -> HeadAnswer): (r: Result<XhsResult, Exc>)
    ensures !result.JObj? ==> r == Err(AttributeError)
    ensures result.JObj? && !EqualsInt(Lookup(result.members, "success").GetOr(JNull), 1) ==> r == Ok(ParseFailure)
    ensures result.JObj? && EqualsInt(Lookup(result.members, "success").GetOr(JNull), 1) ==>
      var data := Subscript(result, "data");
      && (data.Err? ==> r == Err(data.error))
      && (data.Ok? && data.value.JObj? && NeitherKey(data.value.members) ==> r == Ok(ParseFailure))
      && (data.Ok? && Has(data.value, "images") == Ok(true) ==> r == ImagePostOf(data.value))
      && (data.Ok? && Has(data.value, "images") == Ok(false) && Has(data.value, "download_url") == Ok(true) ==>
            r == VideoPostOf(data.value, head))
    ensures r.Ok? && r.value.ImagePost? ==> Len(r.value.urls) == Ok(r.value.count) && !r.value.urls.JStr?
    ensures r.Ok? && r.value.VideoPost? ==>
      && Elements(r.value.urls).Ok? && |r.value.videoSizes| == r.value.count == |Elements(r.value.urls).value|
      && r.value.size == Sum(r.value.videoSizes) && !r.value.urls.JStr?
      && forall k | 0 <= k < r.value.count ::
           Ok(r.value.videoSizes[k]) == Measure(head)(Elements(r.value.urls).value[k])
  {
    var success :- Get(result, "success");
    if !EqualsInt(success, 1) then Ok(ParseFailure)
    else
      var data :- Subscript(result, "data");
      var hasImages :- Has(data, "images");
      if hasImages then ImagePostOf(data)
      else if !Has(data, "download_url").value then Ok(ParseFailure)
      else VideoPostOf(data, head)
  }

  /** A run of `xhs_parse`: the returned record or the exception raised, and the endpoints asked. */
  datatype XhsRun = XhsRun(result: Result<XhsResult, Exc>, endpoints: seq<string>)

  /** `xhs_parse(url)` */
  function XhsParseSpec(url: string, answers: seq<FetchAnswer>, head: Json -> HeadAnswer): XhsRun {
    var f := FailoverSpec(url, answers);
    match f.result
    case Err(e) => XhsRun(Err(e), f.endpoints)
    case Ok(result) => XhsRun(Assemble(result, head), f.endpoints)
  }

  /** `xhs_parse`, as the source runs it. */
  method XhsParse(url: string, answers: seq<FetchAnswer>, head: Json -> HeadAnswer)
    returns (result: Result<XhsResult, Exc>, endpoints: seq<string>)
    ensures XhsRun(result, endpoints) == XhsParseSpec(url, answers, head)
  {
    var used: Result<Json, Exc>;
    endpoints := [PrimaryApi + url];
    var primary := Fetch(AnswerAt(answers, 0));
    var code := if primary.Ok? then Get(primary.value, "code") else Err(AttributeError);
    if primary.Err? || code.Err? {
      endpoints := endpoints + [SecondaryApi + url];
      used := Fetch(AnswerAt(answers, 1));
    } else if EqualsInt(code.value, 201) {
      endpoints := endpoints + [SecondaryApi + url];
      used := Fetch(AnswerAt(answers, 1));
      if used.Err? {
        endpoints := endpoints + [SecondaryApi + url];
        used := Fetch(AnswerAt(answers, 2));
      }
    } else {
      used := primary;
    }
    if used.Err? {
      return Err(used.error), endpoints;
    }
    result := AssembleResult(used.value, head);
  }

  /** Lines 39-68, step by step. */
  method AssembleResult(result: Json, head: Json -> HeadAnswer) returns (r: Result<XhsResult, Exc>)
    ensures r == Assemble(result, head)
  {
    var success := Get(result, "success");
    if success.Err? {
      return Err(success.error);
    }
    if !EqualsInt(success.value, 1) {
      return Ok(ParseFailure);
    }
    var data := Subscript(result, "data");
    if data.Err? {
      return Err(data.error);
    }
    var hasImages := Has(data.value, "images");
    if hasImages.Err? {
      return Err(hasImages.error);
    }
    if hasImages.value {
      var images := Subscript(data.value, "images");
      if images.Err? {
        return Err(images.error);
      }
      var urls := images.value;
      if urls.JStr? {
        urls := JArr([urls]);
      }
      var title := Subscript(data.value, "title");
      if title.Err? {
        return Err(title.error);
      }
      var count := Len(urls);
      if count.Err? {
        return Err(count.error);
      }
      return Ok(ImagePost(title.value, count.value, urls));
    }
    var hasVideo := Has(data.value, "download_url").value;
    if !hasVideo {
      return Ok(ParseFailure);
    }
    var videoUrls := Subscript(data.value, "download_url");
    if videoUrls.Err? {
      return Err(videoUrls.error);
    }
    var urls := videoUrls.value;
    if urls.JStr? {
      urls := JArr([urls]);
    }
    var items := Elements(urls);
    if items.Err? {
      return Err(items.error);
    }
    var videoSizes := MeasureVideos(items.value, head);
    if videoSizes.Err? {
      return Err(videoSizes.error);
    }
    var title := Subscript(data.value, "video_title");
    if title.Err? {
      return Err(title.error);
    }
    var count := Len(urls);
    var cover := Lookup(data.value.members, "image_url").GetOr(JStr(""));
    r := Ok(VideoPost(title.value, count.value, videoSizes.value, urls, cover, Sum(videoSizes.value)));
  }

  // ---------------------------------------------------------------------------------------------
  // Properties of the assembled record

  /** When the data has `images`, the post is an image post whatever `download_url` holds, and nothing is probed. */
  lemma ImagesTakePrecedence(result: Json, head1: Json -> HeadAnswer, head2: Json -> HeadAnswer, data: Json)
    requires result.JObj? && EqualsInt(Lookup(result.members, "success").GetOr(JNull), 1)
    requires Lookup(result.members, "data") == Some(data)
    requires Has(data, "images") == Ok(true)
    requires Assemble(result, head1).Ok?
    ensures Assemble(result, head1).value.ImagePost?
    ensures Assemble(result, head1) == Assemble(result, head2)
  {
  }

  /** A single video URL given as a bare string is probed once, and the post holds it as a one-element list. */
  lemma SingleVideoUrl(result: Json, head: Json -> HeadAnswer, data: Json, url: string, length: nat)
    requires result.JObj? && EqualsInt(Lookup(result.members, "success").GetOr(JNull), 1)
    requires Lookup(result.members, "data") == Some(data) && data.JObj?
    requires Lookup(data.members, "images").None? && Lookup(data.members, "download_url") == Some(JStr(url))
    requires Lookup(data.members, "video_title").Some?
    requires head(JStr(url)) == HeadReply(Some(NatToString(length)))
    ensures Assemble(result, head) == Ok(VideoPost(Lookup(data.members, "video_title").value, 1, [length],
                                                   JArr([JStr(url)]), Lookup(data.members, "image_url").GetOr(JStr("")), length))
  {
    IntOfNatToString(length);
    assert Measure(head)(JStr(url)) == Ok(length);
    assert SizesFrom([JStr(url)], 1, Measure(head), [length]) == Ok([length]);
    assert [] + [length] == [length];
    assert SizesFrom([JStr(url)], 0, Measure(head), []) == Ok([length]);
    assert Has(data, "images") == Ok(false);
    assert Sum([length]) == Sum([]) + length;
  }
}
