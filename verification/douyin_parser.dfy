/**
 * The stand-alone Douyin share-link parser (`douyin_scraper/douyin_parser.py`): it pulls the first
 * URL out of a share text, asks an id resolver for the aweme id, fetches the aweme detail from the
 * web API and reduces it to a record of media type, metadata and media URLs. Every failure becomes
 * an error record; `parse` itself never raises.
 *
 * The id resolver (`AwemeIdFetcher.get_aweme_id`) and the signed API request are not part of this
 * model: they are parameters, and the calls made to them are returned as a trace.
 */
module DouyinParser {
  import opened Wrappers
  import opened Text
  import opened PyData
  import CookieExtractor

  // ---------------------------------------------------------------------------------------------
  // Construction

  /** A parser keeps the normalised cookie it sends with every API request. */
  datatype Parser = Parser(cookie: string)

  /** `DouyinParser(cookie)`: an empty cookie stays empty, any other is reduced to the required fields. */
  function NewParser(cookie: string): (p: Parser)
    ensures cookie == "" ==> p.cookie == ""
    ensures cookie != "" ==>
      p.cookie == CookieExtractor.Fields(CookieExtractor.RequiredCookies, CookieExtractor.Extract(cookie).extracted)
  {
    Parser(if cookie == "" then "" else CookieExtractor.ExtractAndFormatCookies(cookie))
  }

  // ---------------------------------------------------------------------------------------------
  // Step 1: the URL in the share text, `re.search(r"(https?://[^\s]+)", text)`

  /** The pattern matches at `i`: `http://` or `https://` followed by at least one non-space. */
  predicate UrlAt(s: string, i: nat)
    requires i <= |s|
  {
    || (StartsWith(s[i..], "https://") && i + 8 < |s| && !IsSpace(s[i + 8]))
    || (StartsWith(s[i..], "http://") && i + 7 < |s| && !IsSpace(s[i + 7]))
  }

  /** The end of the run of non-space characters that starts at `i`. */
  function RunEnd(s: string, i: nat): (j: nat)
    requires i <= |s|
    ensures i <= j <= |s|
    ensures forall k | i <= k < j :: !IsSpace(s[k])
    ensures j == |s| || IsSpace(s[j])
    decreases |s| - i
  {
    if i == |s| || IsSpace(s[i]) then i else RunEnd(s, i + 1)
  }

  /** The leftmost position at or after `from` where the pattern matches. */
  function FirstUrlFrom(s: string, from: nat): (r: Option<nat>)
    requires from <= |s|
    ensures r.Some? ==> from <= r.value < |s| && UrlAt(s, r.value)
    ensures r.Some? ==> forall j | from <= j < r.value :: !UrlAt(s, j)
    ensures r.None? <==> forall j | from <= j <= |s| :: !UrlAt(s, j)
    decreases |s| - from
  {
    if from == |s| then None
    else if UrlAt(s, from) then Some(from)
    else FirstUrlFrom(s, from + 1)
  }

  /** `url_match.group(1)`: the leftmost match, extended greedily over non-space characters. */
  function ExtractUrl(s: string): (r: Option<string>)
    ensures r.None? <==> forall j | 0 <= j <= |s| :: !UrlAt(s, j)
  {
    match FirstUrlFrom(s, 0)
    case None => None
    case Some(i) => Some(s[i..RunEnd(s, i)])
  }

  /**
   * The URL found in the text starts at the leftmost match: it has the scheme prefix, holds no
   * whitespace, and ends at the end of the text or at a whitespace character.
   */
  lemma ExtractedUrlShape(s: string, i: nat)
    requires FirstUrlFrom(s, 0) == Some(i)
    ensures ExtractUrl(s) == Some(s[i..RunEnd(s, i)])
    ensures StartsWith(s[i..RunEnd(s, i)], "http://") || StartsWith(s[i..RunEnd(s, i)], "https://")
    ensures forall k | i <= k < RunEnd(s, i) :: !IsSpace(s[k])
    ensures RunEnd(s, i) == |s| || IsSpace(s[RunEnd(s, i)])
  {
    var secure := StartsWith(s[i..], "https://") && i + 8 < |s| && !IsSpace(s[i + 8]);
    var p := if secure then "https://" else "http://";
    PrefixRun(s, i, p);
  }

  /** A scheme prefix followed by a non-space character lies inside the run that starts with it. */
  lemma PrefixRun(s: string, i: nat, p: string)
    requires p == "https://" || p == "http://"
    requires i <= |s| && StartsWith(s[i..], p) && i + |p| < |s| && !IsSpace(s[i + |p|])
    ensures RunEnd(s, i) > i + |p|
    ensures StartsWith(s[i..RunEnd(s, i)], p)
  {
    var n := |p|;
    assert forall k | 0 <= k < n :: !IsSpace(p[k]);
    assert forall k | i <= k < i + n :: s[k] == s[i..][..n][k - i];
    var j := RunEnd(s, i);
    assert s[i..j][..n] == s[i..][..n];
  }

  // ---------------------------------------------------------------------------------------------
  // Step 3: `fetch_video_data`

  /** The API's answer: status, body text, `Content-Type` header, and the body decoded as JSON if it is JSON. */
  datatype ApiReply = ApiReply(status: int, text: string, contentType: Option<string>, decoded: Option<Json>)

  /** `text[:200]` */
  function Snippet(text: string): (r: string)
    ensures StartsWith(text, r)
    ensures |r| == if |text| <= 200 then |text| else 200
  {
    if |text| <= 200 then text else text[..200]
  }

  /**
   * `fetch_video_data`: `reply` is what the signed GET returned, or the transport error it raised.
   * A non-2xx status raises, an empty body raises, a body that is not JSON raises with a diagnostic.
   */
  function FetchVideoData(awemeId: Json, reply: Result<ApiReply, Exc>): (r: Result<Json, Exc>)
    ensures r.Ok? <==>
      reply.Ok? && 200 <= reply.value.status < 300 && reply.value.text != "" && reply.value.decoded.Some?
    ensures r.Ok? ==> r.value == reply.value.decoded.value
    ensures reply.Ok? && !(200 <= reply.value.status < 300) ==> r == Err(HttpStatusError(reply.value.status))
    ensures reply.Ok? && 200 <= reply.value.status < 300 && reply.value.text == "" ==>
      r == Err(EmptyApiResponse(Show(awemeId)))
    ensures reply.Ok? && 200 <= reply.value.status < 300 && reply.value.text != "" && reply.value.decoded.None? ==>
      r == Err(InvalidApiJson(Show(awemeId), reply.value.contentType.GetOr(""), Snippet(reply.value.text)))
    ensures reply.Err? ==> r == Err(reply.error)
  {
    match reply
    case Err(e) => Err(e)
    case Ok(resp) =>
      if !(200 <= resp.status < 300) then Err(HttpStatusError(resp.status))
      else if resp.text == "" then Err(EmptyApiResponse(Show(awemeId)))
      else if resp.decoded.None? then
        Err(InvalidApiJson(Show(awemeId), resp.contentType.GetOr(""), Snippet(resp.text)))
      else Ok(resp.decoded.value)
  }

  // ---------------------------------------------------------------------------------------------
  // Step 4: `_process_data`

  /** The `type` field: `"unknown"`, `"image"`, `"multi_video"` or `"video"`. */
  datatype MediaType = Unknown | ImageSet | MultiVideo | SingleVideo

  /** The dict `parse` returns: the processed record, or `{"error": ..., "details": str(e)}`. */
  datatype Record =
    | Media(awemeId: Json, mediaType: MediaType, desc: Json, createTime: Json, authorNickname: Json, mediaUrls: seq<Json>)
    | Failure(error: string, details: Option<Exc>)

  const InvalidRawData: string := "无效的原始数据格式"
  const NoUrlFound: string := "No valid URL found in the share text"
  const IdFailed: string := "Failed to extract aweme_id"
  const FetchFailed: string := "Failed to fetch or process video data"

  /** `x.get("video", {}).get("play_addr", {}).get("url_list")` */
  function PlayUrls(x: Json): Result<Json, Exc> {
    var video :- GetOr(x, "video", JObj([]));
    var playAddr :- GetOr(video, "play_addr", JObj([]));
    Get(playAddr, "url_list")
  }

  /** A gallery item the loop counts as a video segment: `item.get("video")` is truthy. */
  predicate IsVideoSegment(item: Json) {
    item.JObj? && Truthy(Lookup(item.members, "video").GetOr(JNull))
  }

  /**
   * What one gallery item contributes: whether it is a video segment, and the URL it adds (the
   * first play URL of a segment, the last `url_list` entry of a picture, nothing when absent).
   */
  function ItemUrls(item: Json): (r: Result<(bool, seq<Json>), Exc>)
    ensures !item.JObj? ==> r == Err(AttributeError)
    ensures r.Ok? ==> (r.value.0 <==> IsVideoSegment(item)) && |r.value.1| <= 1
    ensures r.Ok? && IsVideoSegment(item) ==>
      && PlayUrls(item).Ok?
      && (r.value.1 == [] <==> !Truthy(PlayUrls(item).value))
      && (r.value.1 != [] ==> Index(PlayUrls(item).value, 0) == Ok(r.value.1[0]))
    ensures r.Ok? && !IsVideoSegment(item) ==>
      var urlList := Lookup(item.members, "url_list").GetOr(JNull);
      && (r.value.1 == [] <==> !Truthy(urlList))
      && (r.value.1 != [] ==> Index(urlList, -1) == Ok(r.value.1[0]))
    ensures IsVideoSegment(item) && PlayUrls(item).Err? ==> r == Err(PlayUrls(item).error)
  {
    if !item.JObj? then Err(AttributeError)
    else if Truthy(Lookup(item.members, "video").GetOr(JNull)) then
      var videoList :- PlayUrls(item);
      if Truthy(videoList) then
        var first :- Index(videoList, 0);
        Ok((true, [first]))
      else Ok((true, []))
    else
      var urlList := Lookup(item.members, "url_list").GetOr(JNull);
      if Truthy(urlList) then
        var last :- Index(urlList, -1);
        Ok((false, [last]))
      else Ok((false, []))
  }

  /** The gallery loop from item `i` on, with the flag and URLs gathered so far. */
  function GalleryFrom(items: seq<Json>, i: nat, hasVideo: bool, urls: seq<Json>): Result<(bool, seq<Json>), Exc>
    requires i <= |items|
    decreases |items| - i
  {
    if i == |items| then Ok((hasVideo, urls))
    else
      var step :- ItemUrls(items[i]);
      GalleryFrom(items, i + 1, hasVideo || step.0, urls + step.1)
  }

  /** The whole gallery loop. */
  function Gallery(items: seq<Json>): Result<(bool, seq<Json>), Exc> {
    GalleryFrom(items, 0, false, [])
  }

  /** Whether `aweme_detail.get("images") and len(aweme_detail["images"]) > 0` holds, for a dict. */
  function IsGallery(detail: seq<Member>): Result<bool, Exc> {
    var images := Lookup(detail, "images").GetOr(JNull);
    if Truthy(images) then
      var n :- Len(images);
      Ok(n > 0)
    else Ok(false)
  }

  /** The media type and URLs of an aweme detail. */
  function MediaOf(detail: Json): (r: Result<(MediaType, seq<Json>), Exc>)
    ensures !detail.JObj? ==> r == Err(AttributeError)
    ensures r.Ok? ==> (r.value.0 in {ImageSet, MultiVideo} <==> IsGallery(detail.members) == Ok(true))
    ensures r.Ok? && r.value.0 == Unknown ==> r.value.1 == []
    ensures r.Ok? && r.value.0 in {ImageSet, MultiVideo} ==>
      var images := Lookup(detail.members, "images").GetOr(JNull);
      Elements(images).Ok? && Gallery(Elements(images).value) == Ok((r.value.0 == MultiVideo, r.value.1))
    ensures r.Ok? && r.value.0 == SingleVideo ==>
      && |r.value.1| <= 1
      && PlayUrls(detail).Ok?
      && (r.value.1 == [] <==> !Truthy(PlayUrls(detail).value))
      && (r.value.1 != [] ==> Index(PlayUrls(detail).value, 0) == Ok(r.value.1[0]))
  {
    match detail
    case JObj(ms) =>
      var gallery :- IsGallery(ms);
      if gallery then
        var items := Elements(Lookup(ms, "images").GetOr(JNull)).value;
        var g :- Gallery(items);
        Ok((if g.0 then MultiVideo else ImageSet, g.1))
      else if Truthy(Lookup(ms, "video").GetOr(JNull)) then
        var videoList :- PlayUrls(detail);
        if Truthy(videoList) then
          var first :- Index(videoList, 0);
          Ok((SingleVideo, [first]))
        else Ok((SingleVideo, []))
      else Ok((Unknown, []))
    case _ => Err(AttributeError)
  }

  /** `_process_data(raw_data)`; `Err` is an exception it lets escape. */
  function ProcessSpec(raw: Json): (r: Result<Record, Exc>)
    ensures r == Ok(Failure(InvalidRawData, None)) <==> !Truthy(raw) || Has(raw, "aweme_detail") == Ok(false)
    ensures r.Ok? && r.value.Media? && r.value.mediaType == Unknown ==> r.value.mediaUrls == []
    ensures r.Ok? && r.value.Media? && r.value.mediaType == SingleVideo ==> |r.value.mediaUrls| <= 1
    ensures (Truthy(raw) && raw.JObj? && Lookup(raw.members, "aweme_detail").Some?
             && !Lookup(raw.members, "aweme_detail").value.JObj?) ==> r == Err(AttributeError)
    ensures r.Ok? && r.value.Media? ==>
      && raw.JObj? && Lookup(raw.members, "aweme_detail").Some?
      && var detail := Lookup(raw.members, "aweme_detail").value;
      && detail.JObj?
      && r.value.awemeId == Lookup(detail.members, "aweme_id").GetOr(JNull)
      && r.value.desc == Lookup(detail.members, "desc").GetOr(JNull)
      && r.value.createTime == Lookup(detail.members, "create_time").GetOr(JNull)
      && Get(Lookup(detail.members, "author").GetOr(JObj([])), "nickname") == Ok(r.value.authorNickname)
      && MediaOf(detail) == Ok((r.value.mediaType, r.value.mediaUrls))
  {
    if !Truthy(raw) then Ok(Failure(InvalidRawData, None))
    else
      var has :- Has(raw, "aweme_detail");
      if !has then Ok(Failure(InvalidRawData, None))
      else
        var detail :- Subscript(raw, "aweme_detail");
        var media :- MediaOf(detail);
        var author := Lookup(detail.members, "author").GetOr(JObj([]));
        var nickname :- Get(author, "nickname");
        Ok(Media(Lookup(detail.members, "aweme_id").GetOr(JNull), media.0,
                 Lookup(detail.members, "desc").GetOr(JNull),
                 Lookup(detail.members, "create_time").GetOr(JNull), nickname, media.1))
  }

  /** `_process_data`, step by step as the source does it. */
  method ProcessData(raw: Json) returns (r: Result<Record, Exc>)
    ensures r == ProcessSpec(raw)
  {
    if !Truthy(raw) {
      return Ok(Failure(InvalidRawData, None));
    }
    var has := Has(raw, "aweme_detail");
    if has.Err? {
      return Err(has.error);
    }
    if !has.value {
      return Ok(Failure(InvalidRawData, None));
    }
    var detail := Subscript(raw, "aweme_detail");
    if detail.Err? {
      return Err(detail.error);
    }
    var media := DetailMedia(detail.value);
    if media.Err? {
      return Err(media.error);
    }
    var author := Lookup(detail.value.members, "author").GetOr(JObj([]));
    var nickname := Get(author, "nickname");
    if nickname.Err? {
      return Err(nickname.error);
    }
    var ms := detail.value.members;
    r := Ok(Media(Lookup(ms, "aweme_id").GetOr(JNull), media.value.0, Lookup(ms, "desc").GetOr(JNull),
                  Lookup(ms, "create_time").GetOr(JNull), nickname.value, media.value.1));
  }

  /** The type-and-URLs part of `_process_data`. */
  method DetailMedia(detail: Json) returns (r: Result<(MediaType, seq<Json>), Exc>)
    ensures r == MediaOf(detail)
  {
    if !detail.JObj? {
      return Err(AttributeError);
    }
    var ms := detail.members;
    var images := Lookup(ms, "images").GetOr(JNull);
    var gallery := false;
    if Truthy(images) {
      var n := Len(images);
      if n.Err? {
        return Err(n.error);
      }
      gallery := n.value > 0;
    }
    if gallery {
      var items := Elements(images).value;
      var g := CollectGallery(items);
      if g.Err? {
        return Err(g.error);
      }
      r := Ok((if g.value.0 then MultiVideo else ImageSet, g.value.1));
    } else if Truthy(Lookup(ms, "video").GetOr(JNull)) {
      var videoList := PlayUrls(detail);
      if videoList.Err? {
        return Err(videoList.error);
      }
      if Truthy(videoList.value) {
        var first := Index(videoList.value, 0);
        if first.Err? {
          return Err(first.error);
        }
        r := Ok((SingleVideo, [first.value]));
      } else {
        r := Ok((SingleVideo, []));
      }
    } else {
      r := Ok((Unknown, []));
    }
  }

  /** The `for item in images` loop. */
  method CollectGallery(items: seq<Json>) returns (r: Result<(bool, seq<Json>), Exc>)
    ensures r == Gallery(items)
  {
    var hasVideoSegment := false;
    var mediaUrls: seq<Json> := [];
    var i := 0;
    while i < |items|
      invariant 0 <= i <= |items|
      invariant GalleryFrom(items, i, hasVideoSegment, mediaUrls) == Gallery(items)
    {
      var item := items[i];
      if !item.JObj? {
        return Err(AttributeError);
      }
      var added: seq<Json> := [];
      var video := Lookup(item.members, "video").GetOr(JNull);
      if Truthy(video) {
        hasVideoSegment := true;
        var videoList := PlayUrls(item);
        if videoList.Err? {
          return Err(videoList.error);
        }
        if Truthy(videoList.value) {
          var first := Index(videoList.value, 0);
          if first.Err? {
            return Err(first.error);
          }
          added := [first.value];
        }
      } else {
        var urlList := Lookup(item.members, "url_list").GetOr(JNull);
        if Truthy(urlList) {
          var last := Index(urlList, -1);
          if last.Err? {
            return Err(last.error);
          }
          added := [last.value];
        }
      }
      assert ItemUrls(item) == Ok((Truthy(video), added));
      mediaUrls := mediaUrls + added;
      i := i + 1;
    }
    r := Ok((hasVideoSegment, mediaUrls));
  }

  // Properties of the gallery loop

  /** The gallery loop gets through the items exactly when no item raises. */
  lemma {:induction false} GalleryOk(items: seq<Json>, i: nat, hasVideo: bool, urls: seq<Json>)
    requires i <= |items|
    ensures GalleryFrom(items, i, hasVideo, urls).Ok? <==> forall k | i <= k < |items| :: ItemUrls(items[k]).Ok?
    decreases |items| - i
  {
    if i < |items| && ItemUrls(items[i]).Ok? {
      var step := ItemUrls(items[i]).value;
      GalleryOk(items, i + 1, hasVideo || step.0, urls + step.1);
    }
  }

  /**
   * A gallery that gets through is multi-video exactly when some item is a video segment, and it
   * adds at most one URL per item after the ones gathered so far.
   */
  lemma {:induction false} GalleryShape(items: seq<Json>, i: nat, hasVideo: bool, urls: seq<Json>)
    requires i <= |items|
    requires GalleryFrom(items, i, hasVideo, urls).Ok?
    ensures var g := GalleryFrom(items, i, hasVideo, urls).value;
      && (g.0 <==> hasVideo || exists k | i <= k < |items| :: IsVideoSegment(items[k]))
      && |urls| <= |g.1| <= |urls| + |items| - i
      && g.1[..|urls|] == urls
    decreases |items| - i
  {
    if i < |items| {
      var step := ItemUrls(items[i]).value;
      var urls' := urls + step.1;
      GalleryShape(items, i + 1, hasVideo || step.0, urls');
      var g := GalleryFrom(items, i + 1, hasVideo || step.0, urls').value;
      assert g.1[..|urls|] == g.1[..|urls'|][..|urls|];
    }
  }

  /** What items `i`.. contribute, concatenated in item order, when none of them raises. */
  function Contributions(items: seq<Json>, i: nat): seq<Json>
    requires i <= |items|
    requires forall k | i <= k < |items| :: ItemUrls(items[k]).Ok?
    decreases |items| - i
  {
    if i == |items| then [] else ItemUrls(items[i]).value.1 + Contributions(items, i + 1)
  }

  /**
   * The URLs of a gallery that gets through are the ones gathered so far followed by each item's
   * contribution (a segment's first play URL, a picture's last `url_list` entry), in item order.
   */
  lemma {:induction false} GalleryUrls(items: seq<Json>, i: nat, hasVideo: bool, urls: seq<Json>)
    requires i <= |items|
    requires GalleryFrom(items, i, hasVideo, urls).Ok?
    ensures forall k | i <= k < |items| :: ItemUrls(items[k]).Ok?
    ensures GalleryFrom(items, i, hasVideo, urls).value.1 == urls + Contributions(items, i)
    decreases |items| - i
  {
    if i == |items| {
      assert urls + [] == urls;
    } else {
      GalleryStep(items, i, hasVideo, urls);
      var step := ItemUrls(items[i]).value;
      GalleryUrls(items, i + 1, hasVideo || step.0, urls + step.1);
      AppendAssociates(urls, step.1, Contributions(items, i + 1));
    }
  }

  /** A gallery that gets through item `i` goes on from item `i + 1` with that item's contribution. */
  lemma GalleryStep(items: seq<Json>, i: nat, hasVideo: bool, urls: seq<Json>)
    requires i < |items|
    requires GalleryFrom(items, i, hasVideo, urls).Ok?
    ensures ItemUrls(items[i]).Ok?
    ensures var step := ItemUrls(items[i]).value;
      GalleryFrom(items, i, hasVideo, urls) == GalleryFrom(items, i + 1, hasVideo || step.0, urls + step.1)
  {
  }

  /** Concatenation regroups. */
  lemma AppendAssociates(a: seq<Json>, b: seq<Json>, c: seq<Json>)
    ensures a + b + c == a + (b + c)
  {
  }

  /** The highest-resolution picture of an image item: the last `url_list` entry. */
  function LastPicture(item: Json): Json
    requires IsPicture(item)
  {
    var l := Lookup(item.members, "url_list").value.items;
    l[|l| - 1]
  }

  /** A picture item: a dict with no video and a non-empty `url_list` list. */
  predicate IsPicture(item: Json) {
    && item.JObj?
    && !IsVideoSegment(item)
    && Lookup(item.members, "url_list").Some?
    && Lookup(item.members, "url_list").value.JArr?
    && Lookup(item.members, "url_list").value.items != []
  }

  /** A picture item contributes its last `url_list` entry and no video flag. */
  lemma PictureItem(item: Json)
    requires IsPicture(item)
    ensures ItemUrls(item) == Ok((false, [LastPicture(item)]))
  {
  }

  /** The last `url_list` entries of the items from `i` on, in order. */
  function Pictures(items: seq<Json>, i: nat): (r: seq<Json>)
    requires i <= |items|
    requires forall k | 0 <= k < |items| :: IsPicture(items[k])
    ensures |r| == |items| - i
    ensures forall k | i <= k < |items| :: r[k - i] == LastPicture(items[k])
    decreases |items| - i
  {
    if i == |items| then [] else [LastPicture(items[i])] + Pictures(items, i + 1)
  }

  /** A gallery of pictures yields the last entry of each item's `url_list`, in item order. */
  lemma {:induction false} PictureGallery(items: seq<Json>, i: nat, urls: seq<Json>)
    requires i <= |items|
    requires forall k | 0 <= k < |items| :: IsPicture(items[k])
    ensures GalleryFrom(items, i, false, urls) == Ok((false, urls + Pictures(items, i)))
    decreases |items| - i
  {
    if i == |items| {
      assert urls + [] == urls;
    } else {
      PictureItem(items[i]);
      PictureGallery(items, i + 1, urls + [LastPicture(items[i])]);
      assert urls + [LastPicture(items[i])] + Pictures(items, i + 1) == urls + Pictures(items, i);
    }
  }

  /** A non-empty `images` list makes the record a gallery: multi-video exactly when some item is a segment. */
  lemma GalleryRecord(raw: Json, items: seq<Json>)
    requires raw.JObj? && Lookup(raw.members, "aweme_detail").Some?
    requires Lookup(raw.members, "aweme_detail").value.JObj?
    requires Lookup(Lookup(raw.members, "aweme_detail").value.members, "images") == Some(JArr(items))
    requires items != []
    requires ProcessSpec(raw).Ok?
    ensures ProcessSpec(raw).value.Media?
    ensures ProcessSpec(raw).value.mediaType in {ImageSet, MultiVideo}
    ensures ProcessSpec(raw).value.mediaType == MultiVideo <==> exists k | 0 <= k < |items| :: IsVideoSegment(items[k])
    ensures |ProcessSpec(raw).value.mediaUrls| <= |items|
  {
    var detail := Lookup(raw.members, "aweme_detail").value;
    assert Has(raw, "aweme_detail") == Ok(true);
    assert IsGallery(detail.members) == Ok(true);
    GalleryShape(items, 0, false, []);
  }

  /** With no non-empty `images`, a detail whose `video` is falsy is of unknown type with no URLs. */
  lemma NeitherIsUnknown(raw: Json)
    requires raw.JObj? && Lookup(raw.members, "aweme_detail").Some?
    requires Lookup(raw.members, "aweme_detail").value.JObj?
    requires !Truthy(Lookup(Lookup(raw.members, "aweme_detail").value.members, "images").GetOr(JNull))
    requires !Truthy(Lookup(Lookup(raw.members, "aweme_detail").value.members, "video").GetOr(JNull))
    requires ProcessSpec(raw).Ok?
    ensures ProcessSpec(raw).value.Media?
    ensures ProcessSpec(raw).value.mediaType == Unknown && ProcessSpec(raw).value.mediaUrls == []
  {
    assert Has(raw, "aweme_detail") == Ok(true);
  }

  // ---------------------------------------------------------------------------------------------
  // `parse`

  /** A call `parse` makes to a collaborator. */
  datatype Call = ResolveId(url: string) | FetchDetail(awemeId: Json, cookie: string)

  /**
   * `parse(share_text)`. `resolveId` stands for `get_aweme_id` and `api` for the signed detail
   * request (given the aweme id and the cookie header). The result is the returned dict and the
   * calls made, in order.
   */
  function Parse(p: Parser, shareText: string, resolveId: string -> Result<Json, Exc>,
                 api: (Json, string) -> Result<ApiReply, Exc>): (r: (Record, seq<Call>))
    ensures r.1 == [] <==> ExtractUrl(shareText).None?
    ensures r.1 == [] ==> r.0 == Failure(NoUrlFound, None)
    ensures |r.1| <= 2
    ensures |r.1| >= 1 ==> r.1[0] == ResolveId(ExtractUrl(shareText).value)
    ensures |r.1| == 2 <==> ExtractUrl(shareText).Some? && resolveId(ExtractUrl(shareText).value).Ok?
                            && Truthy(resolveId(ExtractUrl(shareText).value).value)
    ensures |r.1| == 2 ==> r.1[1] == FetchDetail(resolveId(ExtractUrl(shareText).value).value, p.cookie)
    ensures |r.1| == 1 ==> r.0.Failure? && r.0.error == IdFailed && r.0.details.Some?
    ensures |r.1| == 2 && FetchVideoData(r.1[1].awemeId, api(r.1[1].awemeId, p.cookie)).Err? ==>
      r.0 == Failure(FetchFailed, Some(FetchVideoData(r.1[1].awemeId, api(r.1[1].awemeId, p.cookie)).error))
    ensures |r.1| == 2 && FetchVideoData(r.1[1].awemeId, api(r.1[1].awemeId, p.cookie)).Ok? ==>
      var processed := ProcessSpec(FetchVideoData(r.1[1].awemeId, api(r.1[1].awemeId, p.cookie)).value);
      r.0 == if processed.Ok? then processed.value else Failure(FetchFailed, Some(processed.error))
    ensures r.0.Media? ==>
      |r.1| == 2 && FetchVideoData(r.1[1].awemeId, api(r.1[1].awemeId, p.cookie)).Ok?
      && Ok(r.0) == ProcessSpec(FetchVideoData(r.1[1].awemeId, api(r.1[1].awemeId, p.cookie)).value)
  {
    match ExtractUrl(shareText)
    case None => (Failure(NoUrlFound, None), [])
    case Some(url) =>
      match resolveId(url)
      case Err(e) => (Failure(IdFailed, Some(e)), [ResolveId(url)])
      case Ok(awemeId) =>
        if !Truthy(awemeId) then (Failure(IdFailed, Some(NoAwemeId)), [ResolveId(url)])
        else
          var calls := [ResolveId(url), FetchDetail(awemeId, p.cookie)];
          match FetchVideoData(awemeId, api(awemeId, p.cookie))
          case Err(e) => (Failure(FetchFailed, Some(e)), calls)
          case Ok(raw) =>
            match ProcessSpec(raw)
            case Err(e) => (Failure(FetchFailed, Some(e)), calls)
            case Ok(record) => (record, calls)
  }
}
