/**
 * The third-party-API Douyin path (`douyin_get.py`): fetch the parsed aweme from an HTTP API,
 * pick the download links by media type, download each one under the plugin's `dy` directory and
 * report the saved paths.
 */
module DouyinGet {
  import opened Wrappers
  import opened Text
  import opened PyData
  import DouyinDownload

  // ---------------------------------------------------------------------------------------------
  // get_douyin_data

  /** The query `get_douyin_data` sends: the API URL with the `url` and `minimal` parameters. */
  datatype ApiQuery = ApiQuery(apiUrl: string, url: string, minimal: string)

  /**
   * What the API did. `body` is the JSON the body decodes to, `None` when it is not JSON; an
   * empty body decodes to `JNull`, as `aiohttp` returns `None` for it.
   */
  datatype ApiAnswer =
    | Unreachable
    | Answered(status: int, jsonContentType: bool, body: Option<Json>)

  /** The query of `process_douyin`: `minimal=False` is sent as the string `"False"`. */
  function Query(url: string, apiUrl: string): (q: ApiQuery)
    ensures q.url == url && q.apiUrl == apiUrl && q.minimal == "False"
  {
    ApiQuery(apiUrl, url, "False")
  }

  /**
   * `get_douyin_data`: every `aiohttp.ClientError` (no connection, a status of 400 or more, a
   * non-JSON content type) gives `None`; a JSON content type over a body that is not JSON raises.
   */
  function GetDouyinData(answer: ApiAnswer): (r: Result<Option<Json>, Exc>)
    ensures r == Ok(None) <==> answer.Unreachable? || answer.status >= 400 || !answer.jsonContentType
    ensures r.Err? <==> answer.Answered? && answer.status < 400 && answer.jsonContentType && answer.body.None?
    ensures r.Err? ==> r.error == JsonDecodeError
    ensures r.Ok? && r.value.Some? ==> r.value == answer.body
  {
    match answer
    case Unreachable => Ok(None)
    case Answered(status, jsonContentType, body) =>
      if status >= 400 || !jsonContentType then Ok(None)
      else if body.None? then Err(JsonDecodeError)
      else Ok(body)
  }

  // ---------------------------------------------------------------------------------------------
  // parse_douyin_data

  datatype Kind = ImageKind | VideoKind

  /** The dict `parse_douyin_data` returns; `kind` is `None` for a media type it does not know. */
  datatype Parsed = Parsed(kind: Option<Kind>, isMultiPart: bool, count: nat, links: seq<Json>, title: Json)

  /** `image["url_list"][0]` */
  function ImageLink(image: Json): Result<Json, Exc> {
    var urlList :- Subscript(image, "url_list");
    Index(urlList, 0)
  }

  /** The third URL of a segment's H.264 play address when it is truthy, else the segment's own third URL. */
  function SegmentLink(video: Json): Result<Json, Exc> {
    var inner :- Subscript(video, "video");
    var playAddr :- Subscript(inner, "play_addr_h264");
    var urlList :- Subscript(playAddr, "url_list");
    var h264 :- Index(urlList, 2);
    if Truthy(h264) then Ok(h264)
    else
      var own :- Subscript(video, "url_list");
      Index(own, 2)
  }

  /** `video["play_addr"]["url_list"][2]` */
  function VideoLink(video: Json): Result<Json, Exc> {
    var playAddr :- Subscript(video, "play_addr");
    var urlList :- Subscript(playAddr, "url_list");
    Index(urlList, 2)
  }

  /** A `for` loop appending `link(item)` for the items from `i` on to `acc`. */
  function Collect(items: seq<Json>, i: nat, link: Json -> Result<Json, Exc>, acc: seq<Json>): Result<seq<Json>, Exc>
    requires i <= |items|
    decreases |items| - i
  {
    if i == |items| then Ok(acc)
    else
      var l :- link(items[i]);
      Collect(items, i + 1, link, acc + [l])
  }

  /** The loop gets through exactly when no item raises, and then appends each item's link in order. */
  lemma {:induction false} CollectLinks(items: seq<Json>, i: nat, link: Json -> Result<Json, Exc>, acc: seq<Json>)
    requires i <= |items|
    ensures Collect(items, i, link, acc).Ok? <==> forall k | i <= k < |items| :: link(items[k]).Ok?
    ensures Collect(items, i, link, acc).Ok? ==>
      var r := Collect(items, i, link, acc).value;
      && |r| == |acc| + |items| - i && r[..|acc|] == acc
      && forall k | i <= k < |items| :: r[|acc| + k - i] == link(items[k]).value
    decreases |items| - i
  {
    if i < |items| && link(items[i]).Ok? {
      var acc' := acc + [link(items[i]).value];
      CollectLinks(items, i + 1, link, acc');
      if Collect(items, i + 1, link, acc').Ok? {
        var r := Collect(items, i + 1, link, acc').value;
        assert r[..|acc|] == r[..|acc'|][..|acc|];
        assert r[|acc|] == r[..|acc'|][|acc|];
      }
    }
  }

  /** `parse_douyin_data(data)`; `Err` is the exception it raises. */
  function ParseSpec(data: Json): (r: Result<Parsed, Exc>)
    ensures r.Ok? && r.value.kind.Some? && !r.value.isMultiPart ==> |r.value.links| == 1
    ensures r.Ok? && r.value.kind.None? ==> r.value == Parsed(None, false, 0, [], r.value.title)
  {
    var d :- Subscript(data, "data");
    var title :- Subscript(d, "aweme_id");
    var mediaType :- Subscript(d, "media_type");
    if EqualsInt(mediaType, 2) then
      var images :- Subscript(d, "images");
      var n :- Len(images);
      if n > 1 then
        var items := Elements(images).value;
        var links :- Collect(items, 0, ImageLink, []);
        Ok(Parsed(Some(ImageKind), true, n, links, title))
      else
        var first :- Index(images, 0);
        var link :- ImageLink(first);
        Ok(Parsed(Some(ImageKind), false, n, [link], title))
    else if EqualsInt(mediaType, 42) then
      var videos :- Subscript(d, "images");
      var n :- Len(videos);
      var items := Elements(videos).value;
      var links :- Collect(items, 0, SegmentLink, []);
      Ok(Parsed(Some(VideoKind), true, n, links, title))
    else if EqualsInt(mediaType, 4) then
      var video :- Subscript(d, "video");
      var link :- VideoLink(video);
      Ok(Parsed(Some(VideoKind), false, 0, [link], title))
    else Ok(Parsed(None, false, 0, [], title))
  }

  /** `parse_douyin_data`, with its loops. */
  method ParseDouyinData(data: Json) returns (r: Result<Parsed, Exc>)
    ensures r == ParseSpec(data)
  {
    var d := Subscript(data, "data");
    if d.Err? {
      return Err(d.error);
    }
    var title := Subscript(d.value, "aweme_id");
    if title.Err? {
      return Err(title.error);
    }
    var mediaType := Subscript(d.value, "media_type");
    if mediaType.Err? {
      return Err(mediaType.error);
    }
    if EqualsInt(mediaType.value, 2) {
      var images := Subscript(d.value, "images");
      if images.Err? {
        return Err(images.error);
      }
      var n := Len(images.value);
      if n.Err? {
        return Err(n.error);
      }
      if n.value > 1 {
        var items := Elements(images.value);
        var links := AppendLinks(items.value, ImageLink);
        if links.Err? {
          return Err(links.error);
        }
        r := Ok(Parsed(Some(ImageKind), true, n.value, links.value, title.value));
      } else {
        var first := Index(images.value, 0);
        if first.Err? {
          return Err(first.error);
        }
        var link := ImageLink(first.value);
        if link.Err? {
          return Err(link.error);
        }
        r := Ok(Parsed(Some(ImageKind), false, n.value, [link.value], title.value));
      }
    } else if EqualsInt(mediaType.value, 42) {
      var videos := Subscript(d.value, "images");
      if videos.Err? {
        return Err(videos.error);
      }
      var n := Len(videos.value);
      if n.Err? {
        return Err(n.error);
      }
      var items := Elements(videos.value);
      var links := AppendLinks(items.value, SegmentLink);
      if links.Err? {
        return Err(links.error);
      }
      r := Ok(Parsed(Some(VideoKind), true, n.value, links.value, title.value));
    } else if EqualsInt(mediaType.value, 4) {
      var video := Subscript(d.value, "video");
      if video.Err? {
        return Err(video.error);
      }
      var link := VideoLink(video.value);
      if link.Err? {
        return Err(link.error);
      }
      r := Ok(Parsed(Some(VideoKind), false, 0, [link.value], title.value));
    } else {
      r := Ok(Parsed(None, false, 0, [], title.value));
    }
  }

  /** `for item in items: links.append(link(item))` */
  method AppendLinks(items: seq<Json>, link: Json -> Result<Json, Exc>) returns (r: Result<seq<Json>, Exc>)
    ensures r == Collect(items, 0, link, [])
  {
    var links: seq<Json> := [];
    var i := 0;
    while i < |items|
      invariant 0 <= i <= |items|
      invariant Collect(items, i, link, links) == Collect(items, 0, link, [])
    {
      var l := link(items[i]);
      if l.Err? {
        return Err(l.error);
      }
      links := links + [l.value];
      i := i + 1;
    }
    r := Ok(links);
  }

  /**
   * The fields of a parsed aweme: a picture post is multi-part exactly when it has more than one
   * picture, a multi-part video (42) is always multi-part, a single video (4) keeps a count of 0
   * although it has one link, the count of a picture or multi-part video post is `len(images)`, and
   * the count of a multi-part post is its number of links. A single
   * video's link is `video["play_addr"]["url_list"][2]`, a single picture's `images[0]["url_list"][0]`.
   */
  lemma ParsedFields(data: Json)
    requires ParseSpec(data).Ok?
    ensures var p := ParseSpec(data).value;
      var mediaType := Subscript(Subscript(data, "data").value, "media_type").value;
      && (p.kind == Some(ImageKind) <==> EqualsInt(mediaType, 2))
      && (p.kind == Some(VideoKind) <==> EqualsInt(mediaType, 42) || EqualsInt(mediaType, 4))
      && (p.kind == Some(ImageKind) ==> (p.isMultiPart <==> p.count > 1))
      && (EqualsInt(mediaType, 42) ==> p.isMultiPart)
      && (EqualsInt(mediaType, 4) ==> !p.isMultiPart && p.count == 0 && |p.links| == 1)
      && (p.isMultiPart ==> p.count == |p.links|)
      && (EqualsInt(mediaType, 2) || EqualsInt(mediaType, 42) ==>
            Len(Subscript(Subscript(data, "data").value, "images").value) == Ok(p.count))
      && p.title == Subscript(Subscript(data, "data").value, "aweme_id").value
    ensures var p := ParseSpec(data).value;
      var d := Subscript(data, "data").value;
      && (EqualsInt(Subscript(d, "media_type").value, 4) ==>
            p.links == [VideoLink(Subscript(d, "video").value).value])
      && (EqualsInt(Subscript(d, "media_type").value, 2) && !p.isMultiPart ==>
            p.links == [ImageLink(Index(Subscript(d, "images").value, 0).value).value])
  {
    var d := Subscript(data, "data").value;
    var mediaType := Subscript(d, "media_type").value;
    if EqualsInt(mediaType, 2) || EqualsInt(mediaType, 42) {
      var images := Subscript(d, "images").value;
      if Len(images).value > 1 || EqualsInt(mediaType, 42) {
        var items := Elements(images).value;
        CollectLinks(items, 0, if EqualsInt(mediaType, 2) then ImageLink else SegmentLink, []);
      }
    }
  }

  /**
   * A multi-part post has one link per item, in item order: a picture's first `url_list` entry
   * (type 2), a segment's H.264 or own third URL (type 42).
   */
  lemma MultiPartLinks(data: Json, items: seq<Json>)
    requires Subscript(data, "data").Ok?
    requires Subscript(Subscript(data, "data").value, "images") == Ok(JArr(items))
    requires var mediaType := Subscript(Subscript(data, "data").value, "media_type");
      mediaType == Ok(JInt(42)) || (mediaType == Ok(JInt(2)) && |items| > 1)
    requires ParseSpec(data).Ok?
    ensures |ParseSpec(data).value.links| == |items|
    ensures Subscript(Subscript(data, "data").value, "media_type") == Ok(JInt(2)) ==>
      forall k | 0 <= k < |items| :: ImageLink(items[k]) == Ok(ParseSpec(data).value.links[k])
    ensures Subscript(Subscript(data, "data").value, "media_type") == Ok(JInt(42)) ==>
      forall k | 0 <= k < |items| :: SegmentLink(items[k]) == Ok(ParseSpec(data).value.links[k])
  {
    if Subscript(Subscript(data, "data").value, "media_type") == Ok(JInt(2)) {
      CollectLinks(items, 0, ImageLink, []);
    } else {
      CollectLinks(items, 0, SegmentLink, []);
    }
  }

  // ---------------------------------------------------------------------------------------------
  // process_douyin

  /** Where `process_douyin` saves. */
  const SaveDirectory: string := "data/plugins/astrbot_plugin_videos_analysis/download_videos/dy"

  function Extension(kind: Kind): string {
    match kind
    case ImageKind => ".jpg"
    case VideoKind => ".mp4"
  }

  /** `f"{opt_path}/{title}-Part{i}{ext}"` */
  function PartPath(title: Json, i: nat, ext: string): string {
    SaveDirectory + "/" + Show(title) + "-Part" + NatToString(i) + ext
  }

  /** `f"{opt_path}/{title}{ext}"`: a name directly under the download directory. */
  function SinglePath(title: Json, ext: string): (r: string)
    ensures StartsWith(r, SaveDirectory + "/")
    ensures r[|SaveDirectory| + 1..] == Show(title) + ext
  {
    SaveDirectory + "/" + Show(title) + ext
  }

  /** The (link, destination) pairs `process_douyin` downloads, in order; parts are numbered from 1. */
  function Saves(p: Parsed): (r: seq<(Json, string)>)
    requires p.kind.Some? && !p.isMultiPart ==> |p.links| >= 1
    ensures p.kind.None? ==> r == []
    ensures p.kind.Some? && p.isMultiPart ==>
      && |r| == |p.links|
      && forall k | 0 <= k < |r| :: r[k] == (p.links[k], PartPath(p.title, k + 1, Extension(p.kind.value)))
    ensures p.kind.Some? && !p.isMultiPart ==> r == [(p.links[0], SinglePath(p.title, Extension(p.kind.value)))]
  {
    if p.kind.None? then []
    else
      var ext := Extension(p.kind.value);
      if p.isMultiPart then seq(|p.links|, k requires 0 <= k < |p.links| => (p.links[k], PartPath(p.title, k + 1, ext)))
      else [(p.links[0], SinglePath(p.title, ext))]
  }

  /** The dict `process_douyin` returns; its `title` is never set. */
  datatype Processed = Processed(kind: Option<Kind>, isMultiPart: bool, count: nat, savePaths: seq<string>, title: Option<string>)

  /** A run of `process_douyin`: its result, the `download(link, filename)` calls it made, and the world after. */
  datatype Run = Run(result: Result<Option<Processed>, Exc>, downloads: seq<(string, string)>, world: DouyinDownload.World)

  /**
   * The downloads from pair `i` on, after the calls `done`: each is `download(link, filename=path)`
   * with no cookie. A link that is not a string makes the call raise.
   */
  function DownloadsFrom(saves: seq<(Json, string)>, i: nat, done: seq<(string, string)>,
                         w: DouyinDownload.World, script: seq<DouyinDownload.Reply>)
    : (r: (Option<Exc>, seq<(string, string)>, DouyinDownload.World))
    requires i <= |saves|
    decreases |saves| - i
  {
    if i == |saves| then (None, done, w)
    else if !saves[i].0.JStr? then (Some(TypeError), done, w)
    else
      var link := saves[i].0.s;
      var path := saves[i].1;
      DownloadsFrom(saves, i + 1, done + [(link, path)], DouyinDownload.DownloadSpec(link, path, None, w, script).world, script)
  }

  /** What `process_douyin(url, api_url)` does, given the API's answer to its query and the download script. */
  function ProcessSpec(answer: ApiAnswer, w: DouyinDownload.World, script: seq<DouyinDownload.Reply>): Run {
    match GetDouyinData(answer)
    case Err(e) => Run(Err(e), [], w)
    case Ok(data) =>
      if data.None? || !Truthy(data.value) then Run(Ok(None), [], w)
      else
        match ParseSpec(data.value)
        case Err(e) => Run(Err(e), [], w)
        case Ok(p) =>
          var saves := Saves(p);
          var (failure, downloads, w') := DownloadsFrom(saves, 0, [], w, script);
          if failure.Some? then Run(Err(failure.value), downloads, w')
          else Run(Ok(Some(Processed(p.kind, p.isMultiPart, if p.kind.Some? then p.count else 0,
                                     seq(|saves|, k requires 0 <= k < |saves| => saves[k].1), None))),
                   downloads, w')
  }

  /** `process_douyin`: `api` answers the query, `script` serves the downloads. */
  method ProcessDouyin(url: string, apiUrl: string, api: ApiQuery -> ApiAnswer,
                       w0: DouyinDownload.World, script: seq<DouyinDownload.Reply>)
    returns (result: Result<Option<Processed>, Exc>, downloads: seq<(string, string)>, w: DouyinDownload.World)
    ensures Run(result, downloads, w) == ProcessSpec(api(Query(url, apiUrl)), w0, script)
  {
    downloads, w := [], w0;
    var videoData := GetDouyinData(api(Query(url, apiUrl)));
    if videoData.Err? {
      return Err(videoData.error), downloads, w;
    }
    if videoData.value.None? || !Truthy(videoData.value.value) {
      return Ok(None), downloads, w;
    }
    var data := ParseDouyinData(videoData.value.value);
    if data.Err? {
      return Err(data.error), downloads, w;
    }
    var p := data.value;
    var saves := Saves(p);
    var failure;
    failure, downloads, w := DownloadEach(saves, w0, script);
    if failure.Some? {
      return Err(failure.value), downloads, w;
    }
    var savePaths := seq(|saves|, k requires 0 <= k < |saves| => saves[k].1);
    result := Ok(Some(Processed(p.kind, p.isMultiPart, if p.kind.Some? then p.count else 0, savePaths, None)));
  }

  /** The `for i, download_link in enumerate(...)` loop (one pass for a single download). */
  method DownloadEach(saves: seq<(Json, string)>, w0: DouyinDownload.World, script: seq<DouyinDownload.Reply>)
    returns (failure: Option<Exc>, downloads: seq<(string, string)>, w: DouyinDownload.World)
    ensures (failure, downloads, w) == DownloadsFrom(saves, 0, [], w0, script)
  {
    downloads, w := [], w0;
    var i := 0;
    while i < |saves|
      invariant 0 <= i <= |saves|
      invariant DownloadsFrom(saves, i, downloads, w, script) == DownloadsFrom(saves, 0, [], w0, script)
    {
      var (link, path) := saves[i];
      if !link.JStr? {
        return Some(TypeError), downloads, w;
      }
      var ignored;
      ignored, w := DouyinDownload.Download(link.s, path, None, w, script);
      downloads := downloads + [(link.s, path)];
      i := i + 1;
    }
    failure := None;
  }

  /**
   * The failure and the (link, path) pairs `DownloadsFrom` hands to `download`, neither of which
   * depends on what the downloads do.
   */
  function CallsFrom(saves: seq<(Json, string)>, i: nat, done: seq<(string, string)>): (Option<Exc>, seq<(string, string)>)
    requires i <= |saves|
    decreases |saves| - i
  {
    if i == |saves| then (None, done)
    else if !saves[i].0.JStr? then (Some(TypeError), done)
    else CallsFrom(saves, i + 1, done + [(saves[i].0.s, saves[i].1)])
  }

  /** The failure and calls `DownloadsFrom` records are `CallsFrom`, whatever the downloads leave behind. */
  lemma {:induction false} CallsIgnoreWorld(saves: seq<(Json, string)>, i: nat, done: seq<(string, string)>,
                                            w: DouyinDownload.World, script: seq<DouyinDownload.Reply>)
    requires i <= |saves|
    ensures var r := DownloadsFrom(saves, i, done, w, script); (r.0, r.1) == CallsFrom(saves, i, done)
    decreases |saves| - i
  {
    if i < |saves| && saves[i].0.JStr? {
      var link := saves[i].0.s;
      var w' := DouyinDownload.DownloadSpec(link, saves[i].1, None, w, script).world;
      CallsIgnoreWorld(saves, i + 1, done + [(link, saves[i].1)], w', script);
    }
  }

  /** `CallsFrom` keeps the calls made so far and adds one per string link, in order. */
  lemma {:induction false} CallsInOrder(saves: seq<(Json, string)>, i: nat, done: seq<(string, string)>)
    requires i <= |saves|
    ensures var calls := CallsFrom(saves, i, done).1;
      && |done| <= |calls| <= |done| + |saves| - i && calls[..|done|] == done
      && forall k | i <= k < i + |calls| - |done| ::
           saves[k].0 == JStr(calls[|done| + k - i].0) && saves[k].1 == calls[|done| + k - i].1
    decreases |saves| - i
  {
    if i < |saves| && saves[i].0.JStr? {
      var done' := done + [(saves[i].0.s, saves[i].1)];
      CallsInOrder(saves, i + 1, done');
      var calls := CallsFrom(saves, i + 1, done').1;
      assert calls[..|done|] == calls[..|done'|][..|done|];
      assert calls[|done|] == calls[..|done'|][|done|];
      forall k | i <= k < i + |calls| - |done|
        ensures saves[k].0 == JStr(calls[|done| + k - i].0) && saves[k].1 == calls[|done| + k - i].1
      {
        if k > i {
          assert |done'| + k - (i + 1) == |done| + k - i;
        }
      }
    }
  }

  /** The downloads are made in order, each link to the path reported for it, and the calls only grow. */
  lemma DownloadsInOrder(saves: seq<(Json, string)>, i: nat, done: seq<(string, string)>,
                         w: DouyinDownload.World, script: seq<DouyinDownload.Reply>)
    requires i <= |saves|
    ensures var calls := DownloadsFrom(saves, i, done, w, script).1;
      && |done| <= |calls| <= |done| + |saves| - i && calls[..|done|] == done
      && forall k | i <= k < i + |calls| - |done| ::
           saves[k].0 == JStr(calls[|done| + k - i].0) && saves[k].1 == calls[|done| + k - i].1
  {
    CallsIgnoreWorld(saves, i, done, w, script);
    CallsInOrder(saves, i, done);
  }

  /** The downloads get through, making one call per pair, exactly when every link is a string. */
  lemma DownloadsComplete(saves: seq<(Json, string)>, i: nat, done: seq<(string, string)>,
                          w: DouyinDownload.World, script: seq<DouyinDownload.Reply>)
    requires i <= |saves|
    ensures var r := DownloadsFrom(saves, i, done, w, script);
      && (r.0.None? <==> forall k | i <= k < |saves| :: saves[k].0.JStr?)
      && (r.0.None? ==> |r.1| == |done| + |saves| - i)
  {
    CallsIgnoreWorld(saves, i, done, w, script);
    CallsComplete(saves, i, done);
  }

  /** `CallsFrom` fails exactly on a link that is not a string, and otherwise makes one call per link. */
  lemma {:induction false} CallsComplete(saves: seq<(Json, string)>, i: nat, done: seq<(string, string)>)
    requires i <= |saves|
    ensures var r := CallsFrom(saves, i, done);
      && (r.0.None? <==> forall k | i <= k < |saves| :: saves[k].0.JStr?)
      && (r.0.None? ==> |r.1| == |done| + |saves| - i)
    decreases |saves| - i
  {
    if i < |saves| && saves[i].0.JStr? {
      CallsComplete(saves, i + 1, done + [(saves[i].0.s, saves[i].1)]);
    }
  }

  /**
   * `process_douyin` returns `None` exactly when the API gave nothing usable (no answer, an error
   * status, a non-JSON content type, or a falsy JSON body), and then downloads nothing.
   */
  lemma NoneWhenNothingFetched(answer: ApiAnswer, w: DouyinDownload.World, script: seq<DouyinDownload.Reply>)
    ensures var r := ProcessSpec(answer, w, script);
      && (r.result == Ok(None) <==>
            || answer.Unreachable? || answer.status >= 400 || !answer.jsonContentType
            || (answer.body.Some? && !Truthy(answer.body.value)))
      && (r.result == Ok(None) ==> r.downloads == [] && r.world == w)
  {
    var r := ProcessSpec(answer, w, script);
    match GetDouyinData(answer)
    case Err(_) =>
    case Ok(data) =>
      if data.Some? && Truthy(data.value) && ParseSpec(data.value).Ok? {
        var saves := Saves(ParseSpec(data.value).value);
        DownloadsInOrder(saves, 0, [], w, script);
      }
  }

  /**
   * A successful run reports, for each download in order, the destination it was downloaded to:
   * the reported paths are the downloads' filenames, whatever each download's outcome.
   */
  lemma SavedPathsAreDownloads(answer: ApiAnswer, w: DouyinDownload.World, script: seq<DouyinDownload.Reply>)
    requires ProcessSpec(answer, w, script).result.Ok?
    requires ProcessSpec(answer, w, script).result.value.Some?
    ensures var r := ProcessSpec(answer, w, script);
      var out := r.result.value.value;
      && |out.savePaths| == |r.downloads|
      && (forall k | 0 <= k < |out.savePaths| :: out.savePaths[k] == r.downloads[k].1)
      && out.title == None
  {
    var data := GetDouyinData(answer).value.value;
    var saves := Saves(ParseSpec(data).value);
    DownloadsInOrder(saves, 0, [], w, script);
    DownloadsComplete(saves, 0, [], w, script);
  }

  /**
   * A successful run reports the parse's kind and multi-part flag, its count (0 when the kind is
   * unknown), and as save paths the destinations of `Saves`, in order.
   */
  lemma ProcessedFromParse(answer: ApiAnswer, w: DouyinDownload.World, script: seq<DouyinDownload.Reply>)
    requires ProcessSpec(answer, w, script).result.Ok?
    requires ProcessSpec(answer, w, script).result.value.Some?
    ensures GetDouyinData(answer).Ok? && GetDouyinData(answer).value.Some?
    ensures ParseSpec(GetDouyinData(answer).value.value).Ok?
    ensures var p := ParseSpec(GetDouyinData(answer).value.value).value;
      var out := ProcessSpec(answer, w, script).result.value.value;
      && out.kind == p.kind && out.isMultiPart == p.isMultiPart
      && out.count == (if p.kind.Some? then p.count else 0)
      && |out.savePaths| == |Saves(p)|
      && forall k | 0 <= k < |out.savePaths| :: out.savePaths[k] == Saves(p)[k].1
  {
  }
}
