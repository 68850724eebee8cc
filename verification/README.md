# astrbot_plugin_videos_analysis — a Dafny model of the share-link pipeline

The plugin turns a share link posted in a chat into media. For Douyin it resolves the link and asks
a parsing API or the Douyin detail endpoint for the post. It then picks the download links and
fetches every image or video into a fixed download directory. For Xiaohongshu it asks one of two
parsing endpoints and measures each video with a HEAD request. Three helpers sit beside the pipeline:
- a cookie normaliser, which keeps twelve Douyin cookies in a fixed order;
- a sweep, which deletes downloaded files older than a threshold;
- a URL fixer for the MC百科 scraper.

This project models that core in Dafny and proves what each operation promises.

Modules follow the source files:

| module | file |
|---|---|
| `CookieExtractor` | `douyin_scraper/cookie_extractor.py` |
| `DouyinParser` | `douyin_scraper/douyin_parser.py` |
| `DouyinDownload` | `douyin_download.py` |
| `DouyinGet` | `douyin_get.py` |
| `XhsGet` | `xhs_get.py` |
| `AutoDelete` | `auto_delete.py` |
| `McmodGet` | `mcmod_get.py` (only `fix_url`) |

Three support modules model the Python they rely on:
- `Wrappers`: `Option` and `Result`.
- `Text`: `split`, `strip`, `isspace`, `lower`, `in` on strings, and `str` of a natural number.
- `PyData`: a JSON value with dict and list access, and the exceptions that access raises
  (`KeyError`, `TypeError`, `IndexError`, `AttributeError`).

A dict is a sequence of members in insertion order, as Python keeps it.

The outside world is passed in as values.

**Network.** An HTTP exchange is answered by the next reply of a script (`seq<Reply>`). A request past
the end of the script fails with a connection error. `Reply.Response` carries:
- the status;
- the body length;
- the `Location` header;
- whether reading the body breaks off.

**Files.** The filesystem is a map from path to size.

**Time.** Sleeps appear as events in the trace.

**World.** A `World` holds the files, the number of replies served and the trace of events. Every
download method returns the world after it.

**Other services.** The aweme-id resolver, the signed detail endpoint, the parsing APIs and the HEAD
probes are function parameters.

Loops that the source writes as loops are `while` loops in methods. Each method is proved equal to a
recursive specification function. The lemmas then state the properties about that function.

**Two readings of the video download.** After a 403, `download_video` reads the mobile response once
the `async with` block that opened it has released it (see "Findings"). The video functions take a
`Reading`:
- as written, that body read breaks off;
- intended, the mobile response is streamed.

The methods, `download` and `process_douyin` run the code as written. Lemmas that hold either way
take the reading as a parameter.

## Model

| member | source | states |
|---|---|---|
| `CookieExtractor.ExtractDouyinCookies` | douyin_scraper/cookie_extractor.py:9-66 | The returned triple is `Extract(raw)`. The extracted dict has exactly the twelve required names as keys. Each value is the parsed cookie value, or `"xxx"` when that cookie is absent. |
| `CookieExtractor.ParseCookieDict` | douyin_scraper/cookie_extractor.py:32-40 | The dict equals the bindings of the space-free, `;`-split segments. A string without `=` gives the empty dict. |
| `CookieExtractor.BindPairs` | douyin_scraper/cookie_extractor.py:37-40 | The loop over the segments binds every segment that holds `=`, in order. |
| `CookieExtractor.ExtractRequired` | douyin_scraper/cookie_extractor.py:42-45 | The result has exactly the required names as keys, each with its looked-up value or the placeholder. |
| `CookieExtractor.MissingFields` | douyin_scraper/cookie_extractor.py:47-51 | The missing names are the required names, in order, whose value is `"xxx"` or empty. |
| `CookieExtractor.FormatCookie` | douyin_scraper/cookie_extractor.py:57-64 | The formatted string is the `;`-join of `name=value` in the required order, plus a final `;`. |
| `CookieExtractor.ExtractAndFormatCookies` | douyin_scraper/cookie_extractor.py:70-81 | The formatted string of the full extraction, laid out as `name=value;` for each of the twelve names in order. |
| `CookieExtractor.JoinThenSemicolon` | douyin_scraper/cookie_extractor.py:64 | Joining with `;` and appending `;` terminates every part with `;`. |
| `CookieExtractor.TerminatedPairs` | douyin_scraper/cookie_extractor.py:58-64 | The terminated pairs are the concatenated `name=value;` fields. |
| `CookieExtractor.FormattedLayout` | douyin_scraper/cookie_extractor.py:57-66 | The formatted cookie equals the fields of the extracted dict, in the required order. |
| `CookieExtractor.LastValueWins` | douyin_scraper/cookie_extractor.py:37-40 | A cookie named in several segments keeps the value of the last of them. |
| `CookieExtractor.UnboundAbsent` | douyin_scraper/cookie_extractor.py:37-40 | A name no segment binds is absent from the dict. |
| `CookieExtractor.SplitAtFirstEquals` | douyin_scraper/cookie_extractor.py:39-40 | A segment splits at its first `=`, with name and value both stripped. The value may itself contain `=`. |
| `CookieExtractor.BindCommutes` | douyin_scraper/cookie_extractor.py:37-40 | Binding two segments with different names gives the same dict in either order. |
| `CookieExtractor.SwapAdjacent` | douyin_scraper/cookie_extractor.py:36-40 | Swapping two adjacent segments with different names does not change the dict. |
| `CookieExtractor.MissingAmongMembers` | douyin_scraper/cookie_extractor.py:48-51 | A name is reported missing iff it is listed and its value is `"xxx"` or empty. |
| `CookieExtractor.KeepInEmpty` | douyin_scraper/cookie_extractor.py:54-55 | The filtered list is empty iff no listed name is among the missing ones. |
| `CookieExtractor.ValidIff` | douyin_scraper/cookie_extractor.py:47-55 | The cookie is valid iff each of the four critical cookies is present with a value that is neither `"xxx"` nor empty. |
| `CookieExtractor.ValidityIgnoresNonCritical` | douyin_scraper/cookie_extractor.py:53-55 | Two inputs that agree on the critical cookies agree on validity. |
| `CookieExtractor.OrderIndependent` | douyin_scraper/cookie_extractor.py:42-66 | Two inputs that agree on the twelve required cookies give the same extraction. |
| `CookieExtractor.NoEqualsAllPlaceholders` | douyin_scraper/cookie_extractor.py:34-45 | Input without `=` gives `"xxx"` for every cookie and twelve `name=xxx;` fields, and it is invalid. |
| `CookieExtractor.NoEqualsFormatted` | douyin_scraper/cookie_extractor.py:34-64 | Input without `=` extracts as from the empty dict. |
| `CookieExtractor.NoEqualsInvalid` | douyin_scraper/cookie_extractor.py:34-55 | Input without `=` is never valid. |
| `CookieExtractor.FieldsAgree` | douyin_scraper/cookie_extractor.py:58-64 | The formatted fields depend only on the values of the listed names. |
| `CookieExtractor.EmptyValueKept` | douyin_scraper/cookie_extractor.py:40-55 | An empty value is kept as empty, not replaced by `"xxx"`. An empty critical cookie makes the cookie invalid. |
| `DouyinDownload.CleanCookie` | douyin_download.py:11-22 | The cleaned cookie is ASCII only. A falsy cookie gives `""`. |
| `DouyinDownload.FilterField` | douyin_download.py:19-22 | Dropping non-ASCII characters from one `name=value;` field with an ASCII name drops them from the value only. |
| `DouyinDownload.FilterFields` | douyin_download.py:19-22 | Dropping non-ASCII characters from the formatted cookie equals formatting the ASCII-filtered values. |
| `DouyinDownload.RequiredCookiesAscii` | douyin_scraper/cookie_extractor.py:23-27 | The twelve cookie names are ASCII. |
| `DouyinDownload.CleanCookieLayout` | douyin_download.py:15-22 | A non-empty cookie cleans to the twelve `name=value;` fields, with non-ASCII characters removed from the values. |
| `DouyinDownload.CleanCookieOfAscii` | douyin_download.py:18-22 | When every extracted value is ASCII, `clean_cookie` equals `extract_and_format_cookies`. |
| `DouyinDownload.CookieHeader` | douyin_download.py:51-52 | A `Cookie` header is sent iff the cookie is truthy. Its value is `clean_cookie(cookie)`. |
| `DouyinDownload.GetLocationFromUrl` | douyin_download.py:24-63 | Exactly one request is made, without following redirects. 301 or 302 gives the `Location` header. Any other status gives that status. A connection error gives the error record. |
| `DouyinDownload.ImageRequestPolicy` | douyin_download.py:131-136 | Attempt `k` uses strategy `k mod 5`. A cookie is sent iff it is truthy and the strategy is one of the first three. The cookie sent is `clean_cookie(cookie)`. |
| `DouyinDownload.TryImage` | douyin_download.py:138-170 | One attempt equals `ImageAttempt`: one request, then the outcome and the new world. |
| `DouyinDownload.DownloadDouyinImage` | douyin_download.py:65-176 | The run equals `ImageSpec`. An existing destination returns True with no request. |
| `DouyinDownload.ImageRetries` | douyin_download.py:131-176 | The `for attempt` loop, given the cleaned cookie header, equals `ImageFrom` from attempt 0. |
| `DouyinDownload.ImageRound` | douyin_download.py:131-173 | One pass stops exactly when its attempt saved the image or got a 404, and then the run's result is that attempt's. Otherwise the run from this attempt equals the run from the next attempt on the world the pass leaves. |
| `DouyinDownload.ImageAttemptEvents` | douyin_download.py:143-163 | An attempt adds exactly one exchange, answered by the next reply, and its outcome is the classification of that reply. |
| `DouyinDownload.ImageAttemptOutcome` | douyin_download.py:146-158 | Only a 200 with a body over 1000 bytes writes the destination, with that size. Every other outcome leaves the files unchanged. |
| `DouyinDownload.ImageAttempts` | douyin_download.py:131-173 | The exchanges are attempts 0, 1, … in order, at most five. Each uses its attempt's strategy and the next reply. |
| `DouyinDownload.ImageAttemptsTiming` | douyin_download.py:150-173 | The events open with a request. Sleeps come only between attempts and never after a small body, since `continue` skips the sleep. Nothing follows a 404. |
| `DouyinDownload.ImageFiles` | douyin_download.py:146-155 | On success only the destination is added, with more than 1000 bytes. On failure the files are unchanged. |
| `DouyinDownload.ImageSuccessIffSaved` | douyin_download.py:74-176 | The image download succeeds iff the destination exists afterwards. A new file holds more than 1000 bytes. |
| `DouyinDownload.ImageStopsOn404` | douyin_download.py:159-161 | A 404 on the first attempt returns False after exactly one request. |
| `DouyinDownload.AttemptExchanges` | douyin_download.py:215-231 | One video attempt makes one or two exchanges. |
| `DouyinDownload.TryVideo` | douyin_download.py:211-282 | One attempt equals `VideoAttempt` as written. After a 403, the released mobile response is read. A non-empty body read breaks off, leaving the file at 0 bytes. An empty body reads as empty, so the file is removed. |
| `DouyinDownload.DownloadVideo` | douyin_download.py:178-287 | The run equals `VideoSpec` as written, including the released mobile response (broken read for a non-empty body, empty file removed otherwise). An existing destination returns at once, with no request. |
| `DouyinDownload.VideoRetries` | douyin_download.py:209-285 | The retry loop equals `VideoFrom` as written. An empty write goes on at once, a broken read or a raise sleeps one second before the next attempt. |
| `DouyinDownload.AttemptExchangesShape` | douyin_download.py:215-231 | An attempt is a desktop request, followed by a mobile request iff the first got a 403. Every request is for the URL, carries the cookie header and consumes replies in order. |
| `DouyinDownload.VideoAttempts` | douyin_download.py:209-285 | A download makes at most three attempts, each shaped as above. |
| `DouyinDownload.VideoRequestBound` | douyin_download.py:209-231 | A video download sends at most six requests. |
| `DouyinDownload.VideoAttemptFiles` | douyin_download.py:218-266 | Under either reading: an attempt changes no file but the destination. A completed attempt leaves it non-empty. An empty write is removed. A raised status or a 304 leaves the files unchanged. An empty body that is read without error is removed, even when it is the released mobile response's. As written, an attempt that met a 403 never completes, and when its stream breaks it leaves the destination at 0 bytes. |
| `DouyinDownload.VideoFiles` | douyin_download.py:209-285 | Across all attempts no other file changes. A saved video is non-empty. |
| `DouyinDownload.VideoLeftover` | douyin_download.py:218-282 | A destination that is new after a run that did not save exists only because some body read broke off. As written, a 403 answer counts as such a break, since it sends the attempt to the released mobile response. |
| `DouyinDownload.VideoSavedNonEmpty` | douyin_download.py:178-287 | Under either reading: Saved implies a non-empty destination, and only the destination changes. A leftover file implies a broken stream, which as written includes a 403 answer. |
| `DouyinDownload.VideoRetriesOn404` | douyin_download.py:233-285 | Three 404s give three requests, with a one-second sleep between each pair, and then the download gives up. |
| `DouyinDownload.ReleasedEmptyBodyRemoved` | douyin_download.py:218-266 | A 403 then an empty 200: under either reading the empty file is removed and the next attempt follows without a sleep. |
| `DouyinDownload.MobileFallbackNeverSaves` | douyin_download.py:218-248 | As written, an attempt that starts with a 403 never completes, and a file it leaves is empty. |
| `DouyinDownload.MobileFallbackRun` | douyin_download.py:209-287 | Script: 403, then 200 with 5000 bytes, then no answer. As written the download gives up after four requests and leaves a 0-byte file. The intended reading saves the 5000 bytes after two requests. |
| `DouyinDownload.MobileFallbackSaves` | douyin_download.py:218-248 | Intended reading, over the whole run: a 403 followed by a good mobile response saves exactly that response's body, after exactly two requests. |
| `DouyinDownload.Download` | douyin_download.py:289-311 | The run equals `DownloadSpec`, which runs `download_video` as written. |
| `DouyinDownload.DownloadProbesThenFollows` | douyin_download.py:304-311 | A non-image URL returns None. It first probes the URL without following redirects. Every later request goes to the non-empty `Location` of a 301/302, or else to the URL itself. |
| `DouyinDownload.VideoGoesTo` | douyin_download.py:215-231 | Every request of `download_video` is for its URL. |
| `DouyinDownload.DownloadImagePath` | douyin_download.py:298-302 | A Douyin image URL returns the image download's success and uses only the five image strategies. |
| `DouyinDownload.DownloadExistingDestination` | douyin_download.py:289-311 | An existing destination is never rewritten. The image path makes no request and returns True. The video path still makes its redirect probe. |
| `DouyinDownload.NoDirectoryNeverSaves` | douyin_download.py:239 | A destination without a directory part never saves and leaves the files unchanged, because `os.makedirs('')` raises. |
| `DouyinParser.NewParser` | douyin_scraper/douyin_parser.py:17-27 | The parser's cookie is `""` for an empty cookie, and otherwise the formatted twelve-field cookie. |
| `DouyinParser.RunEnd` | douyin_scraper/douyin_parser.py:148 | The `[^\s]+` run from a position ends at the first whitespace or at the end of the text. |
| `DouyinParser.FirstUrlFrom` | douyin_scraper/douyin_parser.py:148 | The leftmost position where `https?://` is followed by a non-space, or None iff there is none. |
| `DouyinParser.ExtractUrl` | douyin_scraper/douyin_parser.py:148-153 | No URL is found iff no position matches the pattern. |
| `DouyinParser.ExtractedUrlShape` | douyin_scraper/douyin_parser.py:148-153 | The extracted URL starts at the leftmost match with `http://` or `https://`. It holds no whitespace and extends to the next whitespace or the end of the text. |
| `DouyinParser.Snippet` | douyin_scraper/douyin_parser.py:80 | The snippet is a prefix of the text: the whole text when it has at most 200 characters, otherwise its first 200. |
| `DouyinParser.FetchVideoData` | douyin_scraper/douyin_parser.py:29-84 | Ok iff the status is 2xx, the text is non-empty and the body decodes, and then the result is the decoded body. A non-2xx status raises an HTTP status error. Empty text raises the empty-response error with the id. Undecodable text raises the invalid-JSON error with the id, the content type and the 200-character snippet. A transport error passes through. |
| `DouyinParser.ItemUrls` | douyin_scraper/douyin_parser.py:104-113 | A non-dict item raises AttributeError. Otherwise the video flag is set iff the item is a video segment, and at most one URL is taken. A segment adds its first play URL, or nothing iff the play URLs are falsy, and an error reading them passes through. A picture adds the last entry of its `url_list`, or nothing iff that list is falsy. |
| `DouyinParser.MediaOf` | douyin_scraper/douyin_parser.py:93-121 | A non-dict detail raises AttributeError. The type is image or multi-video iff `images` is truthy, and then type and URLs are the gallery loop's result over the images. Unknown media has no URLs. A single video has the first play URL, or none iff the play URLs are falsy. |
| `DouyinParser.ProcessSpec` | douyin_scraper/douyin_parser.py:86-133 | The invalid-data record is returned iff the data is falsy or lacks `aweme_detail`. A non-dict `aweme_detail` raises AttributeError. A media record carries the detail's `aweme_id`, `desc`, `create_time` and author nickname, and its type and URLs are `MediaOf` of the detail. |
| `DouyinParser.ProcessData` | douyin_scraper/douyin_parser.py:86-133 | `_process_data` equals `ProcessSpec`, with the record fields and URLs it states. |
| `DouyinParser.DetailMedia` | douyin_scraper/douyin_parser.py:95-121 | The media decision equals `MediaOf`, with the gallery and single-video URLs it states. |
| `DouyinParser.CollectGallery` | douyin_scraper/douyin_parser.py:102-115 | The item loop equals `Gallery`, whose URLs are each item's contribution in order (`DouyinParser.GalleryUrls`). |
| `DouyinParser.GalleryOk` | douyin_scraper/douyin_parser.py:104-113 | The gallery loop succeeds iff every item's extraction succeeds. |
| `DouyinParser.GalleryUrls` | douyin_scraper/douyin_parser.py:103-115 | A gallery that gets through yields the earlier URLs followed by each item's contribution, in item order. |
| `DouyinParser.GalleryShape` | douyin_scraper/douyin_parser.py:103-115 | The flag is set iff some item is a video segment. Earlier URLs are kept, and at most one URL is added per item. |
| `DouyinParser.PictureItem` | douyin_scraper/douyin_parser.py:111-113 | A picture item contributes the last entry of its `url_list`. |
| `DouyinParser.PictureGallery` | douyin_scraper/douyin_parser.py:111-113 | A gallery of pictures yields exactly the last URL of each picture, in order, and no video flag. |
| `DouyinParser.GalleryRecord` | douyin_scraper/douyin_parser.py:99-115 | A non-empty `images` list gives an image or multi-video record. It is multi-video iff some item is a video segment, with at most one URL per item. |
| `DouyinParser.NeitherIsUnknown` | douyin_scraper/douyin_parser.py:95-121 | A detail with neither images nor video gives an unknown record with no URLs. |
| `DouyinParser.Parse` | douyin_scraper/douyin_parser.py:135-175 | With no URL in the text nothing is called and the no-URL error is returned. Otherwise the id resolver is called on the extracted URL. The detail is fetched, with the parser's cookie, iff the id is truthy. A failed resolution gives the id error with details. A failed fetch gives the fetch error with details. After a good fetch the result is `_process_data` of the data, or the fetch error carrying the exception it raised. |
| `DouyinGet.Query` | douyin_get.py:8-12 | The API is asked with the share URL and `minimal="False"`. |
| `DouyinGet.GetDouyinData` | douyin_get.py:8-21 | None iff the API is unreachable, answers with status ≥ 400 or does not send JSON. A JSON-typed body that does not decode raises. Otherwise the decoded body is returned. |
| `DouyinGet.CollectLinks` | douyin_get.py:42-60 | Collecting links succeeds iff each item's link does. The result is the links in item order after the earlier ones. |
| `DouyinGet.ParseSpec` | douyin_get.py:22-68 | A known kind that is not multi-part has exactly one link. An unknown media type gives no kind, count 0 and no links. |
| `DouyinGet.ParseDouyinData` | douyin_get.py:22-68 | `parse_douyin_data` equals `ParseSpec`, whose links `DouyinGet.ParsedFields` and `DouyinGet.MultiPartLinks` state. |
| `DouyinGet.AppendLinks` | douyin_get.py:42-60 | The append loop equals `Collect`. |
| `DouyinGet.ParsedFields` | douyin_get.py:30-66 | Image iff media type 2, video iff 42 or 4. An image post is multi-part iff it has more than one image. Type 42 is always multi-part. Type 4 keeps count 0 with one link, `video["play_addr"]["url_list"][2]`. A single picture's link is `images[0]["url_list"][0]`. A picture (2) or multi-part video (42) post's count is `len(images)`. A multi-part post's count equals its number of links. The title is `aweme_id`. |
| `DouyinGet.MultiPartLinks` | douyin_get.py:35-60 | For a multi-image post or type 42, link `k` is the link extracted from item `k`. |
| `DouyinGet.SinglePath` | douyin_get.py:96-111 | The single-part destination is directly under the download directory and is named `{title}{ext}`. |
| `DouyinGet.Saves` | douyin_get.py:83-113 | No kind gives no download. A multi-part post downloads link `k` to `…/{title}-Part{k+1}{ext}`. A single-part post downloads its first link to `…/{title}{ext}`. |
| `DouyinGet.ProcessDouyin` | douyin_get.py:70-115 | `process_douyin` equals `ProcessSpec` of the API's answer, with each download run as written. What the result carries is stated by `DouyinGet.ProcessedFromParse`, `DouyinGet.SavedPathsAreDownloads` and `DouyinGet.NoneWhenNothingFetched`. |
| `DouyinGet.DownloadEach` | douyin_get.py:90-108 | The download loop equals `DownloadsFrom`, with each download run as written. |
| `DouyinGet.DownloadsInOrder` | douyin_get.py:90-93 | The downloads made are the planned (link, path) pairs, in order, as a prefix. |
| `DouyinGet.DownloadsComplete` | douyin_get.py:90-93 | All planned downloads are made iff every link is a string. |
| `DouyinGet.NoneWhenNothingFetched` | douyin_get.py:79-115 | None iff the fetch gave nothing or a falsy body, and then nothing is downloaded. |
| `DouyinGet.ProcessedFromParse` | douyin_get.py:83-113 | A successful run copies the parse's type and multi-part flag. Its count is the parse's, or 0 when the type is unknown. Its save paths are the destinations of `Saves`, in order. |
| `DouyinGet.SavedPathsAreDownloads` | douyin_get.py:89-113 | The reported save paths are exactly the destinations downloaded, in order. The title is never set. |
| `XhsGet.Fetch` | xhs_get.py:7-17 | Ok iff the content type contains `application/json` and the body decodes. Another content type raises the content-type error. |
| `XhsGet.FailoverSpec` | xhs_get.py:27-37 | The endpoints asked are one to three: the primary first, then the secondary. Only the primary is asked iff it answers with a code other than 201. The secondary is asked twice iff the primary said 201 and the first secondary request raised. The result is the last endpoint's fetch. |
| `XhsGet.IntOf` | xhs_get.py:58 | Ok iff the stripped string is an optional sign followed by decimal digits. Anything else raises ValueError for that string. |
| `XhsGet.IntOfSigned` | xhs_get.py:58 | A sign followed by decimal digits, with nothing around them, reads as the digits' value, negated after `-`. |
| `XhsGet.IntOfNatToString` | xhs_get.py:56-58 | `int(str(n)) == n`: a numeric `Content-Length` reads back as its value. |
| `XhsGet.IntOfDigits` | xhs_get.py:58 | A non-empty string of decimal digits parses to its decimal value. |
| `XhsGet.SizeOf` | xhs_get.py:19-21 | A missing `Content-Length` counts as 0. A present one is read by `int`. A failed HEAD request raises. |
| `XhsGet.SizesInOrder` | xhs_get.py:55-58 | Measuring succeeds iff every probe does. The sizes are in URL order, one per URL. |
| `XhsGet.SizesMatch` | xhs_get.py:55-58 | Measured sizes are one per URL. The size at position `k` is what probing URL `k` gives. |
| `XhsGet.MeasureVideos` | xhs_get.py:55-58 | The HEAD loop equals `SizesFrom`. |
| `XhsGet.Coerce` | xhs_get.py:43-54 | A single string becomes a one-element list. Anything else is unchanged. |
| `XhsGet.ImagePostOf` | xhs_get.py:41-50 | Built iff `images` and `title` can be read and the coerced list has a length. Its URLs are the coerced `images`, its title is `title`, `count == len(urls)`, and the URL list is never a bare string. |
| `XhsGet.VideoPostOf` | xhs_get.py:51-67 | A built video record has the coerced `download_url` as URLs, `video_title` as title and `image_url` (default `""`) as cover. It has one size per URL, each the HEAD size of its URL in order. `count` is the number of URLs, `size` is the sum of the sizes, and the URL list is never a bare string. |
| `XhsGet.Assemble` | xhs_get.py:39-68 | A non-dict result raises AttributeError. A success other than 1 gives the parse-failure record. With success 1: a missing `data` raises, data with neither key gives the parse-failure record, `images` gives `ImagePostOf` of the data, otherwise `download_url` gives `VideoPostOf`. An image post's count is the number of URLs. A video post has one size per URL, in order, each the HEAD size of its URL, and the total is their sum. |
| `XhsGet.XhsParse` | xhs_get.py:23-68 | `xhs_parse` equals `XhsParseSpec`: the failover, then `Assemble` with the record contents it states. |
| `XhsGet.AssembleResult` | xhs_get.py:39-68 | The assembly equals `Assemble`, with the record contents it states. |
| `XhsGet.ImagesTakePrecedence` | xhs_get.py:41-51 | When `images` is present the post is an image post and no HEAD request matters. |
| `XhsGet.SingleVideoUrl` | xhs_get.py:51-67 | A single video URL whose HEAD reports `n` bytes gives count 1, sizes `[n]`, urls `[url]` and size `n`. |
| `McmodGet.FixUrl` | mcmod_get.py:15-28 | The result is empty iff the input is. A non-empty result starts with `http` and ends with the input. |
| `McmodGet.FixUrlCases` | mcmod_get.py:17-28 | `http…` is kept as is. `//…` gets `https:` prepended. Anything else non-empty gets `https://` prepended. |
| `McmodGet.FixUrlIdempotent` | mcmod_get.py:15-28 | Fixing a fixed URL changes nothing. |
| `AutoDelete.SweepSpec` | auto_delete.py:7-45 | A missing folder is created empty and nothing is deleted. An unlistable folder gives 0. For a listed folder, the deleted count plus the surviving entries make up every entry. |
| `AutoDelete.DeleteOldFiles` | auto_delete.py:7-45 | The sweep loop equals `SweepSpec`. |
| `AutoDelete.CountIsRemovals` | auto_delete.py:22-41 | The count returned is the number of entries that disappeared. |
| `AutoDelete.SurvivorsExact` | auto_delete.py:24-36 | An entry survives iff it is not a regular file strictly older than the threshold whose removal succeeds. |
| `AutoDelete.SecondSweepDeletesNothing` | auto_delete.py:7-45 | A second sweep at the same time deletes nothing and changes nothing. |
| `AutoDelete.LongerThresholdDeletesLess` | auto_delete.py:20-34 | A longer threshold never deletes more files. |

## Where the code and the documented behaviour differ

The model follows the code in each of these cases.
- `download_video` retries a 404. `raise_for_status` raises, and the handler retries. Only the image path stops on a 404 (`DouyinDownload.VideoRetriesOn404`, `DouyinDownload.ImageStopsOn404`).
- `download` on an existing video destination still sends the redirect probe. The existence check sits inside `download_video` (`DouyinDownload.DownloadExistingDestination`).
- `process_douyin` never sets `title`, so it stays None (`DouyinGet.SavedPathsAreDownloads`).
- Media type 4 keeps `count` at 0, although it yields one link (`DouyinGet.ParsedFields`).
- In `xhs_parse`, an exception from the secondary request at line 33 sends the handler to the secondary endpoint a second time (`XhsGet.FailoverSpec`).
- `httpx` raises on every non-2xx status (`DouyinParser.FetchVideoData`). `aiohttp` raises only on status ≥ 400 (`DouyinGet.GetDouyinData`, `DouyinDownload.DownloadVideo`).
- `download`'s default destination `video.mp4` has no directory part. `os.makedirs('')` then raises, so that download never saves (`DouyinDownload.NoDirectoryNeverSaves`).

## Left out

- Request headers other than the cookie, exception messages, `print` output and logging are not modelled. A request records its URL, its header profile, its cookie and whether it follows redirects.
- Sleep durations appear only as events. Timeouts and progress reporting are not modelled.
- Floating-point time: `time.time()` and modification times are whole seconds.
- JSON decoding is not modelled: a reply carries its decoded value, or none when the text does not decode. The decoding errors of `response.text()` are left out.
- `PyData.Json` has no float: JSON numbers that Python decodes as `float` are not modelled, nor their `==` against an int (`media_type == 2`, `success == 1`), their truthiness or their `str()` in a save path.
- DownloadVideo: a released response with an empty body is taken to be aiohttp's empty payload (`Content-Length: 0`), which stays readable. An empty body with other framing, whose read after the release would raise, is not distinguished.
- `str()` of a dict or list (`Show`) is only distinguished for strings and integers.
- `aiohttp`'s content-type matching is modelled as the substring test the source writes.
- `int()` accepts optional surrounding whitespace, a sign and ASCII digits. Underscores and non-ASCII digits are left out.
- The aweme-id resolver, the signed detail endpoint (`AwemeIdFetcher`, `BogusManager`, `DouyinAPIEndpoints`), the parsing APIs and the HEAD probes are function parameters. `douyin_scraper/crawlers` is not part of this model.
- `os.makedirs` is modelled only by whether the destination has a directory part. Disk-full and permission errors are not modelled.
- The order in which `os.listdir` yields entries is taken as given.
- `gemini_content.py`, `videos_cliper.py`, the `MCModSpider` class of `mcmod_get.py` and the demonstration `main` functions are outside the pipeline's core and are not part of this model.
- `DouyinGet.DownloadsFrom`: a link that is not a string makes the call raise `TypeError`. What `download` would do with such a value is not modelled.
- `XhsGet.SizeOf`: the HEAD answer is a function of the URL alone, so two requests for one URL get the same answer. A URL that is not a string also gets an answer, where `session.head` would raise `TypeError`.
- `XhsGet.ImagesTakePrecedence`: states the branch order only, not the shape of the image list.

## Findings

| source | as written | input that shows it | evidently intended | confidence | as-written member | corrected member |
|---|---|---|---|---|---|---|
| douyin_download.py:218-248 | After a 403, the mobile retry response is assigned inside `async with … as retry_response` and read after that block has released it. The read of its non-empty body then fails, and the file opened at line 244 is left empty. | First reply 403, mobile reply 200 with a 5000-byte body, destination with a directory part | The mobile response's body is saved | medium, not executed | `DouyinDownload.VideoSpec` under the as-written reading, with `DouyinDownload.MobileFallbackNeverSaves` and `DouyinDownload.MobileFallbackRun` | `DouyinDownload.VideoSpec` under the intended reading, with `DouyinDownload.MobileFallbackSaves` |
