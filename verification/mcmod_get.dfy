/** `fix_url` of `mcmod_get.py`: repair a scraped link that lacks its scheme. */
module McmodGet {
  import opened Text

  /**
   * `fix_url`: an empty link stays empty, a protocol-relative `//host/...` gets `https:`, a link
   * that already starts with `http` is kept, and anything else gets `https://`.
   */
  function FixUrl(url: string): (r: string)
    ensures url == "" <==> r == ""
    ensures r != "" ==> StartsWith(r, "http")
    ensures |url| <= |r| && r[|r| - |url|..] == url
  {
    if url == "" then url
    else if StartsWith(url, "//") then "https:" + url
    else if StartsWith(url, "http") then url
    else "https://" + url
  }

  /** The cases: a link already starting with `http` is kept, the others get the prefix they lack. */
  lemma FixUrlCases(url: string)
    ensures StartsWith(url, "http") ==> FixUrl(url) == url
    ensures StartsWith(url, "//") ==> FixUrl(url) == "https:" + url
    ensures url != "" && !StartsWith(url, "//") && !StartsWith(url, "http") ==> FixUrl(url) == "https://" + url
  {
    if StartsWith(url, "//") {
      assert url[..2] == "//";
      assert !StartsWith(url, "http") by {
        assert url[0] == '/';
      }
    }
  }

  /** Repairing a repaired link changes nothing. */
  lemma FixUrlIdempotent(url: string)
    ensures FixUrl(FixUrl(url)) == FixUrl(url)
  {
    var r := FixUrl(url);
    if r != "" {
      assert StartsWith(r, "http");
      assert !StartsWith(r, "//") by {
        assert r[0] == 'h';
      }
    }
  }
}
