/**
 * Cookie normalisation (douyin_scraper/cookie_extractor.py): a raw browser cookie string becomes
 * the twelve cookies the Douyin endpoints need, in a fixed order, with a validity flag computed
 * over four critical cookies.
 */
module CookieExtractor {
  import opened Text

  /** The twelve cookies that are extracted, in the order they are emitted. */
  const RequiredCookies: seq<string> := [
    "odin_tt", "passport_fe_beating_status", "sid_guard", "uid_tt", "uid_tt_ss",
    "sid_tt", "sessionid", "sessionid_ss", "sid_ucp_v1", "ssid_ucp_v1",
    "passport_assist_user", "ttwid"
  ]

  /** The cookies without which the cookie is not valid. */
  const CriticalFields: seq<string> := ["sessionid", "uid_tt", "ttwid", "sid_guard"]

  /** What a cookie absent from the input is replaced by. */
  const Placeholder: string := "xxx"

  /** The triple `extract_douyin_cookies` returns. */
  datatype Extraction = Extraction(formatted: string, isValid: bool, extracted: map<string, string>)

  /** The `;`-separated segments of the raw string once every space is deleted. */
  function Segments(raw: string): seq<string> {
    Split(Without(raw, ' '), ';')
  }

  /** The name of a segment: what precedes its first `=`, stripped. */
  function NameOf(seg: string): string
    requires '=' in seg
  {
    Strip(SplitOnce(seg, '=').0)
  }

  /** The value of a segment: what follows its first `=`, stripped (it may itself contain `=`). */
  function ValueOf(seg: string): string
    requires '=' in seg
  {
    Strip(SplitOnce(seg, '=').1)
  }

  /** The cookie dictionary after the given segments, in order: a later binding overwrites an earlier one. */
  function Bindings(segs: seq<string>): map<string, string> {
    if segs == [] then map[] else Bind(Bindings(segs[..|segs| - 1]), segs[|segs| - 1])
  }

  /** One step of the parsing loop: a segment with `=` binds its name to its value. */
  function Bind(m: map<string, string>, seg: string): map<string, string> {
    if '=' in seg then m[NameOf(seg) := ValueOf(seg)] else m
  }

  /** `cookie_dict`: empty unless the raw string contains some `=`. */
  function CookieDict(raw: string): map<string, string> {
    if '=' in raw then Bindings(Segments(raw)) else map[]
  }

  /** `d.get(name, "xxx")` */
  function CookieValue(d: map<string, string>, name: string): string {
    if name in d then d[name] else Placeholder
  }

  /** `extracted`: each required name with its value or the placeholder. */
  function ExtractedFrom(d: map<string, string>): map<string, string> {
    map n | n in RequiredCookies :: CookieValue(d, n)
  }

  /** A value that counts as missing for validity: the placeholder or the empty string. */
  predicate IsMissing(v: string) {
    v == Placeholder || v == ""
  }

  /** `missing_fields`: the names, in order, whose extracted value is missing. */
  function MissingAmong(names: seq<string>, e: map<string, string>): seq<string> {
    if names == [] then []
    else
      var n := names[|names| - 1];
      MissingAmong(names[..|names| - 1], e) + (if n in e && IsMissing(e[n]) then [n] else [])
  }

  /** `[f for f in names if f in among]` */
  function KeepIn(names: seq<string>, among: seq<string>): seq<string> {
    if names == [] then []
    else (if names[0] in among then [names[0]] else []) + KeepIn(names[1..], among)
  }

  /** `cookie_pairs`: `name=value` for each name, in order. */
  function PairsOf(names: seq<string>, e: map<string, string>): seq<string> {
    if names == [] then []
    else
      var n := names[|names| - 1];
      PairsOf(names[..|names| - 1], e) + [n + "=" + CookieValue(e, n)]
  }

  /** What `extract_douyin_cookies` returns for a raw cookie string. */
  function Extract(raw: string): Extraction {
    var e := ExtractedFrom(CookieDict(raw));
    var missing := MissingAmong(RequiredCookies, e);
    Extraction(Join(PairsOf(RequiredCookies, e), ";") + ";", |KeepIn(CriticalFields, missing)| == 0, e)
  }

  /** `extract_douyin_cookies`: parse, extract, check, format. */
  method ExtractDouyinCookies(raw: string) returns (formatted: string, isValid: bool, extracted: map<string, string>)
    ensures Extraction(formatted, isValid, extracted) == Extract(raw)
    ensures extracted.Keys == set n | n in RequiredCookies
    ensures forall n | n in RequiredCookies && n !in CookieDict(raw) :: extracted[n] == Placeholder
    ensures forall n | n in RequiredCookies && n in CookieDict(raw) :: extracted[n] == CookieDict(raw)[n]
  {
    var cookieDict := ParseCookieDict(raw);
    extracted := ExtractRequired(cookieDict);
    var missing := MissingFields(extracted);
    var criticalMissing := KeepIn(CriticalFields, missing);
    isValid := |criticalMissing| == 0;
    formatted := FormatCookie(extracted);
  }

  /** The parsing step of `extract_douyin_cookies`, which fills `cookie_dict`. */
  method ParseCookieDict(raw: string) returns (cookieDict: map<string, string>)
    ensures cookieDict == CookieDict(raw)
  {
    cookieDict := map[];
    if '=' in raw {
      var pairs := Split(Without(raw, ' '), ';');
      cookieDict := BindPairs(pairs);
    }
  }

  /** The loop over the `;`-separated pairs: each pair with `=` binds its stripped name to its stripped value. */
  method BindPairs(pairs: seq<string>) returns (cookieDict: map<string, string>)
    ensures cookieDict == Bindings(pairs)
  {
    cookieDict := map[];
    var i := 0;
    while i < |pairs|
      invariant 0 <= i <= |pairs|
      invariant cookieDict == Bindings(pairs[..i])
    {
      var pair := pairs[i];
      ghost var before := cookieDict;
      if '=' in pair {
        var (name, value) := SplitOnce(pair, '=');
        cookieDict := cookieDict[Strip(name) := Strip(value)];
        assert Strip(name) == NameOf(pair) && Strip(value) == ValueOf(pair);
      }
      assert cookieDict == Bind(before, pair);
      BindingsStep(pairs, i, before);
      i := i + 1;
    }
    assert pairs[..|pairs|] == pairs;
  }

  lemma BindingsStep(segs: seq<string>, i: nat, m: map<string, string>)
    requires i < |segs| && m == Bindings(segs[..i])
    ensures Bindings(segs[..i + 1]) == Bind(m, segs[i])
  {
    assert segs[..i + 1][..i] == segs[..i];
  }

  /** The loop that fills `extracted` with each required name's value or the placeholder. */
  method ExtractRequired(cookieDict: map<string, string>) returns (extracted: map<string, string>)
    ensures extracted == ExtractedFrom(cookieDict)
    ensures extracted.Keys == set n | n in RequiredCookies
  {
    extracted := map[];
    var i := 0;
    while i < |RequiredCookies|
      invariant 0 <= i <= |RequiredCookies|
      invariant forall n :: n in extracted <==> n in RequiredCookies[..i]
      invariant forall n | n in extracted :: extracted[n] == CookieValue(cookieDict, n)
    {
      var name := RequiredCookies[i];
      extracted := extracted[name := if name in cookieDict then cookieDict[name] else Placeholder];
      ExtendPrefix(RequiredCookies, i);
      i := i + 1;
    }
    assert RequiredCookies[..i] == RequiredCookies;
  }

  lemma ExtendPrefix(names: seq<string>, i: nat)
    requires i < |names|
    ensures forall n :: n in names[..i + 1] <==> n in names[..i] || n == names[i]
  {
    assert names[..i + 1] == names[..i] + [names[i]];
  }

  /** The loop that collects `missing_fields`; `extracted.items()` yields the required names in insertion order. */
  method MissingFields(extracted: map<string, string>) returns (missing: seq<string>)
    ensures missing == MissingAmong(RequiredCookies, extracted)
  {
    missing := [];
    var i := 0;
    while i < |RequiredCookies|
      invariant 0 <= i <= |RequiredCookies|
      invariant missing == MissingAmong(RequiredCookies[..i], extracted)
    {
      var name := RequiredCookies[i];
      if name in extracted {
        var value := extracted[name];
        if value == Placeholder || value == "" {
          missing := missing + [name];
        }
      }
      assert RequiredCookies[..i + 1][..i] == RequiredCookies[..i];
      i := i + 1;
    }
    assert RequiredCookies[..i] == RequiredCookies;
  }

  /** The loop that builds `cookie_pairs`, then the join with a trailing `;`. */
  method FormatCookie(extracted: map<string, string>) returns (formatted: string)
    ensures formatted == Join(PairsOf(RequiredCookies, extracted), ";") + ";"
  {
    var cookiePairs: seq<string> := [];
    var i := 0;
    while i < |RequiredCookies|
      invariant 0 <= i <= |RequiredCookies|
      invariant cookiePairs == PairsOf(RequiredCookies[..i], extracted)
    {
      var name := RequiredCookies[i];
      var value := if name in extracted then extracted[name] else Placeholder;
      cookiePairs := cookiePairs + [name + "=" + value];
      assert RequiredCookies[..i + 1][..i] == RequiredCookies[..i];
      i := i + 1;
    }
    assert RequiredCookies[..i] == RequiredCookies;
    formatted := Join(cookiePairs, ";") + ";";
  }

  /** `extract_and_format_cookies`: the formatted string alone. */
  function ExtractAndFormatCookies(raw: string): (formatted: string)
    ensures formatted == Extract(raw).formatted
    ensures formatted == Fields(RequiredCookies, Extract(raw).extracted)
  {
    FormattedLayout(raw);
    Extract(raw).formatted
  }

  // ---------------------------------------------------------------------------------------------
  // The layout of the formatted string

  /** The reference layout: `name=value;` for each name, concatenated in order. */
  function Fields(names: seq<string>, e: map<string, string>): string {
    if names == [] then "" else Field(names[0], CookieValue(e, names[0])) + Fields(names[1..], e)
  }

  /** One `name=value;` entry. */
  function Field(name: string, value: string): string {
    name + "=" + value + ";"
  }

  /** Each part followed by `;`, concatenated. */
  function Terminated(parts: seq<string>): string {
    if parts == [] then "" else parts[0] + ";" + Terminated(parts[1..])
  }

  lemma {:induction false} JoinThenSemicolon(parts: seq<string>)
    requires parts != []
    ensures Join(parts, ";") + ";" == Terminated(parts)
  {
    if |parts| > 1 {
      JoinThenSemicolon(parts[1..]);
    }
  }

  lemma {:induction false} TerminatedPairs(names: seq<string>, e: map<string, string>)
    ensures Terminated(PairsOf(names, e)) == Fields(names, e)
  {
    if names != [] {
      var init, n := names[..|names| - 1], names[|names| - 1];
      TerminatedPairs(init, e);
      TerminatedSnoc(PairsOf(init, e), n + "=" + CookieValue(e, n));
      FieldsSnoc(init, n, e);
      assert init + [n] == names;
    }
  }

  lemma {:induction false} TerminatedSnoc(parts: seq<string>, p: string)
    ensures Terminated(parts + [p]) == Terminated(parts) + p + ";"
  {
    if parts != [] {
      assert (parts + [p])[1..] == parts[1..] + [p];
      TerminatedSnoc(parts[1..], p);
    }
  }

  lemma {:induction false} FieldsSnoc(names: seq<string>, n: string, e: map<string, string>)
    ensures Fields(names + [n], e) == Fields(names, e) + Field(n, CookieValue(e, n))
  {
    if names != [] {
      assert (names + [n])[1..] == names[1..] + [n];
      FieldsSnoc(names[1..], n, e);
      var head, last := Field(names[0], CookieValue(e, names[0])), Field(n, CookieValue(e, n));
      assert Fields(names + [n], e) == head + Fields(names[1..] + [n], e);
      assert head + (Fields(names[1..], e) + last) == (head + Fields(names[1..], e)) + last;
    }
  }

  /**
   * The formatted string lists exactly the twelve required names in the fixed order, each as
   * `name=value;`, with the value the extracted one.
   */
  lemma FormattedLayout(raw: string)
    ensures Extract(raw).formatted == Fields(RequiredCookies, Extract(raw).extracted)
  {
    var e := Extract(raw).extracted;
    JoinThenSemicolon(PairsOf(RequiredCookies, e));
    TerminatedPairs(RequiredCookies, e);
  }

  // ---------------------------------------------------------------------------------------------
  // Parsing

  /** A binding with the last word: a name bound more than once takes its last value. */
  lemma {:induction false} LastValueWins(segs: seq<string>, k: nat)
    requires k < |segs| && '=' in segs[k]
    requires forall j | k < j < |segs| && '=' in segs[j] :: NameOf(segs[j]) != NameOf(segs[k])
    ensures NameOf(segs[k]) in Bindings(segs)
    ensures Bindings(segs)[NameOf(segs[k])] == ValueOf(segs[k])
  {
    var init, last := segs[..|segs| - 1], segs[|segs| - 1];
    assert segs == init + [last];
    BindingsSnoc(init, last);
    var name := NameOf(segs[k]);
    if k < |segs| - 1 {
      assert init[k] == segs[k];
      forall j | k < j < |init| && '=' in init[j]
        ensures NameOf(init[j]) != name
      {
        assert init[j] == segs[j];
      }
      LastValueWins(init, k);
      BindOther(Bindings(init), last, name);
    }
  }

  /** A segment that binds another name leaves `name` as it was. */
  lemma BindOther(m: map<string, string>, seg: string, name: string)
    requires '=' in seg ==> NameOf(seg) != name
    ensures name in Bind(m, seg) <==> name in m
    ensures name in m ==> Bind(m, seg)[name] == m[name]
  {
  }

  lemma BindingsSnoc(segs: seq<string>, seg: string)
    ensures Bindings(segs + [seg]) == Bind(Bindings(segs), seg)
  {
    assert (segs + [seg])[..|segs|] == segs;
  }

  /** A name that no segment binds is absent from the dictionary. */
  lemma {:induction false} UnboundAbsent(segs: seq<string>, name: string)
    requires forall j | 0 <= j < |segs| && '=' in segs[j] :: NameOf(segs[j]) != name
    ensures name !in Bindings(segs)
  {
    if segs != [] {
      UnboundAbsent(segs[..|segs| - 1], name);
    }
  }

  /** A segment is split at its first `=`: a value may carry further `=` signs. */
  lemma SplitAtFirstEquals(name: string, value: string)
    requires '=' !in name
    ensures NameOf(name + "=" + value) == Strip(name)
    ensures ValueOf(name + "=" + value) == Strip(value)
  {
    var seg := name + "=" + value;
    assert seg[|name|] == '=';
    assert IndexOf(seg, '=') == |name|;
    assert seg[..|name|] == name;
    assert seg[|name| + 1..] == value;
  }

  /** Two segments binding different names may be swapped without changing the dictionary. */
  lemma BindCommutes(m: map<string, string>, x: string, y: string)
    requires '=' in x && '=' in y ==> NameOf(x) != NameOf(y)
    ensures Bind(Bind(m, x), y) == Bind(Bind(m, y), x)
  {
    if '=' in x && '=' in y {
      UpdatesCommute(m, NameOf(x), ValueOf(x), NameOf(y), ValueOf(y));
    }
  }

  lemma UpdatesCommute(m: map<string, string>, a: string, va: string, b: string, vb: string)
    requires a != b
    ensures m[a := va][b := vb] == m[b := vb][a := va]
  {
  }

  lemma {:induction false} SwapAdjacent(front: seq<string>, x: string, y: string, back: seq<string>)
    requires '=' in x && '=' in y ==> NameOf(x) != NameOf(y)
    ensures Bindings(front + [x, y] + back) == Bindings(front + [y, x] + back)
  {
    var xy, yx := front + [x, y], front + [y, x];
    if back == [] {
      assert xy + back == (front + [x]) + [y];
      assert yx + back == (front + [y]) + [x];
      BindingsSnoc(front + [x], y);
      BindingsSnoc(front + [y], x);
      BindingsSnoc(front, x);
      BindingsSnoc(front, y);
      BindCommutes(Bindings(front), x, y);
    } else {
      var init, last := back[..|back| - 1], back[|back| - 1];
      SwapAdjacent(front, x, y, init);
      assert xy + back == (xy + init) + [last];
      assert yx + back == (yx + init) + [last];
      BindingsSnoc(xy + init, last);
      BindingsSnoc(yx + init, last);
    }
  }

  // ---------------------------------------------------------------------------------------------
  // Validity

  lemma {:induction false} MissingAmongMembers(names: seq<string>, e: map<string, string>, x: string)
    ensures x in MissingAmong(names, e) <==> x in names && x in e && IsMissing(e[x])
  {
    if names != [] {
      var init := names[..|names| - 1];
      MissingAmongMembers(init, e, x);
      assert names == init + [names[|names| - 1]];
    }
  }

  lemma {:induction false} KeepInEmpty(names: seq<string>, among: seq<string>)
    ensures |KeepIn(names, among)| == 0 <==> forall f | f in names :: f !in among
  {
    if names != [] {
      KeepInEmpty(names[1..], among);
      assert forall f | f in names :: f == names[0] || f in names[1..];
    }
  }

  /**
   * The cookie is valid exactly when each critical cookie is present in the input with a value
   * that is neither empty nor the placeholder.
   */
  lemma ValidIff(raw: string)
    ensures Extract(raw).isValid <==>
      forall f | f in CriticalFields :: f in CookieDict(raw) && !IsMissing(CookieDict(raw)[f])
  {
    var d := CookieDict(raw);
    var e := ExtractedFrom(d);
    var missing := MissingAmong(RequiredCookies, e);
    KeepInEmpty(CriticalFields, missing);
    forall f | f in CriticalFields
      ensures f in missing <==> !(f in d && !IsMissing(d[f]))
    {
      MissingAmongMembers(RequiredCookies, e, f);
    }
  }

  /** The eight non-critical cookies never affect validity. */
  lemma ValidityIgnoresNonCritical(raw1: string, raw2: string)
    requires forall f | f in CriticalFields :: CookieValue(CookieDict(raw1), f) == CookieValue(CookieDict(raw2), f)
    ensures Extract(raw1).isValid == Extract(raw2).isValid
  {
    ValidIff(raw1);
    ValidIff(raw2);
  }

  /**
   * The result depends only on the value each required name takes, never on the order or the
   * other cookies of the input.
   */
  lemma OrderIndependent(raw1: string, raw2: string)
    requires forall n | n in RequiredCookies :: CookieValue(CookieDict(raw1), n) == CookieValue(CookieDict(raw2), n)
    ensures Extract(raw1) == Extract(raw2)
  {
    assert ExtractedFrom(CookieDict(raw1)) == ExtractedFrom(CookieDict(raw2));
  }

  /** An input without any `=` gives twelve placeholders and an invalid cookie. */
  lemma NoEqualsAllPlaceholders(raw: string)
    requires '=' !in raw
    ensures forall n | n in RequiredCookies :: Extract(raw).extracted[n] == Placeholder
    ensures Extract(raw).formatted == Fields(RequiredCookies, map[])  // `name=xxx;` twelve times
    ensures !Extract(raw).isValid
  {
    NoEqualsFormatted(raw);
    NoEqualsInvalid(raw);
  }

  lemma NoEqualsFormatted(raw: string)
    requires '=' !in raw
    ensures Extract(raw).extracted == ExtractedFrom(map[])
    ensures Extract(raw).formatted == Fields(RequiredCookies, map[])
  {
    assert CookieDict(raw) == map[];
    FormattedLayout(raw);
    FieldsAgree(RequiredCookies, Extract(raw).extracted, map[]);
  }

  lemma NoEqualsInvalid(raw: string)
    requires '=' !in raw
    ensures !Extract(raw).isValid
  {
    ValidIff(raw);
    assert "sessionid" in CriticalFields;
  }

  lemma {:induction false} FieldsAgree(names: seq<string>, e1: map<string, string>, e2: map<string, string>)
    requires forall n | n in names :: CookieValue(e1, n) == CookieValue(e2, n)
    ensures Fields(names, e1) == Fields(names, e2)
  {
    if names != [] {
      FieldsAgree(names[1..], e1, e2);
    }
  }

  /** An explicitly empty value stays `name=` in the output but still counts as missing. */
  lemma EmptyValueKept(raw: string, n: string)
    requires n in RequiredCookies && n in CookieDict(raw) && CookieDict(raw)[n] == ""
    ensures Extract(raw).extracted[n] == ""
    ensures n in CriticalFields ==> !Extract(raw).isValid
  {
    ValidIff(raw);
  }
}
