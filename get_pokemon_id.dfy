// `getPokemonIdFromUrl`: the numeric id at the end of a PokeAPI resource URL
// such as "https://pokeapi.co/api/v2/pokemon/25/", read with the anchored
// regular expression /\/pokemon\/(\d+)\/?$/ and converted with `Number`.

module PokemonId {
  import opened JsCore
  import opened Decimal

  const Marker: string := "/pokemon/"

  /** Length of the longest run of digits at the end of `s`. */
  function TrailingDigits(s: string): (n: nat)
    ensures n <= |s| && AllDigits(s[|s| - n..])
    ensures n < |s| ==> !IsDigit(s[|s| - n - 1])
  {
    if s != [] && IsDigit(s[|s| - 1]) then TrailingDigits(s[..|s| - 1]) + 1 else 0
  }

  /**
   * The text the regular expression's group captures, or None when the URL
   * does not match. `\d` cannot match "/", so an optional final "/" is
   * consumed by `\/?` and the group is the whole digit run before it.
   */
  function Capture(url: string): (r: Option<string>)
    ensures r.Some? ==> |r.value| > 0 && AllDigits(r.value)
  {
    var body := if url != [] && url[|url| - 1] == '/' then url[..|url| - 1] else url;
    var n := TrailingDigits(body);
    if n > 0 && EndsWith(body[..|body| - n], Marker) then Some(body[|body| - n..]) else None
  }

  /**
   * `getPokemonIdFromUrl(url)`: a number exactly when the URL ends in
   * "/pokemon/", a non-empty digit run and an optional "/", and then the
   * value of that run.
   */
  function PokemonIdFromUrl(url: string): (r: Option<nat>)
    ensures r.Some? ==> exists d :: Matches(url, d) && r.value == DigitsValue(d)
    ensures forall d :: Matches(url, d) ==> r == Some(DigitsValue(d))
  {
    assert forall d :: Matches(url, d) ==> Capture(url) == Some(d) by {
      forall d | Matches(url, d) ensures Capture(url) == Some(d) {
        CaptureComplete(url, d);
      }
    }
    match Capture(url)
    case None => None
    case Some(d) =>
      CaptureSound(url);
      Some(DigitsValue(d))
  }

  /**
   * What the anchored pattern accepts with group `d`: the URL ends with
   * "/pokemon/", a non-empty run of ASCII digits `d`, and at most one "/".
   */
  ghost predicate Matches(url: string, d: string) {
    && |d| > 0 && AllDigits(d)
    && (EndsWith(url, Marker + d) || EndsWith(url, Marker + d + "/"))
  }

  lemma {:induction false} TrailingDigitsOf(p: string, d: string)
    requires AllDigits(d)
    requires p == [] || !IsDigit(p[|p| - 1])
    ensures TrailingDigits(p + d) == |d|
  {
    if d != [] {
      assert (p + d)[..|p + d| - 1] == p + d[..|d| - 1];
      TrailingDigitsOf(p, d[..|d| - 1]);
    }
  }

  lemma EndsWithAppend(s: string, t: string, x: string)
    requires EndsWith(s, t)
    ensures EndsWith(s + x, t + x)
  {
    assert (s + x)[|s + x| - |t + x|..] == s[|s| - |t|..] + x;
  }

  /** Cutting a string after a prefix that ends with the marker: the rest follows the marker. */
  lemma MarkerBeforeCut(body: string, k: nat)
    requires k <= |body| && EndsWith(body[..k], Marker)
    ensures EndsWith(body, Marker + body[k..])
  {
    assert body == body[..k] + body[k..];
    EndsWithAppend(body[..k], Marker, body[k..]);
  }

  lemma CaptureSoundWithSlash(url: string)
    requires url != [] && url[|url| - 1] == '/' && Capture(url).Some?
    ensures EndsWith(url, Marker + Capture(url).value + "/")
  {
    var body := url[..|url| - 1];
    var k := |body| - TrailingDigits(body);
    MarkerBeforeCut(body, k);
    assert url == body + "/";
    EndsWithAppend(body, Marker + body[k..], "/");
  }

  lemma CaptureSoundWithoutSlash(url: string)
    requires !(url != [] && url[|url| - 1] == '/') && Capture(url).Some?
    ensures EndsWith(url, Marker + Capture(url).value)
  {
    MarkerBeforeCut(url, |url| - TrailingDigits(url));
  }

  /** Every capture is a match of the pattern. */
  lemma CaptureSound(url: string)
    requires Capture(url).Some?
    ensures Matches(url, Capture(url).value)
  {
    if url != [] && url[|url| - 1] == '/' {
      CaptureSoundWithSlash(url);
    } else {
      CaptureSoundWithoutSlash(url);
    }
  }

  /** A URL built from a head ending in "/pokemon/", digits and at most one "/" captures those digits. */
  lemma CaptureOf(p: string, d: string, tail: string)
    requires |d| > 0 && AllDigits(d) && EndsWith(p, Marker)
    requires tail == "" || tail == "/"
    ensures Capture(p + d + tail) == Some(d)
  {
    var url := p + d + tail;
    var body := p + d;
    assert p[|p| - 1] == Marker[|Marker| - 1];
    if tail == "" {
      assert url == body && url[|url| - 1] == d[|d| - 1];
    } else {
      assert url[..|url| - 1] == body;
    }
    TrailingDigitsOf(p, d);
    assert body[..|body| - |d|] == p;
    assert body[|body| - |d|..] == d;
  }

  /** Every match of the pattern is the capture: the group is determined by the URL. */
  lemma CaptureComplete(url: string, d: string)
    requires Matches(url, d)
    ensures Capture(url) == Some(d)
  {
    var m := Marker + d;
    if EndsWith(url, m) {
      var p := url[..|url| - |d|];
      assert url[|url| - |m|..] == m;
      assert url == p + d + "";
      assert p[|p| - |Marker|..] == url[|url| - |m|..][..|Marker|];
      CaptureOf(p, d, "");
    } else {
      var p := url[..|url| - |d| - 1];
      assert url[|url| - |m + "/"|..] == m + "/";
      assert url == p + d + "/";
      assert p[|p| - |Marker|..] == url[|url| - |m + "/"|..][..|Marker|];
      CaptureOf(p, d, "/");
    }
  }

  /**
   * Whatever precedes the final "/pokemon/<digits>" segment is ignored, and
   * the trailing "/" is optional.
   */
  lemma LastSegmentWithOptionalSlash(prefix: string, d: string)
    requires |d| > 0 && AllDigits(d)
    ensures PokemonIdFromUrl(prefix + Marker + d) == Some(DigitsValue(d))
    ensures PokemonIdFromUrl(prefix + Marker + d + "/") == Some(DigitsValue(d))
  {
    var p := prefix + Marker;
    assert p[|p| - |Marker|..] == Marker;
    assert prefix + Marker + d == p + d + "";
    CaptureOf(p, d, "");
    CaptureOf(p, d, "/");
  }

  /** More than one "/" after the digits is not accepted. */
  lemma DoubleSlashRejected(url: string)
    requires EndsWith(url, "//")
    ensures PokemonIdFromUrl(url) == None
  {
    var body := url[..|url| - 1];
    assert url[|url| - 1] == '/' && body[|body| - 1] == '/';
  }

  /** Leading zeros of the id are dropped by `Number`: "/pokemon/007/" reads as 7. */
  lemma LeadingZerosDropped(prefix: string, d: string)
    requires |d| > 0 && AllDigits(d)
    ensures PokemonIdFromUrl(prefix + Marker + "0" + d + "/") == PokemonIdFromUrl(prefix + Marker + d + "/")
  {
    LeadingZeroIgnored(d);
    assert prefix + Marker + "0" + d + "/" == prefix + Marker + ("0" + d) + "/";
    LastSegmentWithOptionalSlash(prefix, "0" + d);
    LastSegmentWithOptionalSlash(prefix, d);
  }
}
