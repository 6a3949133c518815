/**
  The stored theme: the local-storage value of `app/actual-app.tsx` and the
  `copycoder-theme` cookie of `components/dynamic-app.tsx`.

  Local storage is a map from keys to raw strings. `JSON.stringify` of a
  plain string is written out for the two theme names; `JSON.parse` is the
  parameter `parse`, whose three kinds of outcome are a parsed string, some
  other parsed value, and a thrown error. The cookie jar is the
  `document.cookie` string the browser hands back.
 */
module Theme {
  import opened Strings

  const ThemeKey: string := "theme"
  const Dark: string := "dark"
  const Light: string := "light"

  /** The theme name a mode is saved under. */
  function Name(isDarkMode: bool): string {
    if isDarkMode then Dark else Light
  }

  /** What `JSON.parse` made of a stored string. */
  datatype Parsed = Text(value: string) | OtherValue | Malformed

  /** `JSON.stringify` of a string without quotes, backslashes or control characters. */
  function Stringify(s: string): string {
    "\"" + s + "\""
  }

  /** The effect of `safeSetToLocalStorage("theme", isDarkMode ? "dark" : "light")`. */
  function SaveTheme(storage: map<string, string>, isDarkMode: bool): (r: map<string, string>)
    ensures ThemeKey in r && r[ThemeKey] == Stringify(Name(isDarkMode))
    ensures forall k :: k in storage && k != ThemeKey ==> k in r && r[k] == storage[k]
    ensures forall k :: k in r ==> k in storage || k == ThemeKey
  {
    storage[ThemeKey := Stringify(Name(isDarkMode))]
  }

  /**
    `safeGetFromLocalStorage(key, fallback)`: a missing or empty item gives
    the fallback, so does an item `JSON.parse` rejects; otherwise the parsed
    value.
   */
  function SafeGet(storage: map<string, string>, key: string, fallback: Parsed, parse: string -> Parsed): (r: Parsed)
    ensures key !in storage || storage[key] == "" ==> r == fallback
    ensures key in storage && storage[key] != "" && parse(storage[key]).Malformed? ==> r == fallback
    ensures key in storage && storage[key] != "" && !parse(storage[key]).Malformed? ==> r == parse(storage[key])
  {
    if key !in storage || storage[key] == "" then fallback
    else
      match parse(storage[key])
      case Malformed => fallback
      case other => other
  }

  /** The theme effect on mount: dark exactly when the value read is the string "dark". */
  function LoadTheme(storage: map<string, string>, parse: string -> Parsed): (isDarkMode: bool)
    ensures ThemeKey !in storage || storage[ThemeKey] == "" ==> isDarkMode
    ensures ThemeKey in storage && storage[ThemeKey] != "" ==>
      (isDarkMode <==> parse(storage[ThemeKey]).Malformed? || parse(storage[ThemeKey]) == Text(Dark))
  {
    SafeGet(storage, ThemeKey, Text(Dark), parse) == Text(Dark)
  }

  /** The two stored theme names are read back as the strings they are. */
  predicate ParsesThemeNames(parse: string -> Parsed) {
    parse(Stringify(Dark)) == Text(Dark) && parse(Stringify(Light)) == Text(Light)
  }

  /** Loading what was saved gives back the same mode. */
  lemma SaveLoadRoundTrip(storage: map<string, string>, isDarkMode: bool, parse: string -> Parsed)
    requires ParsesThemeNames(parse)
    ensures LoadTheme(SaveTheme(storage, isDarkMode), parse) == isDarkMode
  {
    assert Stringify(Name(isDarkMode)) != "";
  }

  const CookieName: string := "copycoder-theme"
  const CookiePrefix: string := "copycoder-theme="

  /** The name=value pair the browser keeps for the theme cookie. */
  function CookiePair(isDarkMode: bool): string {
    CookiePrefix + Name(isDarkMode)
  }

  /** The string the theme effect assigns to `document.cookie`. */
  function WrittenCookie(isDarkMode: bool): string {
    CookiePair(isDarkMode) + "; path=/; max-age=31536000"
  }

  /** The pair is everything before the first ";" of the written cookie; the rest are attributes. */
  lemma WrittenCookiePair(isDarkMode: bool)
    ensures Split(WrittenCookie(isDarkMode), ';')[0] == CookiePair(isDarkMode)
  {
    var rest := "; path=/; max-age=31536000";
    assert ';' !in CookiePair(isDarkMode);
    SplitPrefix(CookiePair(isDarkMode), rest, ';');
    assert rest[1..] == " path=/; max-age=31536000";
    assert Split(rest, ';')[0] == "";
    assert CookiePair(isDarkMode) + "" == CookiePair(isDarkMode);
  }

  /** `.map((cookie) => cookie.trim())` */
  function TrimAll(parts: seq<string>): (r: seq<string>)
    ensures |r| == |parts|
    ensures forall k :: 0 <= k < |parts| ==> r[k] == Trim(parts[k])
    decreases |parts|
  {
    if |parts| == 0 then []
    else [Trim(parts[0])] + TrimAll(parts[1..])
  }

  /** `.find((cookie) => cookie.startsWith(prefix))`, with the prefix as a parameter. */
  function FindCookie(cookies: seq<string>, prefix: string): (r: Option<string>)
    ensures r.Some? ==> StartsWith(r.value, prefix) && r.value in cookies
    ensures r.None? <==> forall k :: 0 <= k < |cookies| ==> !StartsWith(cookies[k], prefix)
  {
    if |cookies| == 0 then None
    else if StartsWith(cookies[0], prefix) then Some(cookies[0])
    else
      var r := FindCookie(cookies[1..], prefix);
      assert forall k :: 1 <= k < |cookies| ==> cookies[k] == cookies[1..][k - 1];
      r
  }

  /** The first match wins: entries before it that do not match are skipped. */
  lemma {:induction false} FindCookieSkips(before: seq<string>, c: string, after: seq<string>, prefix: string)
    requires forall k :: 0 <= k < |before| ==> !StartsWith(before[k], prefix)
    requires StartsWith(c, prefix)
    ensures FindCookie(before + [c] + after, prefix) == Some(c)
    decreases |before|
  {
    if |before| > 0 {
      assert (before + [c] + after)[1..] == before[1..] + [c] + after;
      FindCookieSkips(before[1..], c, after, prefix);
    } else {
      assert before + [c] + after == [c] + after;
    }
  }

  /** Splitting a cookie named `name` at "=": the name, then the pieces of the rest. */
  lemma PrefixSplit(name: string, rest: string)
    requires '=' !in name
    ensures Split(name + "=" + rest, '=') == [name] + Split(rest, '=')
  {
    var t := "=" + rest;
    assert name + "=" + rest == name + t;
    SplitPrefix(name, t, '=');
    assert t[1..] == rest;
    assert Split(t, '=') == [""] + Split(rest, '=');
    assert name + "" == name;
  }

  /** `cookie.split("=")[1]` for a cookie named `name`: the text between the first and the second "=". */
  function CookieValue(c: string, name: string): (v: string)
    requires '=' !in name && StartsWith(c, name + "=")
    ensures '=' !in v
    ensures StartsWith(c[|name| + 1..], v)
  {
    var rest := c[|name| + 1..];
    assert c == name + "=" + rest;
    PrefixSplit(name, rest);
    JoinSplit(rest, '=');
    ValueIsFirstPiece(rest);
    Split(c, '=')[1]
  }

  /** The first piece of a split is a prefix of the string. */
  lemma {:induction false} ValueIsFirstPiece(s: string)
    ensures StartsWith(s, Split(s, '=')[0])
  {
    if |s| > 0 && s[0] != '=' {
      ValueIsFirstPiece(s[1..]);
    }
  }

  /**
    The reading of `DynamicApp` for a cookie called `name`: the first cookie
    of the jar starting with `name=` decides, light only for the value
    "light"; with no such cookie the mode is dark.
   */
  function DecodeNamed(cookie: string, name: string): (isDarkMode: bool)
    requires '=' !in name
    ensures FindCookie(TrimAll(Split(cookie, ';')), name + "=").None? ==> isDarkMode
    ensures var found := FindCookie(TrimAll(Split(cookie, ';')), name + "=");
      !isDarkMode <==> found.Some? && CookieValue(found.value, name) == Light
  {
    match FindCookie(TrimAll(Split(cookie, ';')), name + "=")
    case None => true
    case Some(c) => CookieValue(c, name) != Light
  }

  /** The initial `isDarkMode` of `DynamicApp`, read from the `copycoder-theme` cookie. */
  function DecodeCookie(cookie: string): (isDarkMode: bool)
    ensures var found := FindCookie(TrimAll(Split(cookie, ';')), CookieName + "=");
      !isDarkMode <==> found.Some? && CookieValue(found.value, CookieName) == Light
  {
    assert '=' !in CookieName;
    DecodeNamed(cookie, CookieName)
  }

  /** A cookie of another name: once trimmed, it does not start with the theme prefix. */
  predicate OtherCookie(c: string) {
    !StartsWith(Trim(c), CookiePrefix)
  }

  /** The theme pair has no ";" and no surrounding whitespace. */
  lemma CookiePairShape(isDarkMode: bool)
    ensures ';' !in CookiePair(isDarkMode)
    ensures Trim(CookiePair(isDarkMode)) == CookiePair(isDarkMode)
  {
    var pair := CookiePair(isDarkMode);
    assert pair[0] == 'c';
    assert pair[|pair| - 1] in {'k', 't'};
    TrimUnchanged(pair);
  }

  /** The value read back from the theme pair is the theme name. */
  lemma CookiePairValue(isDarkMode: bool)
    ensures CookiePrefix == CookieName + "=" && '=' !in CookieName
    ensures StartsWith(CookiePair(isDarkMode), CookieName + "=")
    ensures CookieValue(CookiePair(isDarkMode), CookieName) == Name(isDarkMode)
  {
    assert CookiePrefix == CookieName + "=";
    assert '=' !in CookieName;
    var pair := CookiePair(isDarkMode);
    assert pair == CookieName + "=" + Name(isDarkMode);
    assert pair[..|CookiePrefix|] == CookiePrefix;
    PrefixSplit(CookieName, Name(isDarkMode));
    SplitPrefix(Name(isDarkMode), "", '=');
    assert Name(isDarkMode) + "" == Name(isDarkMode);
  }

  /** Trimming every cookie of a concatenation trims each half. */
  lemma {:induction false} TrimAllConcat(a: seq<string>, b: seq<string>)
    ensures TrimAll(a + b) == TrimAll(a) + TrimAll(b)
    decreases |a|
  {
    if |a| == 0 {
      assert a + b == b;
    } else {
      assert (a + b)[1..] == a[1..] + b;
      TrimAllConcat(a[1..], b);
    }
  }

  lemma TrimAllAround(before: seq<string>, pair: string, after: seq<string>)
    requires Trim(pair) == pair
    ensures TrimAll(before + [pair] + after) == TrimAll(before) + [pair] + TrimAll(after)
  {
    TrimAllConcat(before, [pair]);
    TrimAllConcat(before + [pair], after);
    assert TrimAll([pair]) == [pair];
  }

  lemma NoSeparatorAround(before: seq<string>, pair: string, after: seq<string>)
    requires forall k :: 0 <= k < |before| ==> ';' !in before[k]
    requires forall k :: 0 <= k < |after| ==> ';' !in after[k]
    requires ';' !in pair
    ensures forall k :: 0 <= k < |before + [pair] + after| ==> ';' !in (before + [pair] + after)[k]
  {
    var parts := before + [pair] + after;
    forall k | 0 <= k < |parts|
      ensures ';' !in parts[k]
    {
      if k < |before| {
        assert parts[k] == before[k];
      } else if k > |before| {
        assert parts[k] == after[k - |before| - 1];
      }
    }
  }

  /** A jar joined from cookies without ";" splits back into exactly those cookies. */
  lemma JarPieces(before: seq<string>, pair: string, after: seq<string>)
    requires forall k :: 0 <= k < |before| ==> ';' !in before[k]
    requires forall k :: 0 <= k < |after| ==> ';' !in after[k]
    requires ';' !in pair
    ensures Split(Join(before + [pair] + after, ';'), ';') == before + [pair] + after
  {
    NoSeparatorAround(before, pair, after);
    SplitJoin(before + [pair] + after, ';');
  }

  /** Cookies that, once trimmed, do not start with the prefix are skipped. */
  lemma OthersSkipped(before: seq<string>, prefix: string)
    requires forall k :: 0 <= k < |before| ==> !StartsWith(Trim(before[k]), prefix)
    ensures forall k :: 0 <= k < |TrimAll(before)| ==> !StartsWith(TrimAll(before)[k], prefix)
  {
  }

  /** In a jar whose earlier cookies do not match, the cookie found is the given pair. */
  lemma FindInJar(jar: string, before: seq<string>, pair: string, after: seq<string>, prefix: string)
    requires Split(jar, ';') == before + [pair] + after
    requires forall k :: 0 <= k < |before| ==> !StartsWith(Trim(before[k]), prefix)
    requires Trim(pair) == pair && StartsWith(pair, prefix)
    ensures FindCookie(TrimAll(Split(jar, ';')), prefix) == Some(pair)
  {
    TrimAllAround(before, pair, after);
    OthersSkipped(before, prefix);
    FindCookieSkips(TrimAll(before), pair, TrimAll(after), prefix);
  }

  /** Once the cookie called `name` is found, its value decides the mode. */
  lemma DecodeFound(cookie: string, name: string, pair: string)
    requires '=' !in name
    requires FindCookie(TrimAll(Split(cookie, ';')), name + "=") == Some(pair)
    ensures DecodeNamed(cookie, name) == (CookieValue(pair, name) != Light)
  {
  }

  /**
    The jar the browser hands back after the theme effect ran, whose pieces
    between ";" are other cookies, the theme pair, and any further cookies
    (as from `JarPieces`), decodes to the mode that was written.
   */
  lemma CookieRoundTrip(jar: string, before: seq<string>, after: seq<string>, isDarkMode: bool)
    requires Split(jar, ';') == before + [CookiePair(isDarkMode)] + after
    requires forall k :: 0 <= k < |before| ==> OtherCookie(before[k])
    ensures DecodeCookie(jar) == isDarkMode
  {
    var pair := CookiePair(isDarkMode);
    assert CookieValue(pair, CookieName) == Name(isDarkMode) by {
      CookiePairValue(isDarkMode);
    }
    var prefix := CookieName + "=";
    assert FindCookie(TrimAll(Split(jar, ';')), prefix) == Some(pair) by {
      CookiePairShape(isDarkMode);
      CookiePairValue(isDarkMode);
      FindInJar(jar, before, pair, after, prefix);
    }
    assert DecodeNamed(jar, CookieName) == (Name(isDarkMode) != Light) by {
      DecodeFound(jar, CookieName, pair);
    }
    assert Dark != Light;
  }
}
