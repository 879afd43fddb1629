/** `versionAndLanguageMiddleware`: every request gets an API version and a
    language, the ones named in its URL when they are supported, else the
    fallbacks; the i18n service is switched to that language. */
module VersionLanguage {
  import opened Wrappers

  /** The versions the middleware accepts, as configured: the two language
      codes, while the default version is 'v1'. */
  const SupportedVersions: seq<string> := ["en", "vi"]
  const DefaultVersion: string := "v1"

  /** `!v || !supported.includes(v)` fails: the URL names a supported value. */
  predicate Given(v: Option<string>, supported: seq<string>) {
    v.Some? && v.value != "" && v.value in supported
  }

  function ChooseVersion(version: Option<string>): (r: string)
    ensures Given(version, SupportedVersions) ==> r == version.value
    ensures !Given(version, SupportedVersions) ==> r == DefaultVersion
  {
    if !Given(version, SupportedVersions) then DefaultVersion else version.value
  }

  /** `supportedLanguages[0] || 'en'`. */
  function FallbackLanguage(supported: seq<string>): string {
    if |supported| > 0 && supported[0] != "" then supported[0] else "en"
  }

  function ChooseLanguage(language: Option<string>, supported: seq<string>): (r: string)
    ensures Given(language, supported) ==> r == language.value
    ensures !Given(language, supported) ==> r == FallbackLanguage(supported)
  {
    if !Given(language, supported) then FallbackLanguage(supported) else language.value
  }

  /** The chosen version is either a supported one or the default, and the
      chosen language a supported one or 'en'. */
  lemma ChoicesInRange(version: Option<string>, language: Option<string>, supported: seq<string>)
    ensures ChooseVersion(version) in SupportedVersions + [DefaultVersion]
    ensures ChooseLanguage(language, supported) in supported + ["en"]
  {
    var l := ChooseLanguage(language, supported);
    if !Given(language, supported) && |supported| > 0 && supported[0] != "" {
      assert l == (supported + ["en"])[0];
    }
  }

  /** Choosing is idempotent: feeding the chosen language back keeps it. */
  lemma LanguageChoiceStable(language: Option<string>, supported: seq<string>)
    requires forall i :: 0 <= i < |supported| ==> supported[i] != ""
    requires "en" in supported || |supported| > 0
    ensures ChooseLanguage(Some(ChooseLanguage(language, supported)), supported) == ChooseLanguage(language, supported)
  {
    if !Given(language, supported) {
      assert supported[0] in supported;
    }
  }

  /** What the i18n service holds: the current language. */
  class I18n {
    var language: string

    constructor(initial: string)
      ensures language == initial
    {
      language := initial;
    }
  }

  /** The fields the middleware writes on the request. */
  class Request {
    var apiVersion: Option<string>
    var language: Option<string>

    constructor()
      ensures apiVersion == None && language == None
    {
      apiVersion := None;
      language := None;
    }
  }

  /** One pass through the middleware. It never rejects: it returns the
      number of `next()` calls made, always one, with no error. */
  method VersionAndLanguage(req: Request, i18n: I18n, version: Option<string>, language: Option<string>, supported: seq<string>)
    returns (nextCalls: nat)
    modifies req, i18n
    ensures req.apiVersion == Some(ChooseVersion(version))
    ensures req.language == Some(ChooseLanguage(language, supported))
    ensures i18n.language == ChooseLanguage(language, supported)
    ensures nextCalls == 1
  {
    var v := version;
    var l := language;
    if v.None? || v.value == "" || v.value !in SupportedVersions {
      v := Some(DefaultVersion);
    }
    if l.None? || l.value == "" || l.value !in supported {
      l := Some(if |supported| > 0 && supported[0] != "" then supported[0] else "en");
    }
    i18n.language := l.value;
    req.apiVersion := v;
    req.language := l;
    nextCalls := 1;
  }
}
