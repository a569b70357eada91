/** The icon-style resolver of the navigation menu, as values.

    The menu shows the site icon as a CSS background image. An icon given as
    an absolute `http://` or `https://` URL (in any letter case) is used as
    it is; anything else (no icon, an empty string, a relative path, another
    scheme) falls back to a fixed default image plus a marker class. The
    resolver remembers the last icon it saw and does nothing when called
    again with the same one. */
module IconStyle {
  import opened Text
  import opened Wrappers

  /** The JavaScript value of the `icon` attribute: `undefined`, `null` or a
      string. The two absent values are distinct under `===`. */
  datatype IconRef = Undefined | Null | Str(s: string)

  const HttpScheme: string := "http://"
  const HttpsScheme: string := "https://"
  /** The default Ghost orb image,
      https://static.ghost.org/v4.0.0/images/ghost-orb-1.png. */
  const DefaultIconUrl: string := "https://" + "static.ghost.org/v4.0.0/images/ghost-orb-1.png"
  const DefaultIconClass: string := "gh-nav-logo-default"
  const StylePrefix: string := "background-image: url("
  const StyleSuffix: string := ")"

  /** The three fields the resolver keeps: the last icon seen (`_icon`,
      `undefined` until the first call), the class and the inline style. */
  datatype IconState = IconState(lastIcon: IconRef, iconClass: string, iconStyle: string)

  /** The outcome of resolving one icon: a class and an inline style. */
  datatype Resolved = Resolved(iconClass: string, iconStyle: string)

  /** The state of a freshly created menu, before any icon was seen. */
  const InitialState: IconState := IconState(Undefined, "", "")

  /** The inline style that shows `url` as a background image. */
  function BackgroundImage(url: string): string {
    StylePrefix + url + StyleSuffix
  }

  /** Reads the URL back out of a background-image style, if it is one. */
  function StyleUrl(style: string): Option<string> {
    if |StylePrefix| + |StyleSuffix| <= |style|
       && StylePrefix <= style
       && style[|style| - |StyleSuffix|..] == StyleSuffix
    then Some(style[|StylePrefix|..|style| - |StyleSuffix|])
    else None
  }

  /** The test `/^https?:\/\//i`. */
  predicate HasHttpScheme(s: string) {
    StartsWithIgnoringCase(s, HttpScheme) || StartsWithIgnoringCase(s, HttpsScheme)
  }

  /** The guard `icon && icon.match(/^https?:\/\//i)`: a non-empty string
      that starts with an http or https scheme. */
  predicate IsAbsoluteIcon(icon: IconRef) {
    icon.Str? && icon.s != "" && HasHttpScheme(icon.s)
  }

  /** The class and style the menu shows for `icon`. */
  function Resolve(icon: IconRef): (r: Resolved)
    ensures r.iconClass == "" <==> IsAbsoluteIcon(icon)
    ensures StyleUrl(r.iconStyle) == Some(if IsAbsoluteIcon(icon) then icon.s else DefaultIconUrl)
  {
    StyleUrlRoundTrip(if IsAbsoluteIcon(icon) then icon.s else DefaultIconUrl);
    if IsAbsoluteIcon(icon) then Resolved("", BackgroundImage(icon.s))
    else Resolved(DefaultIconClass, BackgroundImage(DefaultIconUrl))
  }

  /** One call of the resolver with the current `icon`: nothing changes when
      `icon` is the last one seen; otherwise it is remembered and resolved. */
  function Step(st: IconState, icon: IconRef): IconState {
    if icon == st.lastIcon then st
    else
      var r := Resolve(icon);
      IconState(icon, r.iconClass, r.iconStyle)
  }

  /** Reading the style back gives the URL that was put in. */
  lemma StyleUrlRoundTrip(url: string)
    ensures StyleUrl(BackgroundImage(url)) == Some(url)
  {
    var style := BackgroundImage(url);
    assert style[..|StylePrefix|] == StylePrefix;
    assert style[|style| - |StyleSuffix|..] == StyleSuffix;
    assert style[|StylePrefix|..|style| - |StyleSuffix|] == url;
  }

  /** The exact outcomes: an absolute icon gives its own style and no class;
      anything else gives the default image and the default class. */
  lemma ResolveOutcomes(icon: IconRef)
    ensures IsAbsoluteIcon(icon) ==>
              Resolve(icon) == Resolved("", "background-image: url(" + icon.s + ")")
    ensures !IsAbsoluteIcon(icon) ==>
              Resolve(icon) == Resolved("gh-nav-logo-default", "background-image: url(" + DefaultIconUrl + ")")
  {
  }

  /** A string that begins with the exact scheme passes the test, and so
      does every upper- or lower-cased copy of it. */
  lemma SchemeInAnyCaseMatches(s: string, scheme: string)
    requires scheme == HttpScheme || scheme == HttpsScheme
    requires scheme <= s
    ensures HasHttpScheme(s)
    ensures HasHttpScheme(MapChars(s, UpperAscii)) && HasHttpScheme(MapChars(s, LowerAscii))
  {
    StartsWithIgnoringCaseIff(s, scheme);
    CaseOfSubjectIrrelevant(s, scheme);
  }

  /** Absent icons, empty strings, relative paths and other schemes all fall
      back to the default. */
  lemma ResolveFallbackExamples()
    ensures Resolve(Null).iconClass == DefaultIconClass
    ensures Resolve(Undefined).iconClass == DefaultIconClass
    ensures Resolve(Str("")).iconClass == DefaultIconClass
    ensures Resolve(Str("/content/images/icon.png")).iconClass == DefaultIconClass
    ensures Resolve(Str("ftp://example.com/a.png")).iconClass == DefaultIconClass
  {
    var rel, ftp := "/content/images/icon.png", "ftp://example.com/a.png";
    assert !SameIgnoringCase(rel[0], 'h');
    assert !SameIgnoringCase(ftp[0], 'h');
  }

  /** Whatever the icon, the style always points at an absolute http(s) URL. */
  lemma {:induction false} ResolvedStyleIsAbsolute(icon: IconRef)
    ensures StyleUrl(Resolve(icon).iconStyle).Some?
    ensures HasHttpScheme(StyleUrl(Resolve(icon).iconStyle).value)
  {
    if !IsAbsoluteIcon(icon) {
      SchemeInAnyCaseMatches(DefaultIconUrl, HttpsScheme);
    }
  }

  /** A fresh component handed no icon at all (`undefined`) keeps its empty
      class and style: `undefined` is the last icon it has "seen", so the
      resolver returns early and the default image is not applied. */
  lemma FreshComponentIgnoresUndefined()
    ensures Step(InitialState, Undefined) == InitialState
    ensures Step(InitialState, Undefined).iconClass == "" && Step(InitialState, Undefined).iconStyle == ""
    ensures Step(InitialState, Null).iconClass == DefaultIconClass
  {
  }

  /** Calling the resolver with the icon it saw last changes none of the
      three fields. */
  lemma StepSameIconIsNoOp(st: IconState, icon: IconRef)
    requires icon == st.lastIcon
    ensures Step(st, icon) == st
  {
  }

  /** After a call the last icon seen is the current one, and the class and
      style are those resolved for it, unless nothing changed. */
  lemma StepRemembersIcon(st: IconState, icon: IconRef)
    ensures Step(st, icon).lastIcon == icon
    ensures icon != st.lastIcon ==>
              Step(st, icon).iconClass == Resolve(icon).iconClass &&
              Step(st, icon).iconStyle == Resolve(icon).iconStyle
  {
  }

  /** The resolver is idempotent: a second call with the same icon is a no-op. */
  lemma StepIdempotent(st: IconState, icon: IconRef)
    ensures Step(Step(st, icon), icon) == Step(st, icon)
  {
    StepRemembersIcon(st, icon);
  }

  /** The class and style depend only on the current icon, never on what was
      shown before, once that icon has been seen. */
  lemma StepForgetsHistory(st1: IconState, st2: IconState, icon: IconRef)
    requires icon != st1.lastIcon && icon != st2.lastIcon
    ensures Step(st1, icon) == Step(st2, icon)
  {
  }
}
