/**
 The New Tab extension for Python-Markdown: after the library has built the
 anchor element for a link (inline, reference, short reference, autolink or
 automatic mail link), add `target="_blank"` to it unless its `href` is a
 same-page anchor or, with `external_only` on, unless its `href` does not
 mention `http`. All five link forms run the one rule modelled here.
 */
module NewTab {
  import opened Builtins

  /** The attribute keys and values the rule reads and writes. */
  const HrefKey: string := "href"
  const TargetKey: string := "target"
  const NewWindow: string := "_blank"
  /** An `href` with this prefix points into the current page. */
  const AnchorPrefix: string := "#"
  /** With `external_only` on, only an `href` holding this substring is marked. */
  const ExternalMarker: string := "http"

  /** The extension's only option. */
  datatype Config = Config(externalOnly: bool)

  /** The configuration a `NewTabExtension()` starts with. */
  const DefaultConfig: Config := Config(externalOnly := false)

  /** The decision: every entry of `match_conditions` holds. */
  predicate ShouldMark(href: string, cfg: Config)
  {
    !StartsWith(href, AnchorPrefix) && (cfg.externalOnly ==> Contains(href, ExternalMarker))
  }

  /**
   The attributes of an anchor after the rule has run on it: `target` is set to
   `_blank` when the decision holds, and nothing else changes.
   */
  function Decorated(attrs: map<string, string>, cfg: Config): (r: map<string, string>)
    requires HrefKey in attrs
    ensures forall k :: k in attrs && k != TargetKey ==> k in r && r[k] == attrs[k]
    ensures forall k :: k in r ==> k in attrs || k == TargetKey
    ensures TargetKey in r ==> r[TargetKey] == NewWindow || (TargetKey in attrs && r[TargetKey] == attrs[TargetKey])
    ensures ShouldMark(attrs[HrefKey], cfg) ==> TargetKey in r && r[TargetKey] == NewWindow
    ensures !ShouldMark(attrs[HrefKey], cfg) ==> r == attrs
  {
    if ShouldMark(attrs[HrefKey], cfg) then attrs[TargetKey := NewWindow] else attrs
  }

  /** An ElementTree element as the library builds it for a link: attributes and text. */
  class Element {
    var attrs: map<string, string>
    var text: string

    constructor (attrs: map<string, string>, text: string)
      ensures this.attrs == attrs && this.text == text
    {
      this.attrs := attrs;
      this.text := text;
    }
  }

  /**
   `NewTabMixin.handleMatch`: `built` is what the library's own pattern
   returned for the match (null when the text did not match). No element is
   passed through; otherwise the element is decorated in place and returned.
   */
  method HandleMatch(built: Element?, cfg: Config) returns (elem: Element?)
    requires built != null ==> HrefKey in built.attrs
    modifies built
    ensures elem == built
    ensures built != null ==> built.attrs == Decorated(old(built.attrs), cfg)
    ensures built != null ==> built.text == old(built.text)
  {
    elem := built;
    if elem == null {
      return;
    }
    var href := elem.attrs[HrefKey];
    var matchConditions := [!StartsWith(href, AnchorPrefix)];
    if cfg.externalOnly {
      matchConditions := matchConditions + [Contains(href, ExternalMarker)];
    }
    assert All(matchConditions) == ShouldMark(href, cfg);
    if All(matchConditions) {
      elem.attrs := elem.attrs[TargetKey := NewWindow];
    }
  }

  /** True when `href` starts with `#`, stated on characters. */
  predicate IsSamePage(href: string)
  {
    |href| > 0 && href[0] == '#'
  }

  /**
   The decision in full: never a same-page anchor; with `external_only` off
   every other `href`; with it on exactly those that hold `http` somewhere.
   */
  lemma MarkIff(href: string, cfg: Config)
    ensures ShouldMark(href, cfg) <==> !IsSamePage(href) && (cfg.externalOnly ==> OccursIn(ExternalMarker, href))
  {
    ContainsIffOccurs(href, ExternalMarker);
    assert StartsWith(href, AnchorPrefix) <==> IsSamePage(href);
  }

  /** A same-page anchor is returned exactly as built, whatever the option. */
  lemma SamePageUntouched(attrs: map<string, string>, cfg: Config)
    requires HrefKey in attrs && IsSamePage(attrs[HrefKey])
    ensures Decorated(attrs, cfg) == attrs
  {
  }

  /** With `external_only` off, every other link gets `target="_blank"` added. */
  lemma DefaultMarksEveryOtherLink(attrs: map<string, string>, cfg: Config)
    requires HrefKey in attrs && !IsSamePage(attrs[HrefKey]) && !cfg.externalOnly
    ensures Decorated(attrs, cfg) == attrs[TargetKey := NewWindow]
  {
  }

  /** With `external_only` on, `target` is added exactly to links off the page that mention `http`. */
  lemma ExternalOnlyMarksExactly(attrs: map<string, string>)
    requires HrefKey in attrs
    ensures Decorated(attrs, Config(true)) ==
            if !IsSamePage(attrs[HrefKey]) && OccursIn(ExternalMarker, attrs[HrefKey])
            then attrs[TargetKey := NewWindow] else attrs
  {
    MarkIff(attrs[HrefKey], Config(true));
  }

  /** Turning `external_only` on can only remove marks, never add one. */
  lemma ExternalOnlyNarrows(href: string)
    ensures ShouldMark(href, Config(true)) ==> ShouldMark(href, DefaultConfig)
  {
  }

  /** Running the rule on an element it has already decorated changes nothing more. */
  lemma DecoratedIdempotent(attrs: map<string, string>, cfg: Config)
    requires HrefKey in attrs
    ensures HrefKey in Decorated(attrs, cfg)
    ensures Decorated(Decorated(attrs, cfg), cfg) == Decorated(attrs, cfg)
  {
  }

  /**
   The decision reads `href` alone: changing any other attribute (a title, say)
   before the rule runs gives the same result as changing it afterwards.
   */
  lemma DecisionIgnoresOtherAttributes(attrs: map<string, string>, cfg: Config, key: string, value: string)
    requires HrefKey in attrs && key != HrefKey && key != TargetKey
    ensures Decorated(attrs[key := value], cfg) == Decorated(attrs, cfg)[key := value]
  {
  }

  /** Under the default configuration the rule is "mark every link that is not a same-page anchor". */
  lemma DefaultRule(href: string)
    ensures ShouldMark(href, DefaultConfig) <==> !IsSamePage(href)
  {
  }

  /** The links of the extension's own test suite, with their expected attributes. */
  lemma TestSuiteExamples()
    ensures Decorated(map[HrefKey := "https://ddg.gg"], DefaultConfig)
         == map[HrefKey := "https://ddg.gg", TargetKey := NewWindow]
    ensures Decorated(map[HrefKey := "https://ddg.gg", "title" := "test"], DefaultConfig)
         == map[HrefKey := "https://ddg.gg", "title" := "test", TargetKey := NewWindow]
    ensures Decorated(map[HrefKey := "https://ddg.gg#p1"], DefaultConfig)
         == map[HrefKey := "https://ddg.gg#p1", TargetKey := NewWindow]
    ensures Decorated(map[HrefKey := "#part2"], DefaultConfig) == map[HrefKey := "#part2"]
  {
    DefaultRule("https://ddg.gg");
    DefaultRule("https://ddg.gg#p1");
  }

  /**
   Links under `external_only`: a same-page anchor and a local path are left
   alone, a web address is marked, and so is a local path that mentions `http`
   (the test is a plain substring search, not a scheme check).
   */
  lemma ExternalOnlyExamples()
    ensures Decorated(map[HrefKey := "#part2"], Config(true)) == map[HrefKey := "#part2"]
    ensures Decorated(map[HrefKey := "https://ddg.gg"], Config(true))
         == map[HrefKey := "https://ddg.gg", TargetKey := NewWindow]
    ensures Decorated(map[HrefKey := "/about"], Config(true)) == map[HrefKey := "/about"]
    ensures Decorated(map[HrefKey := "/http-page"], Config(true))
         == map[HrefKey := "/http-page", TargetKey := NewWindow]
  {
    assert StartsWith("https://ddg.gg", ExternalMarker) by { assert "https://ddg.gg"[..4] == ExternalMarker; }
    assert StartsWith("/http-page"[1..], ExternalMarker) by { assert "/http-page"[1..][..4] == ExternalMarker; }
    assert !OccursIn(ExternalMarker, "/about") by {
      forall i | OccursAt(ExternalMarker, "/about", i) ensures "/about"[i] == 'h' {
        assert "/about"[i..i + 4][0] == 'h';
      }
    }
    ExternalOnlyMarksExactly(map[HrefKey := "/about"]);
    DefaultRule("https://ddg.gg");
    DefaultRule("/about");
    DefaultRule("/http-page");
  }

  /**
   Automatic mail links: the `mailto:` address does not start with `#`, so it
   is marked by default; it has no `http` in it, so `external_only` leaves it
   alone. The library hands over the address entity-encoded; that form does
   not start with `#` or contain `http` either, so the outcome is the same.
   */
  lemma MailLinkExamples()
    ensures Decorated(map[HrefKey := "mailto:address@example.com"], DefaultConfig)
         == map[HrefKey := "mailto:address@example.com", TargetKey := NewWindow]
    ensures Decorated(map[HrefKey := "mailto:address@example.com"], Config(true))
         == map[HrefKey := "mailto:address@example.com"]
  {
    var mail := "mailto:address@example.com";
    DefaultRule(mail);
    assert !OccursIn(ExternalMarker, mail) by {
      forall i | OccursAt(ExternalMarker, mail, i) ensures mail[i] == 'h' {
        assert mail[i..i + 4][0] == 'h';
      }
    }
    ExternalOnlyMarksExactly(map[HrefKey := mail]);
  }

  /**
   A client of `HandleMatch`: the elements the library builds for `[four](#part2)`
   and `[one](https://ddg.gg)`, decorated under `external_only`.
   */
  method HandleMatchClient()
  {
    var local := new Element(map[HrefKey := "#part2"], "four");
    var r := HandleMatch(local, Config(true));
    assert r == local && local.attrs == map[HrefKey := "#part2"] && local.text == "four";

    var web := new Element(map[HrefKey := "https://ddg.gg"], "one");
    r := HandleMatch(web, Config(true));
    ExternalOnlyExamples();
    assert web.attrs == map[HrefKey := "https://ddg.gg", TargetKey := NewWindow];
    assert local.attrs == map[HrefKey := "#part2"];

    r := HandleMatch(null, DefaultConfig);
    assert r == null;
  }
}
