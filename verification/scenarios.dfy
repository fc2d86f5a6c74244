/** Concrete titles run through both rewriters' decisions: the outcomes the
    repository's test suites expect, and the ones where the code as written
    decides otherwise. */
module Scenarios {
  import opened JsStrings
  import opened Configuration
  import opened Admonitions
  import LegacyTitle

  /** The default filter as written lists bare names but is handed the
      bracketed marker, so `[!NOTE]`, `[!IMPORTANT]` and `[!WARNING]` are all
      rejected and a plugin run without configuration leaves the blockquote
      alone. */
  lemma WrittenDefaultFilterRejects(name: string, body: string)
    requires name in ["NOTE", "IMPORTANT", "WARNING"]
    ensures Accepts(WrittenDefaultFilter, name)
    ensures !Accepts(WrittenDefaultFilter, "[!" + name + "]")
    ensures Plan(Plugin(NoConfig).config, "[!" + name + "]" + "\n" + body) == None
  {
    PluginChoice();
    BracketedLine(name);
    UntrimmedHeading("[!" + name + "]", body);
    MarkerIsNotBare(name);
  }

  /** A bracketed marker is none of the bare names: it starts with `[`. */
  lemma MarkerIsNotBare(name: string)
    ensures !Accepts(WrittenDefaultFilter, "[!" + name + "]")
  {
    var line := "[!" + name + "]";
    assert line[0] == '[';
    assert forall e :: e in WrittenDefaultFilter.titles ==> |e| > 0 && e[0] != '[';
  }

  /** With the corrected default list, each of the three markers followed by
      a line feed is rewritten: the title is the marker and the default text
      map shows the bare name. */
  lemma DefaultTransformsMarkers(name: string, body: string)
    requires name in ["NOTE", "IMPORTANT", "WARNING"]
    ensures Plan(CorrectedDefaultConfig, "[!" + name + "]" + "\n" + body)
      == Some(Rewrite(Heading("[!" + name + "]", "[!" + name + "]", body), TitleText(name, name)))
  {
    BracketedLine(name);
    UntrimmedHeading("[!" + name + "]", body);
    DefaultTextMapUnbrackets(name);
    DefaultListsMarkers(name);
  }

  /** The corrected default list holds each of the three names in brackets. */
  lemma DefaultListsMarkers(name: string)
    requires name in ["NOTE", "IMPORTANT", "WARNING"]
    ensures Accepts(CorrectedDefaultConfig.titleFilter, "[!" + name + "]")
  {
    if name == "NOTE" {
      assert "[!" + name + "]" == "[!NOTE]";
    } else if name == "IMPORTANT" {
      assert "[!" + name + "]" == "[!IMPORTANT]";
    } else {
      assert "[!" + name + "]" == "[!WARNING]";
    }
  }

  /** A marker line built from a name without line feeds has none either and
      ends with `]`, which is not whitespace. */
  lemma BracketedLine(name: string)
    requires '\n' !in name
    ensures var line := "[!" + name + "]";
      '\n' !in line && !IsGfmSpace(line[|line| - 1])
  {
    var line := "[!" + name + "]";
    assert line[|line| - 1] == ']';
    assert forall i :: 0 <= i < |line| ==> line[i] == '[' || line[i] == '!' || line[i] == ']' || line[i] in name;
  }

  /** A first line without trailing whitespace is itself the title. */
  lemma UntrimmedHeading(line: string, body: string)
    requires '\n' !in line
    requires line == [] || !IsGfmSpace(line[|line| - 1])
    ensures ReadHeading(line + "\n" + body, false) == Some(Heading(line, line, body))
  {
    ReadHeadingRoundTrip(line, body, false);
    TrimTitleDropsTrailing(line, "");
    assert line + "" == line;
  }

  /** Trailing spaces, carriage returns, tabs and vertical tabs after the
      marker are cut off before the filter sees it, unless they are to be kept. */
  lemma TrailingWhitespace()
    ensures TrimTitle("[!NOTE] \r\t\U{000B}", false) == "[!NOTE]"
    ensures TrimTitle("[!NOTE] \r\t\U{000B}", true) == "[!NOTE] \r\t\U{000B}"
  {
    TrimTitleDropsTrailing("[!NOTE]", " \r\t\U{000B}");
    assert "[!NOTE]" + " \r\t\U{000B}" == "[!NOTE] \r\t\U{000B}";
  }

  /** A list filter with bracketed titles accepts `[!TIPS]`, whose default
      text map shows `TIPS`. */
  lemma CustomTitleList(body: string)
    ensures var config := Merge(DefaultConfig, NoConfig.(titleFilter := Some(Titles(["[!TIPS]", "[!HINTS]"]))));
      Plan(config, "[!TIPS]" + "\n" + body)
        == Some(Rewrite(Heading("[!TIPS]", "[!TIPS]", body), TitleText("TIPS", "TIPS")))
  {
    TipsUnbracketed();
    UntrimmedHeading("[!TIPS]", body);
  }

  /** The default text map shows `[!TIPS]` as `TIPS`. */
  lemma TipsUnbracketed()
    ensures DefaultTextMap("[!TIPS]") == TitleText("TIPS", "TIPS")
  {
    DefaultTextMapUnbrackets("TIPS");
    assert "[!" + "TIPS" + "]" == "[!TIPS]";
  }

  /** A predicate filter accepting markers that start with `[!tIp` and end
      with `]` rewrites `[!name]` exactly when `name` starts with `tIp`, case
      included, and shows `name`. */
  lemma CustomPredicateFilter(name: string, body: string)
    requires '\n' !in name
    ensures var config := Merge(DefaultConfig,
        NoConfig.(titleFilter := Some(Predicate(t => "[!tIp" <= t && EndsWith(t, "]")))));
      var line := "[!" + name + "]";
      Plan(config, line + "\n" + body)
        == if "tIp" <= name then Some(Rewrite(Heading(line, line, body), TitleText(name, name))) else None
  {
    var line := "[!" + name + "]";
    BracketedLine(name);
    UntrimmedHeading(line, body);
    DefaultTextMapUnbrackets(name);
    TipPrefix(name);
  }

  /** `[!name]` starts with `[!tIp` and ends with `]` exactly when `name`
      starts with `tIp`. */
  lemma TipPrefix(name: string)
    ensures var line := "[!" + name + "]";
      ("[!tIp" <= line && EndsWith(line, "]")) <==> "tIp" <= name
  {
    var line := "[!" + name + "]";
    assert EndsWith(line, "]");
    if "tIp" <= name {
      assert line[..5] == "[!" + name[..3];
    }
    if "[!tIp" <= line {
      assert line[..5] == "[!tIp";
      assert |name| >= 3 by {
        assert line[4] == 'p' && line[|name| + 2] == ']';
      }
      assert name[..3] == line[2..5] == "tIp";
    }
  }

  /** The MkDocs preset on `[!kind "display"]`, where `kind` opens with a
      recognised type: the filter accepts it, the text map reads back `kind`
      and `display`, and the block classes are `admonition` and the words of
      `kind`. */
  lemma MkdocsBracketed(kind: string, display: string)
    requires LegacyTitle.StartsWithType(kind)
    requires !Contains(kind, LegacyTitle.QuoteOpen)
    ensures var config := Merge(DefaultConfig, MkdocsConfig);
      var title := "[!" + kind + LegacyTitle.QuoteOpen + display + "\"]";
      && Accepts(config.titleFilter, title)
      && config.titleTextMap(title) == TitleText(display, kind)
      && ClassNameOf(config.classNameMaps.block, kind) == "admonition " + kind
  {
    LegacyTitle.TypedIsNotCustom(kind);
    var config := Merge(DefaultConfig, MkdocsConfig);
    assert config.titleFilter == Predicate(MkdocsFilter);
    assert config.titleTextMap == MkdocsTextMap;
    assert config.classNameMaps.block == Fn(LegacyTitle.MkdocsBlockClasses);
    var title := "[!" + kind + LegacyTitle.QuoteOpen + display + "\"]";
    var t :| t in LegacyTitle.AdmonitionTypes && t <= kind;
    PrefixInContext("[!", t, kind, LegacyTitle.QuoteOpen + display + "\"]");
    assert title == "[!" + kind + (LegacyTitle.QuoteOpen + display + "\"]");
    assert EndsWith(title, "]");
    assert MkdocsFilter(title);
    MkdocsTextMapRoundTrip(kind, display);
    LegacyTitle.MkdocsBlockClassName(kind);
  }

  /** A custom MkDocs type `[!admonition: name "display"]`: accepted, and the
      `admonition: ` prefix is dropped from the block classes. */
  lemma MkdocsCustomType(name: string, display: string)
    requires !Contains(LegacyTitle.CustomTypePrefix + name, LegacyTitle.QuoteOpen)
    ensures var kind := LegacyTitle.CustomTypePrefix + name;
      var title := "[!" + kind + LegacyTitle.QuoteOpen + display + "\"]";
      && Admonitions.MkdocsFilter(title)
      && Admonitions.MkdocsTextMap(title) == TitleText(display, kind)
      && ClassNameOf(Fn(LegacyTitle.MkdocsBlockClasses), kind) == "admonition " + name
  {
    var kind := LegacyTitle.CustomTypePrefix + name;
    var title := "[!" + kind + LegacyTitle.QuoteOpen + display + "\"]";
    assert ("[!" + LegacyTitle.CustomTypePrefix) <= title by {
      assert title[..2 + |LegacyTitle.CustomTypePrefix|] == "[!" + LegacyTitle.CustomTypePrefix;
    }
    assert EndsWith(title, "]");
    MkdocsTextMapRoundTrip(kind, display);
    LegacyTitle.MkdocsBlockClassName(kind);
    assert kind[|LegacyTitle.CustomTypePrefix|..] == name;
  }

  /** The legacy defaults accept `Note` as written, shown unchanged, and
      reject other spellings: the filter is exact and case-sensitive. */
  lemma LegacyDefaultTitles()
    ensures LegacyTitle.Plan(DefaultLegacyConfig, "Note") == Some(TitleText("Note", "Note"))
    ensures LegacyTitle.Plan(DefaultLegacyConfig, "note") == None
    ensures LegacyTitle.Plan(DefaultLegacyConfig, "Tips") == None
  {
  }

  /** The legacy MkDocs preset, installed with `legacyTitle: true`, lifts and
      unwraps the title, reads `kind "display"` back as `kind` and `display`,
      and renders the blockquote as a `div` carrying `admonition` and the
      words of `kind`. */
  lemma LegacyMkdocs(kind: string, display: string)
    requires LegacyTitle.StartsWithType(kind)
    requires !Contains(kind, LegacyTitle.QuoteOpen)
    ensures var v := Plugin(LegacyTitle.MkdocsConfig.(legacyTitle := Some(true)));
      && v.Legacy?
      && v.legacyConfig.titleLift && v.legacyConfig.titleUnwrap
      && LegacyTitle.Plan(v.legacyConfig, kind + LegacyTitle.QuoteOpen + display + "\"")
           == Some(TitleText(display, kind))
      && LegacyTitle.BlockData(v.legacyConfig.base, map[], kind)
           == map["hProperties" := Obj(map["className" := Str("admonition " + kind)]), "hName" := Str("div")]
  {
    LegacyTitle.TypedIsNotCustom(kind);
    var v := Plugin(LegacyTitle.MkdocsConfig.(legacyTitle := Some(true)));
    var title := kind + LegacyTitle.QuoteOpen + display + "\"";
    var t :| t in LegacyTitle.AdmonitionTypes && t <= kind;
    PrefixInContext([], t, kind, LegacyTitle.QuoteOpen + display + "\"");
    assert [] + t == t && [] + kind == kind;
    assert title == kind + (LegacyTitle.QuoteOpen + display + "\"");
    LegacyTitle.MkdocsTextMapRoundTrip(kind, display);
    LegacyMkdocsBlockData(v.legacyConfig.base, kind);
  }

  /** The block data of the legacy MkDocs preset for a built-in kind. */
  lemma LegacyMkdocsBlockData(base: Config, kind: string)
    requires base == Merge(DefaultLegacyConfig.base, LegacyTitle.MkdocsConfig.(legacyTitle := Some(true)))
    requires !(LegacyTitle.CustomTypePrefix <= kind)
    ensures LegacyTitle.BlockData(base, map[], kind)
      == map["hProperties" := Obj(map["className" := Str("admonition " + kind)]), "hName" := Str("div")]
  {
    LegacyTitle.MkdocsBlockClassName(kind);
    var props := Obj(map["className" := Str("admonition " + kind)]);
    assert WithClassName(map[], "admonition " + kind) == map["hProperties" := props];
  }

  /** Without a caller configuration the plugin installs the bracket visitor
      with the defaults; `legacyTitle: true` installs the legacy one. */
  lemma PluginChoice()
    ensures Plugin(NoConfig) == Bracket(DefaultConfig)
    ensures Plugin(NoConfig.(legacyTitle := Some(true))).Legacy?
  {
    MergeLaws(DefaultConfig, NoConfig);
  }

  /** Under the default text map a rewritten blockquote is final: the display
      title is a piece of a first line, so it holds no line feed and the
      visitor does not match the title paragraph again. */
  lemma DefaultDisplayHasNoLineFeed(config: Config, value: string)
    requires config.titleTextMap == DefaultTextMap
    requires Plan(config, value).Some?
    ensures '\n' !in Plan(config, value).value.text.displayTitle
  {
    var heading := ReadHeading(value, config.titleKeepTrailingWhitespaces).value;
    TitleHasNoLineFeed(heading.line, config.titleKeepTrailingWhitespaces);
    DefaultTextMapCutsOnly(heading.title);
    assert Plan(config, value).value.text == DefaultTextMap(heading.title);
  }

  /** A title made of a line without line feeds has none either. */
  lemma TitleHasNoLineFeed(line: string, keepTrailingWhitespaces: bool)
    requires '\n' !in line
    ensures '\n' !in TrimTitle(line, keepTrailingWhitespaces)
  {
    var title := TrimTitle(line, keepTrailingWhitespaces);
    assert title == line[..|title|];
  }
}
