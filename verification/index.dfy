/** The rewriter for GitHub-style titles like `[!NOTE]`: a blockquote whose
    first paragraph opens with a text node whose first line is the marker.
    The visitor cuts the marker line off that text, puts a title paragraph in
    front of the blockquote's children and marks the blockquote to render as
    a `div`. Also the plugin's configuration merge, its choice between this
    visitor and the legacy one, and the bundled MkDocs preset. */
module Admonitions {
  import opened JsStrings
  import opened Configuration
  import opened Mdast
  import LegacyTitle

  /** The first line of a text value, the candidate title made of it, and the
      rest of the value after the line feed. */
  datatype Heading = Heading(line: string, title: string, body: string)

  /** The candidate title made of a first line: the line itself when trailing
      whitespace is kept, otherwise the line without what `/[ \t\v\f\r]+$/`
      matches in it. */
  function TrimTitle(line: string, keepTrailingWhitespaces: bool): (title: string)
    ensures title <= line
    ensures keepTrailingWhitespaces ==> title == line
    ensures !keepTrailingWhitespaces ==>
      && (forall i :: |title| <= i < |line| ==> IsGfmSpace(line[i]))
      && (title == [] || !IsGfmSpace(title[|title| - 1]))
  {
    var trailing := line[|TrimEndGfm(line)|..];
    if |trailing| > 0 && !keepTrailingWhitespaces then Substring(line, 0, |line| - |trailing|) else line
  }

  /** Splits a text value at its first line feed; without one there is no
      heading. The title is the first line, trimmed as `TrimTitle` says. */
  function ReadHeading(value: string, keepTrailingWhitespaces: bool): (r: Option<Heading>)
    ensures r.None? <==> '\n' !in value
    ensures r.Some? ==> value == r.value.line + "\n" + r.value.body && '\n' !in r.value.line
    ensures r.Some? ==> r.value.title == TrimTitle(r.value.line, keepTrailingWhitespaces)
  {
    var titleEnd := IndexOfChar(value, '\n');
    if titleEnd < 0 then None
    else
      var body := Substring(value, titleEnd + 1, |value|);
      var line := Substring(value, 0, titleEnd);
      assert value == line + "\n" + body by {
        assert value == value[..titleEnd] + [value[titleEnd]] + value[titleEnd + 1..];
      }
      Some(Heading(line, TrimTitle(line, keepTrailingWhitespaces), body))
  }

  /** Round trip: a value written as a line, a line feed and a body is read
      back as that line and that body. */
  lemma ReadHeadingRoundTrip(line: string, body: string, keepTrailingWhitespaces: bool)
    requires '\n' !in line
    ensures ReadHeading(line + "\n" + body, keepTrailingWhitespaces)
      == Some(Heading(line, TrimTitle(line, keepTrailingWhitespaces), body))
  {
    var value := line + "\n" + body;
    FirstSeparator(line, '\n', body);
    assert value[..|line|] == line && value[|line| + 1..] == body;
  }

  /** Trimming removes exactly a trailing run of whitespace: a line made of a
      part not ending in whitespace followed by whitespace trims to that part. */
  lemma TrimTitleDropsTrailing(head: string, spaces: string)
    requires head == [] || !IsGfmSpace(head[|head| - 1])
    requires forall i :: 0 <= i < |spaces| ==> IsGfmSpace(spaces[i])
    ensures TrimTitle(head + spaces, false) == head
  {
    var line := head + spaces;
    var title := TrimTitle(line, false);
    assert forall i :: |head| <= i < |line| ==> IsGfmSpace(line[i]);
    assert head != [] ==> line[|head| - 1] == head[|head| - 1];
    assert |title| == |head|;
    assert title == line[..|head|];
  }

  /** What a matching text value yields: its heading and the mapped title. */
  datatype Rewrite = Rewrite(heading: Heading, text: TitleText)

  /** What the visitor decides for the first text of an eligible blockquote:
      there must be a line feed, the filter sees the (trimmed) first line, and
      only then the text map runs. `None` leaves the node alone. */
  function Plan(config: Config, value: string): (r: Option<Rewrite>)
    ensures '\n' !in value ==> r.None?
    ensures '\n' in value ==>
      var heading := ReadHeading(value, config.titleKeepTrailingWhitespaces).value;
      && (r.Some? <==> Accepts(config.titleFilter, heading.title))
      && (r.Some? ==> r.value == Rewrite(heading, config.titleTextMap(heading.title)))
  {
    match ReadHeading(value, config.titleKeepTrailingWhitespaces)
    case None => None
    case Some(heading) =>
      if Accepts(config.titleFilter, heading.title) then
        Some(Rewrite(heading, config.titleTextMap(heading.title)))
      else
        None
  }

  /** The bag handed to the block data map: the old bag, all of whose other
      keys survive, with the block class name and the hint to render as a `div`. */
  function DivData(data: Data, className: string): (r: Data)
    ensures r.Keys == data.Keys + {"hProperties", "hName"}
    ensures r["hName"] == Str("div")
    ensures r["hProperties"] == Obj(map["className" := Str(className)])
    ensures forall k :: k in data && k != "hProperties" && k != "hName" ==> r[k] == data[k]
  {
    WithClassName(data, className)["hName" := Str("div")]
  }

  /** The blockquote's new side data. */
  function BlockData(config: Config, data: Data, checkedTitle: string): (r: Data)
    ensures (forall d :: config.dataMaps.block(d) == d) ==>
      r == DivData(data, ClassNameOf(config.classNameMaps.block, checkedTitle))
  {
    config.dataMaps.block(DivData(data, ClassNameOf(config.classNameMaps.block, checkedTitle)))
  }

  /** The blockquote shape the visitor accepts: a blockquote whose first child
      is a paragraph whose first child is a text node. */
  ghost predicate Eligible(node: Node)
    reads node, node.children
  {
    && node.kind == Blockquote
    && |node.children| > 0
    && node.children[0].kind == Paragraph
    && |node.children[0].children| > 0
    && node.children[0].children[0].kind == Text
  }

  /** The text node an eligible blockquote's marker is read from. */
  ghost function MarkerNode(node: Node): Node
    requires Eligible(node)
    reads node, node.children
  {
    node.children[0].children[0]
  }

  /** The visitor rewrites `node`. */
  ghost predicate Matches(config: Config, node: Node)
    reads node, node.children
    reads if Eligible(node) then {MarkerNode(node)} else {}
  {
    Eligible(node) && Plan(config, MarkerNode(node).value).Some?
  }

  /** The bracket-marker visitor. A node of any other shape, a text without a
      line feed and a title the filter rejects all leave the node exactly as it
      was. Otherwise the text keeps what follows its first line, the
      blockquote gains one new first child, a title paragraph showing the
      display title, its old children follow unchanged, and its side data is
      replaced. When the display title holds no line feed, the rewritten
      blockquote does not match again. */
  method HandleNode(config: Config, node: Node)
    modifies node`children, node`data
    modifies FirstChildren(FirstChildren({node}))`value
    ensures !old(Matches(config, node)) ==>
      unchanged(node) && unchanged(old(FirstChildren(FirstChildren({node}))))
    ensures old(Matches(config, node)) ==>
      var text := old(MarkerNode(node));
      var plan := old(Plan(config, text.value)).value;
      && text.value == plan.heading.body
      && |node.children| == old(|node.children|) + 1
      && node.children[1..] == old(node.children)
      && fresh(node.children[0])
      && IsTitleParagraph(node.children[0], plan.text.displayTitle,
                          TitleParagraphData(config, plan.text.checkedTitle))
      && fresh(node.children[0].children[0])
      && node.data == BlockData(config, old(node.data), plan.text.checkedTitle)
      && ('\n' !in plan.text.displayTitle ==> !Matches(config, node))
  {
    if node.kind != Blockquote { return; }
    if |node.children| == 0 || node.children[0].kind != Paragraph { return; }
    var paragraph := node.children[0];
    if |paragraph.children| == 0 || paragraph.children[0].kind != Text { return; }
    var text := paragraph.children[0];
    var heading := ReadHeading(text.value, config.titleKeepTrailingWhitespaces);
    if heading.None? { return; }
    var textBody, title := heading.value.body, heading.value.title;
    if !Accepts(config.titleFilter, title) { return; }
    var mapped := config.titleTextMap(title);
    InsertTitle(config, node, text, textBody, mapped);
    assert MarkerNode(node).value == mapped.displayTitle;
  }

  /** The bracket visitor's mutations: the text keeps `body`, a fresh title
      paragraph showing the display title goes in front of the blockquote's
      children, and the blockquote's side data is replaced. */
  method InsertTitle(config: Config, node: Node, text: Node, body: string, title: TitleText)
    requires node.kind == Blockquote && text.kind == Text
    modifies node`children, node`data, text`value
    ensures text.value == body
    ensures |node.children| == old(|node.children|) + 1
    ensures node.children[1..] == old(node.children)
    ensures fresh(node.children[0])
    ensures IsTitleParagraph(node.children[0], title.displayTitle,
                             TitleParagraphData(config, title.checkedTitle))
    ensures fresh(node.children[0].children[0])
    ensures node.data == BlockData(config, old(node.data), title.checkedTitle)
  {
    text.value := body;

    var paragraphTitleText := new Node(Text, [], title.displayTitle, map[]);
    var paragraphTitle := new Node(Paragraph, [paragraphTitleText], "",
                                   TitleParagraphData(config, title.checkedTitle));
    node.children := [paragraphTitle] + node.children;

    node.data := BlockData(config, node.data, title.checkedTitle);
  }

  /** `{ ...defaults, ...provided }`: every key the caller supplies replaces
      the default one as a whole, every other key keeps its default. */
  function Merge(defaults: Config, provided: PartialConfig): (c: Config)
    ensures provided.classNameMaps.Some? ==> c.classNameMaps == provided.classNameMaps.value
    ensures provided.classNameMaps.None? ==> c.classNameMaps == defaults.classNameMaps
    ensures provided.titleFilter.Some? ==> c.titleFilter == provided.titleFilter.value
    ensures provided.titleFilter.None? ==> c.titleFilter == defaults.titleFilter
    ensures provided.titleTextMap.Some? ==> c.titleTextMap == provided.titleTextMap.value
    ensures provided.titleTextMap.None? ==> c.titleTextMap == defaults.titleTextMap
    ensures provided.dataMaps.Some? ==> c.dataMaps == provided.dataMaps.value
    ensures provided.dataMaps.None? ==> c.dataMaps == defaults.dataMaps
    ensures c.titleKeepTrailingWhitespaces ==
      provided.titleKeepTrailingWhitespaces.GetOr(defaults.titleKeepTrailingWhitespaces)
    ensures c.legacyTitle == provided.legacyTitle.GetOr(defaults.legacyTitle)
  {
    Config(
      provided.classNameMaps.GetOr(defaults.classNameMaps),
      provided.titleFilter.GetOr(defaults.titleFilter),
      provided.titleTextMap.GetOr(defaults.titleTextMap),
      provided.dataMaps.GetOr(defaults.dataMaps),
      provided.titleKeepTrailingWhitespaces.GetOr(defaults.titleKeepTrailingWhitespaces),
      provided.legacyTitle.GetOr(defaults.legacyTitle))
  }

  /** `{ ...defaults, ...provided }` over the legacy configuration. */
  function MergeLegacy(defaults: LegacyConfig, provided: PartialConfig): (c: LegacyConfig)
    ensures c.base == Merge(defaults.base, provided)
    ensures c.titleLift == provided.titleLift.GetOr(defaults.titleLift)
    ensures c.titleUnwrap == provided.titleUnwrap.GetOr(defaults.titleUnwrap)
    ensures provided.titleLiftWhitespaces.Some? ==> c.titleLiftWhitespaces == provided.titleLiftWhitespaces.value
    ensures provided.titleLiftWhitespaces.None? ==> c.titleLiftWhitespaces == defaults.titleLiftWhitespaces
  {
    LegacyConfig(
      Merge(defaults.base, provided),
      provided.titleLift.GetOr(defaults.titleLift),
      provided.titleLiftWhitespaces.GetOr(defaults.titleLiftWhitespaces),
      provided.titleUnwrap.GetOr(defaults.titleUnwrap))
  }

  /** Merging no keys gives the defaults back, and merging the same keys
      twice is merging them once. */
  lemma MergeLaws(defaults: Config, provided: PartialConfig)
    ensures Merge(defaults, NoConfig) == defaults
    ensures Merge(Merge(defaults, provided), provided) == Merge(defaults, provided)
  {
  }

  /** The visitor the plugin installs, chosen once per run. */
  datatype Visitor = Bracket(config: Config) | Legacy(legacyConfig: LegacyConfig)

  /** The plugin: the variant comes from the caller's `legacyTitle`, falling
      back to the default (false), and the chosen visitor gets the caller's
      keys merged over that variant's defaults. */
  function Plugin(provided: PartialConfig): (v: Visitor)
    ensures v.Legacy? <==> provided.legacyTitle == Some(true)
    ensures v.Bracket? ==> v.config == Merge(DefaultConfig, provided)
    ensures v.Legacy? ==> v.legacyConfig == MergeLegacy(DefaultLegacyConfig, provided)
  {
    var legacyTitle := provided.legacyTitle.GetOr(DefaultConfig.legacyTitle);
    if legacyTitle then Legacy(MergeLegacy(DefaultLegacyConfig, provided))
    else Bracket(Merge(DefaultConfig, provided))
  }

  /** Runs the installed visitor on one node, with that visitor's outcome: a
      node it does not match keeps every node it could write; a matched node
      is rewritten as `HandleNode` or `LegacyTitle.HandleNode` says. */
  method Visit(visitor: Visitor, node: Node)
    modifies node`children, node`data
    modifies (if visitor.Legacy? then FirstChildren({node}) else {})`children
    modifies (if visitor.Legacy? then FirstChildren(FirstChildren({node})) else {})`data
    modifies (if visitor.Bracket? then FirstChildren(FirstChildren({node})) else {})`value
    modifies (if visitor.Legacy? then FirstChildren(FirstChildren(FirstChildren({node}))) else {})`value
    modifies (if visitor.Legacy? then SecondChildren(FirstChildren({node})) else {})`value
    ensures visitor.Bracket? && !old(Matches(visitor.config, node)) ==>
      unchanged(node) && unchanged(old(FirstChildren(FirstChildren({node}))))
    ensures visitor.Bracket? && old(Matches(visitor.config, node)) ==>
      var config := visitor.config;
      var text := old(MarkerNode(node));
      var plan := old(Plan(config, text.value)).value;
      && text.value == plan.heading.body
      && |node.children| == old(|node.children|) + 1
      && node.children[1..] == old(node.children)
      && fresh(node.children[0])
      && IsTitleParagraph(node.children[0], plan.text.displayTitle,
                          TitleParagraphData(config, plan.text.checkedTitle))
      && fresh(node.children[0].children[0])
      && node.data == BlockData(config, old(node.data), plan.text.checkedTitle)
      && ('\n' !in plan.text.displayTitle ==> !Matches(config, node))
    ensures visitor.Legacy? && !old(LegacyTitle.Matches(visitor.legacyConfig, node)) ==>
      unchanged(old(LegacyTitle.Touched(node)))
    ensures visitor.Legacy? && old(LegacyTitle.Matches(visitor.legacyConfig, node)) ==>
      var config := visitor.legacyConfig;
      var paragraph := old(node.children[0]);
      var strong := old(paragraph.children[0]);
      var text := old(strong.children[0]);
      var title := config.base.titleTextMap(old(text.value));
      && LegacyTitle.Plan(config, old(text.value)) == Some(title)
      && node.data == LegacyTitle.BlockData(config.base, old(node.data), title.checkedTitle)
      && strong.data == LegacyTitle.StrongData(config.base, old(strong.data), title.checkedTitle)
      && (!config.titleLift ==>
            && node.children == old(node.children)
            && paragraph.children == old(paragraph.children)
            && text.value == title.displayTitle
            && (|paragraph.children| > 1 && paragraph.children[1] != text ==>
                  paragraph.children[1].value == old(paragraph.children[1].value)))
      && (config.titleLift ==>
            && paragraph.children == old(paragraph.children)[1..]
            && |node.children| == old(|node.children|) + 1
            && node.children[1..] == old(node.children)
            && fresh(node.children[0])
            && (config.titleUnwrap ==>
                  && IsTitleParagraph(node.children[0], title.displayTitle,
                                      TitleParagraphData(config.base, title.checkedTitle))
                  && fresh(node.children[0].children[0]))
            && (!config.titleUnwrap ==>
                  && node.children[0].kind == Paragraph
                  && node.children[0].children == [strong]
                  && node.children[0].data == map[])
            && text.value == LegacyTitle.LiftedValue(config, paragraph.children, text, title.displayTitle)
            && (|paragraph.children| > 0 && paragraph.children[0] != text ==>
                  var rest := paragraph.children[0];
                  rest.value == LegacyTitle.LiftedValue(config, paragraph.children, rest, old(rest.value))))
  {
    match visitor
    case Bracket(config) => HandleNode(config, node);
    case Legacy(config) => LegacyTitle.HandleNode(config, node);
  }

  /** The MkDocs filter for bracketed titles: `[!admonition: ...]` or a title
      opening with `[!` and a recognised type, closed by `]`. */
  function MkdocsFilter(title: string): (r: bool)
    ensures r ==> "[!" <= title && EndsWith(title, "]")
    ensures r <==> (EndsWith(title, "]") &&
                    ("[!" + LegacyTitle.CustomTypePrefix <= title
                     || exists t :: t in LegacyTitle.AdmonitionTypes && "[!" + t <= title))
  {
    var typed := "[!" <= title && LegacyTitle.StartsWithType(title[2..]);
    assert typed <==> exists t :: t in LegacyTitle.AdmonitionTypes && "[!" + t <= title by {
      forall t | t in LegacyTitle.AdmonitionTypes
        ensures ("[!" <= title && t <= title[2..]) <==> "[!" + t <= title
      {
        if "[!" + t <= title {
          assert title[..2] == "[!";
          assert title[2..][..|t|] == title[2..2 + |t|];
        }
        if "[!" <= title && t <= title[2..] {
          assert title[..2 + |t|] == title[..2] + title[2..][..|t|];
        }
      }
    }
    ("[!" + LegacyTitle.CustomTypePrefix <= title && EndsWith(title, "]"))
    || (typed && EndsWith(title, "]"))
  }

  /** The bracket MkDocs filter is the legacy one inside `[!` and `]`. */
  lemma MkdocsFilterInBrackets(title: string)
    ensures MkdocsFilter(title) <==>
      "[!" <= title && EndsWith(title, "]") && LegacyTitle.MkdocsFilter(title[2..])
  {
    if "[!" <= title {
      BracketedPrefix(title, LegacyTitle.CustomTypePrefix);
      forall t | t in LegacyTitle.AdmonitionTypes
        ensures ("[!" + t <= title) <==> t <= title[2..]
      {
        BracketedPrefix(title, t);
      }
    }
  }

  /** Under a leading `[!`, `[!` followed by `p` opens the title exactly when
      `p` opens the rest. */
  lemma BracketedPrefix(title: string, p: string)
    requires "[!" <= title
    ensures ("[!" + p <= title) <==> p <= title[2..]
  {
    if "[!" + p <= title {
      assert title[2..][..|p|] == title[2..2 + |p|] == ("[!" + p)[2..];
    }
    if p <= title[2..] {
      assert title[..2 + |p|] == title[..2] + title[2..][..|p|];
    }
  }

  /** The MkDocs text map for bracketed titles: the legacy one applied to the
      title without its `[!` and `]`. */
  function MkdocsTextMap(title: string): (t: TitleText)
    ensures |title| >= 3 ==> t == LegacyTitle.MkdocsTextMap(title[2..|title| - 1])
  {
    LegacyTitle.MkdocsTextMap(Substring(title, 2, |title| - 1))
  }

  /** Round trip: a title written `[!kind "display"]` maps back to `display`
      shown and `kind` checked. */
  lemma MkdocsTextMapRoundTrip(kind: string, display: string)
    requires !Contains(kind, LegacyTitle.QuoteOpen)
    ensures MkdocsTextMap("[!" + kind + LegacyTitle.QuoteOpen + display + "\"]")
      == TitleText(display, kind)
  {
    var inner := kind + LegacyTitle.QuoteOpen + display + "\"";
    var title := "[!" + inner + "]";
    assert title == "[!" + kind + LegacyTitle.QuoteOpen + display + "\"]";
    assert title[2..|title| - 1] == inner;
    LegacyTitle.MkdocsTextMapRoundTrip(kind, display);
  }

  /** The bundled MkDocs preset for bracketed titles. */
  const MkdocsConfig: PartialConfig := NoConfig.(
    classNameMaps := Some(ClassNameMaps(Fn(LegacyTitle.MkdocsBlockClasses), Lit("admonition-title"))),
    titleFilter := Some(Predicate(MkdocsFilter)),
    titleTextMap := Some(MkdocsTextMap))

  /** The bracket MkDocs preset over the defaults: its filter and text map,
      block classes `admonition` and the title's types, the title class
      `admonition-title`; the keys it does not set keep their defaults. */
  lemma MkdocsPreset(title: string, data: Data)
    ensures var c := Merge(DefaultConfig, MkdocsConfig);
      && (Accepts(c.titleFilter, title) <==> MkdocsFilter(title))
      && c.titleTextMap(title) == MkdocsTextMap(title)
      && ClassNameOf(c.classNameMaps.block, title) == "admonition " + LegacyTitle.MkdocsTypes(title)
      && ClassNameOf(c.classNameMaps.title, title) == "admonition-title"
      && c.dataMaps.block(data) == data && c.dataMaps.title(data) == data
      && !c.titleKeepTrailingWhitespaces && !c.legacyTitle
  {
    var c := Merge(DefaultConfig, MkdocsConfig);
    assert c.classNameMaps == ClassNameMaps(Fn(LegacyTitle.MkdocsBlockClasses), Lit("admonition-title"));
    assert c.titleFilter == Predicate(MkdocsFilter);
    assert c.titleTextMap == MkdocsTextMap;
    assert c.dataMaps == DefaultConfig.dataMaps;
    LegacyTitle.MkdocsBlockClassName(title);
  }

  /** The legacy MkDocs preset over the legacy defaults: lift and unwrap on,
      the whitespace after a lifted title still deleted, its filter and text
      map, the same classes as the bracket preset, and `hName: div` added to
      the block's bag. */
  lemma LegacyMkdocsPreset(title: string, data: Data, whitespaces: string)
    ensures var c := MergeLegacy(DefaultLegacyConfig, LegacyTitle.MkdocsConfig);
      && c.titleLift && c.titleUnwrap
      && c.titleLiftWhitespaces(whitespaces) == ""
      && (Accepts(c.base.titleFilter, title) <==> LegacyTitle.MkdocsFilter(title))
      && c.base.titleTextMap(title) == LegacyTitle.MkdocsTextMap(title)
      && ClassNameOf(c.base.classNameMaps.block, title) == "admonition " + LegacyTitle.MkdocsTypes(title)
      && ClassNameOf(c.base.classNameMaps.title, title) == "admonition-title"
      && c.base.dataMaps.block(data) == data["hName" := Str("div")]
      && c.base.dataMaps.title(data) == data
  {
    var c := MergeLegacy(DefaultLegacyConfig, LegacyTitle.MkdocsConfig);
    assert c.base.classNameMaps == ClassNameMaps(Fn(LegacyTitle.MkdocsBlockClasses), Lit("admonition-title"));
    assert c.base.titleFilter == Predicate(LegacyTitle.MkdocsFilter);
    assert c.base.titleTextMap == LegacyTitle.MkdocsTextMap;
    assert c.base.dataMaps == LegacyTitle.MkdocsConfig.dataMaps.value;
    assert c.titleLiftWhitespaces == DefaultLegacyConfig.titleLiftWhitespaces;
    LegacyTitle.MkdocsBlockClassName(title);
  }
}
