/** The rewriter for legacy titles like `**Note**`: a blockquote whose first
    paragraph opens with a strong run of one text node. It updates the title
    text and both side-data bags in place and can lift the title into a
    paragraph of its own. Also the bundled MkDocs preset for it. */
module LegacyTitle {
  import opened JsStrings
  import opened Configuration
  import opened Mdast

  /** The blockquote shape the visitor accepts: a blockquote whose first child
      is a paragraph, whose first child is a strong with exactly one child,
      a text node. */
  ghost predicate Eligible(node: Node)
    reads node, node.children, if |node.children| > 0 then node.children[0].children else []
  {
    && node.kind == Blockquote
    && |node.children| > 0
    && node.children[0].kind == Paragraph
    && |node.children[0].children| > 0
    && node.children[0].children[0].kind == Strong
    && |node.children[0].children[0].children| == 1
    && node.children[0].children[0].children[0].kind == Text
  }

  /** The text inside the strong run of an eligible blockquote. */
  ghost function TitleNode(node: Node): Node
    requires Eligible(node)
    reads node, node.children, node.children[0].children
  {
    node.children[0].children[0].children[0]
  }

  /** The visitor rewrites `node`: it is eligible and the filter accepts its raw title. */
  ghost predicate Matches(config: LegacyConfig, node: Node)
    reads node, node.children, if |node.children| > 0 then node.children[0].children else []
    reads if Eligible(node) then {TitleNode(node)} else {}
  {
    Eligible(node) && Accepts(config.base.titleFilter, TitleNode(node).value)
  }

  /** The nodes the visitor may write: the blockquote, its first paragraph,
      the strong run, the strong's text and the paragraph's second child. */
  ghost function Touched(node: Node): set<Node>
    reads node, FirstChildren({node}), FirstChildren(FirstChildren({node}))
  {
    var paragraphs := FirstChildren({node});
    {node} + paragraphs + FirstChildren(paragraphs) + FirstChildren(FirstChildren(paragraphs))
      + SecondChildren(paragraphs)
  }

  /** What the visitor decides for a raw title: the filter sees the title as
      written, and only an accepted title goes through the text map. */
  function Plan(config: LegacyConfig, title: string): (r: Option<TitleText>)
    ensures r.Some? <==> Accepts(config.base.titleFilter, title)
    ensures r.Some? ==> r.value == config.base.titleTextMap(title)
  {
    if Accepts(config.base.titleFilter, title) then Some(config.base.titleTextMap(title)) else None
  }

  /** The blockquote's new side data: its old bag with the block class name,
      through the block data map. No render-element hint is added. */
  function BlockData(config: Config, data: Data, checkedTitle: string): (r: Data)
    ensures (forall d :: config.dataMaps.block(d) == d) ==>
      r == WithClassName(data, ClassNameOf(config.classNameMaps.block, checkedTitle))
  {
    config.dataMaps.block(WithClassName(data, ClassNameOf(config.classNameMaps.block, checkedTitle)))
  }

  /** The strong run's new side data: its old bag with the title class name,
      through the title data map. */
  function StrongData(config: Config, data: Data, checkedTitle: string): (r: Data)
    ensures (forall d :: config.dataMaps.title(d) == d) ==>
      r == WithClassName(data, ClassNameOf(config.classNameMaps.title, checkedTitle))
  {
    config.dataMaps.title(WithClassName(data, ClassNameOf(config.classNameMaps.title, checkedTitle)))
  }

  /** The text after a lifted title: its maximal leading run of GFM whitespace
      (line feeds included) is replaced by what `rewrite` makes of it. */
  function LiftWhitespace(rewrite: string -> string, value: string): (r: string)
    ensures rewrite(LeadingSpaces(value)) <= r
    ensures |r| == |rewrite(LeadingSpaces(value))| + |value| - |LeadingSpaces(value)|
  {
    var whitespaces := LeadingSpaces(value);
    rewrite(whitespaces) + value[|whitespaces|..]
  }

  /** Whatever the rewrite function, the text after the leading whitespace
      survives as the tail of the result, and a text without leading
      whitespace only gains a prefix. */
  lemma LiftWhitespaceKeepsRest(rewrite: string -> string, value: string)
    ensures var rest := value[|LeadingSpaces(value)|..];
      && EndsWith(LiftWhitespace(rewrite, value), rest)
      && (rest == [] || !IsGfmSpaceOrNewline(rest[0]))
    ensures value == [] || !IsGfmSpaceOrNewline(value[0]) ==>
      LiftWhitespace(rewrite, value) == rewrite("") + value
  {
    var w := LeadingSpaces(value);
    var r := LiftWhitespace(rewrite, value);
    assert r[|r| - |value[|w|..]|..] == value[|w|..];
  }

  /** With the default rewrite the leading whitespace is deleted: the result
      is the input minus its leading run and starts with no whitespace. */
  lemma LiftWhitespaceDeletes(value: string)
    ensures var r := LiftWhitespace(DefaultLegacyConfig.titleLiftWhitespaces, value);
      value == LeadingSpaces(value) + r && (r == [] || !IsGfmSpaceOrNewline(r[0]))
  {
    var w := LeadingSpaces(value);
    assert value == w + value[|w|..];
  }

  /** The custom rewrite of the test suite turns the line feed after the
      title into `a`. */
  lemma LiftWhitespaceCustom()
    ensures LiftWhitespace(w => "a", "\ntest") == "atest"
  {
    var s := "\ntest";
    assert LeadingSpaces(s[1..]) == [];
    assert LeadingSpaces(s) == "\n";
  }

  /** The legacy visitor. A node of any other shape, or one whose raw title
      the filter rejects, is left exactly as it was. Otherwise the title text
      shows the display title, the blockquote and the strong get their class
      names, and with `titleLift` the title is lifted as `LiftTitle` says. */
  method HandleNode(config: LegacyConfig, node: Node)
    modifies node`children, node`data
    modifies FirstChildren({node})`children
    modifies FirstChildren(FirstChildren({node}))`data
    modifies FirstChildren(FirstChildren(FirstChildren({node})))`value
    modifies SecondChildren(FirstChildren({node}))`value
    ensures !old(Matches(config, node)) ==> unchanged(old(Touched(node)))
    ensures old(Matches(config, node)) ==>
      var paragraph := old(node.children[0]);
      var strong := old(paragraph.children[0]);
      var text := old(strong.children[0]);
      var title := config.base.titleTextMap(old(text.value));
      && Plan(config, old(text.value)) == Some(title)
      && node.data == BlockData(config.base, old(node.data), title.checkedTitle)
      && strong.data == StrongData(config.base, old(strong.data), title.checkedTitle)
      && (!config.titleLift ==>
            && node.children == old(node.children)
            && paragraph.children == old(paragraph.children)
            && text.value == title.displayTitle
            && (|paragraph.children| > 1 && paragraph.children[1] != text ==>
                  paragraph.children[1].value == old(paragraph.children[1].value)))
      && (config.titleLift ==>
            && paragraph.children == old(paragraph.children)[1..]
            && |node.children| == old(|node.children|) + 1
            && node.children[1..] == old(node.children)
            && fresh(node.children[0])
            && (config.titleUnwrap ==>
                  && IsTitleParagraph(node.children[0], title.displayTitle,
                                      TitleParagraphData(config.base, title.checkedTitle))
                  && fresh(node.children[0].children[0]))
            && (!config.titleUnwrap ==>
                  && node.children[0].kind == Paragraph
                  && node.children[0].children == [strong]
                  && node.children[0].data == map[])
            && text.value == LiftedValue(config, paragraph.children, text, title.displayTitle)
            && (|paragraph.children| > 0 && paragraph.children[0] != text ==>
                  var rest := paragraph.children[0];
                  rest.value == LiftedValue(config, paragraph.children, rest, old(rest.value))))
  {
    if node.kind != Blockquote { return; }
    if |node.children| <= 0 || node.children[0].kind != Paragraph { return; }
    var paragraph := node.children[0];
    if |paragraph.children| <= 0 || paragraph.children[0].kind != Strong { return; }
    var strong := paragraph.children[0];
    if |strong.children| != 1 || strong.children[0].kind != Text { return; }
    var text := strong.children[0];
    var title := text.value;
    if !Accepts(config.base.titleFilter, title) { return; }
    var mapped := config.base.titleTextMap(title);
    Retitle(config.base, node, strong, text, mapped);
    if config.titleLift {
      LiftTitle(config, node, paragraph, strong, mapped);
    }
  }

  /** The legacy visitor's in-place updates: the title text shows the display
      title, and the blockquote and the strong run get their class names. */
  method Retitle(config: Config, node: Node, strong: Node, text: Node, title: TitleText)
    requires node.kind == Blockquote && strong.kind == Strong && text.kind == Text
    modifies text`value, node`data, strong`data
    ensures text.value == title.displayTitle
    ensures node.data == BlockData(config, old(node.data), title.checkedTitle)
    ensures strong.data == StrongData(config, old(strong.data), title.checkedTitle)
  {
    text.value := title.displayTitle;

    node.data := BlockData(config, node.data, title.checkedTitle);
    strong.data := StrongData(config, strong.data, title.checkedTitle);
  }

  /** The value a node of the lifted paragraph's remaining children `rest`
      ends up with, `value` before the lift: the first of them, when it is a
      text node, has its leading whitespace rewritten; every other node keeps
      its value. */
  ghost function LiftedValue(config: LegacyConfig, rest: seq<Node>, n: Node, value: string): string {
    if |rest| > 0 && rest[0] == n && n.kind == Text then LiftWhitespace(config.titleLiftWhitespaces, value)
    else value
  }

  /** The title lift: the strong leaves the front of the paragraph, and the
      blockquote gains one new first child, a paragraph holding the same strong
      or, with `titleUnwrap`, a fresh text showing the display title. The old
      paragraph stays. If it now starts with a text node, that text's leading
      whitespace is rewritten by `titleLiftWhitespaces`. */
  method LiftTitle(config: LegacyConfig, node: Node, paragraph: Node, strong: Node, title: TitleText)
    requires node.kind == Blockquote && paragraph.kind == Paragraph
    requires |paragraph.children| > 0 && paragraph.children[0] == strong
    modifies node`children, paragraph`children, SecondChildren({paragraph})`value
    ensures paragraph.children == old(paragraph.children)[1..]
    ensures |node.children| == old(|node.children|) + 1
    ensures node.children[1..] == old(node.children)
    ensures fresh(node.children[0])
    ensures config.titleUnwrap ==>
      && IsTitleParagraph(node.children[0], title.displayTitle,
                          TitleParagraphData(config.base, title.checkedTitle))
      && fresh(node.children[0].children[0])
    ensures !config.titleUnwrap ==>
      && node.children[0].kind == Paragraph
      && node.children[0].children == [strong]
      && node.children[0].data == map[]
    ensures forall n | n in old(SecondChildren({paragraph})) ::
      n.value == LiftedValue(config, paragraph.children, n, old(n.value))
  {
    var strongToLift := paragraph.children[0];
    paragraph.children := paragraph.children[1..];
    var paragraphTitle: Node;
    if config.titleUnwrap {
      var paragraphTitleText := new Node(Text, [], title.displayTitle, map[]);
      paragraphTitle := new Node(Paragraph, [paragraphTitleText], "",
                                 TitleParagraphData(config.base, title.checkedTitle));
    } else {
      paragraphTitle := new Node(Paragraph, [strongToLift], "", map[]);
    }
    node.children := [paragraphTitle] + node.children;
    if |paragraph.children| > 0 && paragraph.children[0].kind == Text {
      var rest := paragraph.children[0];
      rest.value := LiftWhitespace(config.titleLiftWhitespaces, rest.value);
    }
  }

  /** The admonition types the MkDocs preset recognises at the start of a title. */
  const AdmonitionTypes: seq<string> :=
    ["attention", "caution", "danger", "error", "hint", "important", "note", "tip", "warning"]

  /** The prefix that introduces a custom MkDocs admonition type. */
  const CustomTypePrefix: string := "admonition: "

  /** `s` starts with one of the recognised admonition types. */
  predicate StartsWithType(s: string) {
    exists t :: t in AdmonitionTypes && t <= s
  }

  /** No recognised type starts with `ad`, so a title opening with a type
      never opens with `admonition: `. */
  lemma TypedIsNotCustom(title: string)
    requires StartsWithType(title)
    ensures !(CustomTypePrefix <= title)
  {
    var t :| t in AdmonitionTypes && t <= title;
    assert |t| >= 2 && (t[0] != 'a' || t[1] != 't' ==> t[0] != 'a');
    assert t[0] == title[0] && t[1] == title[1];
    assert CustomTypePrefix[0] == 'a' && CustomTypePrefix[1] == 'd';
  }

  /** The types part of a MkDocs title: the title without a leading
      `admonition: `. */
  function MkdocsTypes(title: string): (types: string)
    ensures CustomTypePrefix <= title ==> types == title[|CustomTypePrefix|..]
    ensures !(CustomTypePrefix <= title) ==> types == title
  {
    if CustomTypePrefix <= title then Substring(title, |CustomTypePrefix|, |title|) else title
  }

  /** The MkDocs block class names: `admonition` followed by the space-separated
      words of the title, without a leading `admonition: `. */
  function MkdocsBlockClasses(title: string): (r: ClassNames)
    ensures r.Names? && |r.names| >= 2 && r.names[0] == "admonition"
    ensures forall i :: 1 <= i < |r.names| ==> ' ' !in r.names[i]
  {
    Names(["admonition"] + Split(MkdocsTypes(title), ' '))
  }

  /** The MkDocs block class string is `admonition`, a space, and the title
      with any `admonition: ` prefix removed: the split into words and the
      join undo each other. */
  lemma MkdocsBlockClassName(title: string)
    ensures ClassNameOf(Fn(MkdocsBlockClasses), title) ==
      "admonition " + (if CustomTypePrefix <= title then title[|CustomTypePrefix|..] else title)
  {
    var types := MkdocsTypes(title);
    var words := Split(types, ' ');
    JoinSplit(types, ' ');
    JoinCons("admonition", words, ' ');
    assert MkdocsBlockClasses(title) == Names(["admonition"] + words);
    assert ClassNameOf(Fn(MkdocsBlockClasses), title) == Join(["admonition"] + words, ' ');
    assert "admonition" + [' '] == "admonition ";
  }

  /** The MkDocs filter for legacy titles: a custom `admonition: ` title or
      one that starts with a recognised type. */
  function MkdocsFilter(title: string): (r: bool)
    ensures r <==> CustomTypePrefix <= title || exists t :: t in AdmonitionTypes && t <= title
  {
    CustomTypePrefix <= title || StartsWithType(title)
  }

  /** The opening of the quoted display title. */
  const QuoteOpen: string := " \""

  /** The MkDocs text map for legacy titles: the checked title is what comes
      before the first ` "`, the display title what lies between the quotes;
      without a ` "` both are empty. */
  function MkdocsTextMap(title: string): (t: TitleText)
    ensures IndexOf(title, QuoteOpen) < 0 ==> t == TitleText("", "")
    ensures var i := IndexOf(title, QuoteOpen);
      i >= 0 ==> t.checkedTitle == title[..i] && !Contains(t.checkedTitle, QuoteOpen)
    ensures var i := IndexOf(title, QuoteOpen);
      0 <= i && i + 2 <= |title| - 1 ==> t.displayTitle == title[i + 2..|title| - 1]
  {
    var i := IndexOf(title, QuoteOpen);
    var displayTitle := if i >= 0 then Substring(title, i + 2, |title| - 1) else "";
    var checkedTitle := Substring(title, 0, i);
    if i >= 0 then
      NoEarlierOccurrence(title, QuoteOpen, i);
      TitleText(displayTitle, checkedTitle)
    else
    TitleText(displayTitle, checkedTitle)
  }

  /** The prefix of `s` before index `i` does not contain `pat` when `pat`
      occurs in `s` at no index before `i`. */
  lemma NoEarlierOccurrence(s: string, pat: string, i: int)
    requires |pat| > 0 && 0 <= i <= |s|
    requires forall k :: 0 <= k < i ==> !OccursAt(s, pat, k)
    ensures IndexOf(s[..i], pat) < 0
  {
    forall k | 0 <= k
      ensures !OccursAt(s[..i], pat, k)
    {
      if k + |pat| <= i {
        assert !OccursAt(s, pat, k);
        assert s[..i][k..k + |pat|] == s[k..k + |pat|];
      }
    }
  }

  /** The first ` "` of a title built as `kind "display"` is the one after `kind`
      when `kind` holds none. */
  lemma QuoteAfterKind(kind: string, display: string)
    requires !Contains(kind, QuoteOpen)
    ensures IndexOf(kind + QuoteOpen + display + "\"", QuoteOpen) == |kind|
  {
    var title := kind + QuoteOpen + display + "\"";
    assert OccursAt(title, QuoteOpen, |kind|) by {
      assert title[|kind|..|kind| + 2] == QuoteOpen;
    }
    forall k | 0 <= k < |kind|
      ensures !OccursAt(title, QuoteOpen, k)
    {
      if k + 2 <= |kind| {
        assert title[k..k + 2] == kind[k..k + 2];
        assert !OccursAt(kind, QuoteOpen, k);
      } else {
        assert title[k + 1] == ' ';
      }
    }
  }

  /** Round trip: the MkDocs text map reads back the kind and the display
      title of a title written as `kind "display"`. */
  lemma MkdocsTextMapRoundTrip(kind: string, display: string)
    requires !Contains(kind, QuoteOpen)
    ensures MkdocsTextMap(kind + QuoteOpen + display + "\"") == TitleText(display, kind)
  {
    var title := kind + QuoteOpen + display + "\"";
    QuoteAfterKind(kind, display);
    assert title[..|kind|] == kind;
    assert title[|kind| + 2..|title| - 1] == display;
  }

  /** The bundled MkDocs preset: lift and unwrap the title, `admonition`-based
      class names, and a block data map that renders the blockquote as a `div`. */
  const MkdocsConfig: PartialConfig := NoConfig.(
    classNameMaps := Some(ClassNameMaps(Fn(MkdocsBlockClasses), Lit("admonition-title"))),
    titleFilter := Some(Predicate(MkdocsFilter)),
    titleLift := Some(true),
    titleUnwrap := Some(true),
    titleTextMap := Some(MkdocsTextMap),
    dataMaps := Some(DataMaps(data => data["hName" := Str("div")], data => data)))
}
