/** The policy shared by both rewriters: the configuration records with their
    defaults, the class-name resolver and the title filter. TypeScript's
    `typeof`-discriminated unions become tagged datatypes; the callbacks a
    caller supplies become total function values. */
module Configuration {
  import opened JsStrings

  datatype Option<T> = None | Some(value: T) {
    /** `value ?? fallback` */
    function GetOr(fallback: T): T {
      if Some? then value else fallback
    }
  }

  /** A value stored in a node's side-data bag. */
  datatype Val = Str(s: string) | Obj(fields: map<string, Val>)

  /** A node's side-data bag (`data`); an absent bag is the empty map. */
  type Data = map<string, Val>

  /** What a class-name callback returns: one string or a list of them. */
  datatype ClassNames = Name(name: string) | Names(names: seq<string>)

  /** A class-name spec: a literal, a literal list, or a function of the title. */
  datatype ClassNameMap = Lit(name: string) | Lits(names: seq<string>) | Fn(f: string -> ClassNames)

  /** A title-filter spec: the accepted titles, or a predicate. */
  datatype NameFilter = Titles(titles: seq<string>) | Predicate(p: string -> bool)

  /** The two strings a title text map produces. */
  datatype TitleText = TitleText(displayTitle: string, checkedTitle: string)

  datatype ClassNameMaps = ClassNameMaps(block: ClassNameMap, title: ClassNameMap)

  datatype DataMaps = DataMaps(block: Data -> Data, title: Data -> Data)

  /** The configuration of the bracket-marker rewriter. `titleKeepTrailingWhitespaces`
      is the flag its visitor reads; it is false unless a caller sets it. */
  datatype Config = Config(
    classNameMaps: ClassNameMaps,
    titleFilter: NameFilter,
    titleTextMap: string -> TitleText,
    dataMaps: DataMaps,
    titleKeepTrailingWhitespaces: bool,
    legacyTitle: bool)

  /** The configuration of the strong-marker rewriter: every key of `Config`
      and the three lift settings. */
  datatype LegacyConfig = LegacyConfig(
    base: Config,
    titleLift: bool,
    titleLiftWhitespaces: string -> string,
    titleUnwrap: bool)

  /** A caller-supplied partial configuration: `None` is a key left out. */
  datatype PartialConfig = PartialConfig(
    classNameMaps: Option<ClassNameMaps>,
    titleFilter: Option<NameFilter>,
    titleTextMap: Option<string -> TitleText>,
    dataMaps: Option<DataMaps>,
    titleKeepTrailingWhitespaces: Option<bool>,
    legacyTitle: Option<bool>,
    titleLift: Option<bool>,
    titleLiftWhitespaces: Option<string -> string>,
    titleUnwrap: Option<bool>)

  /** The partial configuration with no key, which is also what an absent one means. */
  const NoConfig: PartialConfig :=
    PartialConfig(None, None, None, None, None, None, None, None, None)

  /** A resolved class-name value as one string: a list is joined with single spaces. */
  function ClassNamesString(names: ClassNames): string {
    match names
    case Name(name) => name
    case Names(list) => Join(list, ' ')
  }

  /** `classNameMap(gen)(title)`: a function spec is applied to the title
      first, then a list is normalised by joining. */
  function ClassNameOf(gen: ClassNameMap, title: string): (r: string)
    ensures gen.Lit? ==> r == gen.name
    ensures gen.Lits? ==> r == Join(gen.names, ' ')
    ensures gen.Fn? ==> r == ClassNamesString(gen.f(title))
  {
    var names := match gen
      case Fn(f) => f(title)
      case Lit(name) => Name(name)
      case Lits(list) => Names(list);
    ClassNamesString(names)
  }

  /** A literal list is turned into its elements separated by exactly one
      space each: splitting the result at spaces gives the list back. */
  lemma ClassNameListOneSpace(names: seq<string>, title: string)
    requires |names| >= 1
    requires forall i :: 0 <= i < |names| ==> ' ' !in names[i]
    ensures Split(ClassNameOf(Lits(names), title), ' ') == names
  {
    SplitJoin(names, ' ');
  }

  /** `titles.includes(title)`: a scan from the front comparing with `===`. */
  function Includes(titles: seq<string>, title: string): (r: bool)
    ensures r <==> title in titles
  {
    |titles| > 0 && (titles[0] == title || Includes(titles[1..], title))
  }

  /** `nameFilter(filter)(title)`. */
  function Accepts(filter: NameFilter, title: string): (r: bool)
    ensures filter.Titles? ==> (r <==> title in filter.titles)
    ensures filter.Predicate? ==> r == filter.p(title)
  {
    match filter
    case Titles(titles) => Includes(titles, title)
    case Predicate(p) => p(title)
  }

  /** The default title text map: the title without its first two characters
      (`[!`) and its last one (`]`), shown and checked alike. On titles shorter
      than three characters the clamping and swapping of `substring` decide. */
  function DefaultTextMap(title: string): (t: TitleText)
    ensures t.displayTitle == t.checkedTitle
    ensures |title| >= 3 ==> t.checkedTitle == title[2..|title| - 1]
    ensures |title| <= 1 ==> t.checkedTitle == title
    ensures |title| == 2 ==> t.checkedTitle == title[1..]
  {
    var inner := Substring(title, 2, |title| - 1);
    TitleText(inner, inner)
  }

  /** The default text map only cuts characters off the title: every
      character it shows comes from the title. */
  lemma DefaultTextMapCutsOnly(title: string)
    ensures forall c :: c in DefaultTextMap(title).displayTitle ==> c in title
  {
    var shown := DefaultTextMap(title).displayTitle;
    if |title| >= 3 {
      assert shown == title[2..|title| - 1];
    } else if |title| == 2 {
      assert shown == title[1..];
    }
  }

  /** The default text map undoes the bracket marker around a name. */
  lemma DefaultTextMapUnbrackets(name: string)
    ensures DefaultTextMap("[!" + name + "]") == TitleText(name, name)
  {
    var title := "[!" + name + "]";
    assert title[2..|title| - 1] == name;
  }

  /** `{ ...data, hProperties: { className } }`: the class name replaces the
      render properties and every other key is kept. */
  function WithClassName(data: Data, className: string): (r: Data)
    ensures r.Keys == data.Keys + {"hProperties"}
    ensures r["hProperties"] == Obj(map["className" := Str(className)])
    ensures forall k :: k in data && k != "hProperties" ==> r[k] == data[k]
  {
    data["hProperties" := Obj(map["className" := Str(className)])]
  }

  /** The side data of a freshly built title paragraph:
      `dataMaps.title({ hProperties: { className } })`. */
  function TitleParagraphData(config: Config, checkedTitle: string): (r: Data)
    ensures (forall d :: config.dataMaps.title(d) == d) ==>
      r == map["hProperties" := Obj(map["className" := Str(ClassNameOf(config.classNameMaps.title, checkedTitle))])]
  {
    config.dataMaps.title(WithClassName(map[], ClassNameOf(config.classNameMaps.title, checkedTitle)))
  }

  /** The default title filter as src/config.ts:26 writes it: bare names. The
      bracket visitor hands the filter the whole marker, brackets included,
      so this list never accepts a marker. */
  const WrittenDefaultFilter: NameFilter := Titles(["NOTE", "IMPORTANT", "WARNING"])

  /** The defaults of the bracket-marker rewriter, as written, filter included. */
  const DefaultConfig: Config := Config(
    ClassNameMaps(Lit("admonition"), Lit("admonition-title")),
    WrittenDefaultFilter,
    DefaultTextMap,
    DataMaps(data => data, data => data),
    false,
    false)

  /** The defaults with the filter the bracket visitor needs: the three
      markers with their brackets, as the visitor sees them and as a
      caller's list must be written. */
  const CorrectedDefaultConfig: Config :=
    DefaultConfig.(titleFilter := Titles(["[!NOTE]", "[!IMPORTANT]", "[!WARNING]"]))

  /** The defaults of the strong-marker rewriter: `DefaultConfig` with its own
      filter and an identity text map, lifting and unwrapping switched off. */
  const DefaultLegacyConfig: LegacyConfig := LegacyConfig(
    DefaultConfig.(
      titleFilter := Titles(["Note", "Warning"]),
      titleTextMap := title => TitleText(title, title),
      legacyTitle := false),
    false,
    whitespaces => "",
    false)

  /** The bracket defaults: the bare-name filter, the literal class names
      `admonition` and `admonition-title` whatever the title, the default text
      map, data maps that leave a bag as it is, trailing whitespace trimmed,
      and the bracket variant. */
  lemma BracketDefaults(title: string, data: Data)
    ensures Accepts(DefaultConfig.titleFilter, title) <==> title in ["NOTE", "IMPORTANT", "WARNING"]
    ensures ClassNameOf(DefaultConfig.classNameMaps.block, title) == "admonition"
    ensures ClassNameOf(DefaultConfig.classNameMaps.title, title) == "admonition-title"
    ensures DefaultConfig.titleTextMap(title) == DefaultTextMap(title)
    ensures DefaultConfig.dataMaps.block(data) == data
    ensures DefaultConfig.dataMaps.title(data) == data
    ensures !DefaultConfig.titleKeepTrailingWhitespaces && !DefaultConfig.legacyTitle
  {
  }

  /** What the legacy defaults change, and that every other key is inherited. */
  lemma LegacyDefaults(title: string, whitespaces: string)
    ensures DefaultLegacyConfig.base.titleFilter == Titles(["Note", "Warning"])
    ensures DefaultLegacyConfig.base.titleTextMap(title) == TitleText(title, title)
    ensures !DefaultLegacyConfig.titleLift && !DefaultLegacyConfig.titleUnwrap
    ensures DefaultLegacyConfig.titleLiftWhitespaces(whitespaces) == ""
    ensures !DefaultLegacyConfig.base.legacyTitle
    ensures DefaultLegacyConfig.base.classNameMaps == DefaultConfig.classNameMaps
    ensures DefaultLegacyConfig.base.dataMaps == DefaultConfig.dataMaps
    ensures DefaultLegacyConfig.base.titleKeepTrailingWhitespaces == DefaultConfig.titleKeepTrailingWhitespaces
  {
  }

  /** The class names the test suites configure: a literal for the block and
      a two-element list for the title. */
  lemma CustomClassNames(title: string)
    ensures ClassNameOf(Lit("ad"), title) == "ad"
    ensures ClassNameOf(Lits(["ad-title1", "ad-title2"]), title) == "ad-title1 ad-title2"
  {
  }
}
