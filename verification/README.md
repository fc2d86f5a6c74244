# GitHub-style blockquote admonitions, modelled in Dafny

remark-github-beta-blockquote-admonitions is a remark plugin. It rewrites
markdown blockquotes that open with an admonition marker into titled,
classed blocks. Two markers exist:

- **Bracket marker.** `> [!NOTE]` on a line of its own. The visitor cuts
  the marker line off the first text node. It puts a title paragraph in
  front of the blockquote's children and marks the blockquote to render as
  a `div` with the block class names.
- **Legacy marker.** `> **Note**`, a strong run as the first inline of the
  first paragraph. The visitor rewrites the title text in place and adds
  class names to the blockquote and to the strong run. It can lift the title
  into a paragraph of its own (`titleLift`), unwrap it from the strong run
  (`titleUnwrap`), and rewrite the whitespace left at the front of the body
  (`titleLiftWhitespaces`).

The plugin merges the caller's partial configuration over the defaults of
the chosen variant. The variant is chosen by `legacyTitle`. Each variant
comes with a MkDocs preset.

The project has six modules:

| file | module | models |
|---|---|---|
| `js_strings.dfy` | `JsStrings` | The JavaScript string operations the code relies on: `indexOf`, the clamping and swapping `substring`, one-character `split`/`join`, and the GFM whitespace classes of the two regular expressions. |
| `config.dfy` | `Configuration` | `src/config.ts`: configuration records, defaults, `classNameMap`, `nameFilter`. TypeScript's `typeof` unions become tagged datatypes, and callbacks become total function values. |
| `mdast.dfy` | `Mdast` | The tree nodes the visitors read and mutate. A node is a class with a fixed kind and mutable `children`, `value` and `data`, as unist objects are. |
| `legacy_title.dfy` | `LegacyTitle` | `src/legacyTitle.ts`: the legacy visitor as a method that updates nodes in place, and its MkDocs preset. |
| `index.dfy` | `Admonitions` | `src/index.ts`: the bracket visitor as a method, the configuration merge, the plugin's choice of visitor, and the bracket MkDocs preset. |
| `scenarios.dfy` | `Scenarios` | Concrete and parametrised cases from the repository's test suites, derived from the general lemmas. |

The visitors are specified against pure functions:

- `Admonitions.Plan` and `LegacyTitle.Plan` decide whether a node is
  rewritten and with which titles.
- `BlockData`, `StrongData`, `TitleParagraphData` and `LiftWhitespace` give
  the new side data and text.

Each method's postcondition ties the new node state to those functions. A
node that does not match is left unchanged. The string lemmas prove what
the functions mean: round trips, maximal runs, first occurrences.

## Model

| member | source | states |
|---|---|---|
| JsStrings.IndexOf | src/index.ts:97 | `indexOf` returns -1 or an index where the pattern occurs. The pattern occurs at no smaller index, and nowhere when the result is -1. |
| JsStrings.IndexOfChar | src/index.ts:46-47 | The line-feed search returns -1 exactly when the character is absent. Otherwise it returns the position of its first occurrence. |
| JsStrings.Clamp | src/config.ts:28 | A `substring` bound below 0 becomes 0, one past the end becomes the length, and one in range is kept. |
| JsStrings.Substring | src/index.ts:48-49 | `substring` is the slice from the smaller to the larger clamped bound. Spelled out: in-range bounds give the slice between them, in either order; a bound below 0 reads as 0 and one past the end as the length, on either side; bounds both at or below 0, or both at or past the end, give the empty string. |
| JsStrings.Split | src/legacyTitle.ts:74 | `split(' ')` yields at least one piece, and no piece contains the separator. |
| JsStrings.JoinSplit | src/legacyTitle.ts:74 | Joining the pieces of a split with the same separator gives the string back. |
| JsStrings.JoinEnds | src/config.ts:62 | `join` of no parts is empty; otherwise the result opens with the first part and closes with the last. |
| JsStrings.SplitJoin | src/config.ts:62 | Splitting a join of at least one separator-free part gives the parts back. |
| JsStrings.EndsWithConcat | src/index.ts:91 | `endsWith` holds exactly when the string is some prefix followed by the suffix. |
| JsStrings.TrimEndGfm | src/index.ts:52-55 | The trimmed title is a prefix of the line. Everything cut off is GFM whitespace other than the line feed, and the prefix does not end in such whitespace: the cut is the maximal match of `/[ \t\v\f\r]+$/`. |
| JsStrings.LeadingSpaces | src/legacyTitle.ts:62-64 | The whitespace run is a prefix made only of GFM whitespace including line feeds, and the character after it is not whitespace: the match of `/^[ \t\n\v\f\r]*/`. |
| Configuration.ClassNameOf | src/config.ts:59-64 | A literal class name is returned as is. A literal list is joined with single spaces. A function spec is applied to the title, and a list it returns is joined. |
| Configuration.ClassNameListOneSpace | src/config.ts:62 | A list of space-free class names becomes a string that splits back into exactly that list, so each pair is separated by one space. |
| Configuration.CustomClassNames | src/config.ts:59-64 | The class-name values of the test suites: `'ad'` stays `ad`, and `['ad-title1', 'ad-title2']` becomes `ad-title1 ad-title2`. |
| Configuration.Includes | src/config.ts:70 | `includes` is true exactly when the title is an element of the list. |
| Configuration.Accepts | src/config.ts:68-72 | A list filter accepts exactly the titles in the list (exact, case-sensitive). A predicate filter returns the predicate's answer. |
| Configuration.DefaultTextMap | src/config.ts:27-30 | The default text map shows and checks the same string. For three or more characters, that string is the title without its first two and its last character. Shorter titles follow `substring`'s clamping. |
| Configuration.DefaultTextMapCutsOnly | src/config.ts:27-30 | Every character the default text map shows comes from the title. |
| Configuration.DefaultTextMapUnbrackets | src/config.ts:27-30 | The default text map maps `[!name]` back to `name`, shown and checked. |
| Configuration.WithClassName | src/legacyTitle.ts:29-36 | Spreading a bag and setting `hProperties` adds that one key, holding the class name, and keeps every other key's value. |
| Configuration.TitleParagraphData | src/index.ts:67-69 | With a title data map that keeps its bag, a fresh title paragraph's bag holds exactly one key, `hProperties`, with the title class name. |
| Configuration.BracketDefaults | src/config.ts:21-37 | The defaults as written: the filter accepts exactly `NOTE`, `IMPORTANT` and `WARNING`; the class names are `admonition` and `admonition-title` whatever the title; the text map is the default one; both data maps return the bag unchanged; trailing whitespace is trimmed; the bracket variant is chosen. |
| Configuration.LegacyDefaults | src/config.ts:46-54 | The legacy defaults: filter `['Note', 'Warning']`, identity text map, lift and unwrap off, whitespace rewritten to `""`. The other keys are inherited from the bracket defaults. |
| LegacyTitle.Plan | src/legacyTitle.ts:21-23 | The legacy visitor goes ahead exactly when the filter accepts the raw title. The titles are then the text map's output for that raw title. |
| LegacyTitle.LiftWhitespace | src/legacyTitle.ts:60-66 | The new text opens with the callback's output for the leading whitespace run, and is as long as that output plus the text minus the run. |
| LegacyTitle.BlockData | src/legacyTitle.ts:29-32 | With a block data map that keeps its bag, the blockquote's new bag is its old one with `hProperties` set to the block class name of the checked title. |
| LegacyTitle.StrongData | src/legacyTitle.ts:33-36 | With a title data map that keeps its bag, the strong run's new bag is its old one with `hProperties` set to the title class name of the checked title. |
| LegacyTitle.LiftWhitespaceKeepsRest | src/legacyTitle.ts:60-66 | Whatever the rewrite callback, the text after the leading whitespace run ends the new value and starts with no whitespace. A text with no leading whitespace only gains the callback's output for `""` in front. |
| LegacyTitle.LiftWhitespaceDeletes | src/legacyTitle.ts:62-65 | With the default callback the leading whitespace run, line feeds included, is deleted. The result is the input minus that run. |
| LegacyTitle.LiftWhitespaceCustom | test/legacyTitle.spec.ts:219-238 | A callback returning `a` turns `\ntest` into `atest`. |
| LegacyTitle.HandleNode | src/legacyTitle.ts:9-68 | See the legacy visitor list below the table. |
| LegacyTitle.Retitle | src/legacyTitle.ts:25-36 | The title text shows the display title. The blockquote and the strong run get their old bags with the class name of the checked title, through the block and title data maps. |
| LegacyTitle.LiftTitle | src/legacyTitle.ts:39-66 | See the title-lift list below the table. |
| LegacyTitle.MkdocsTypes | src/legacyTitle.ts:74 | A title starting with `admonition: ` loses exactly that prefix; any other title is kept whole. |
| LegacyTitle.MkdocsBlockClasses | src/legacyTitle.ts:72-75 | The MkDocs block classes are a list of at least two names: `admonition`, then the space-free words of the types. |
| LegacyTitle.MkdocsBlockClassName | src/legacyTitle.ts:72-75 | The MkDocs block class string is `admonition`, a space, and the title without a leading `admonition: `. |
| LegacyTitle.MkdocsFilter | src/legacyTitle.ts:78-80 | The legacy MkDocs filter accepts exactly the titles that start with `admonition: ` or with one of the nine type keywords. |
| LegacyTitle.MkdocsTextMap | src/legacyTitle.ts:83-92 | See the MkDocs text-map list below the table. |
| LegacyTitle.MkdocsTextMapRoundTrip | src/legacyTitle.ts:83-92 | Round trip: `kind "display"` maps to display `display` and checked `kind`, provided `kind` contains no ` "`. |
| Admonitions.TrimTitle | src/index.ts:52-55 | The candidate title is a prefix of the first line. It is the whole line when whitespace is kept. Otherwise it is the line minus its maximal trailing GFM-whitespace run. |
| Admonitions.TrimTitleDropsTrailing | src/index.ts:52-55 | A line made of a part not ending in whitespace, followed by whitespace, trims to exactly that part. |
| Admonitions.ReadHeading | src/index.ts:46-55 | There is no heading exactly when the text has no line feed. Otherwise the text is the first line, a line feed, and the body; the line holds no line feed; and the title is the trimmed line. |
| Admonitions.ReadHeadingRoundTrip | src/index.ts:46-49 | Round trip: a line without line feeds, a line feed and a body are read back as that line and that body. |
| Admonitions.Plan | src/index.ts:46-57 | A text without a line feed is never rewritten. Otherwise it is rewritten exactly when the filter accepts the trimmed first line, and then with the text map's titles for it. |
| Admonitions.BlockData | src/index.ts:74-79 | With a block data map that keeps its bag, the blockquote's new bag is `DivData` of its old one. |
| Admonitions.DivData | src/index.ts:74-79 | The bag given to the block data map has every old key, an `hProperties` holding the block class name, and `hName` set to `div`. Every other key keeps its value. |
| Admonitions.HandleNode | src/index.ts:35-80 | See the bracket visitor list below the table. |
| Admonitions.InsertTitle | src/index.ts:59-79 | The text keeps only the body. The blockquote gains one fresh title paragraph in front of its old children, holding one fresh text node with the display title and the title class bag. The blockquote's bag becomes the block data map of its old bag with the class name and `hName: div`. |
| Admonitions.Merge | src/index.ts:29 | `{ ...defaultConfig, ...providedConfig }`: each key the caller supplies replaces the default as a whole, and each other key keeps its default. |
| Admonitions.MergeLegacy | src/index.ts:28 | The same merge over the legacy defaults, including the three lift keys. |
| Admonitions.MergeLaws | src/index.ts:28-29 | Merging nothing gives the defaults back. Merging the same keys twice is merging them once. |
| Admonitions.Plugin | src/index.ts:22-32 | The legacy visitor is installed exactly when the caller sets `legacyTitle: true`. Each visitor gets the caller's keys merged over its own defaults. |
| Admonitions.Visit | src/index.ts:25-30 | The installed visitor's outcome: only the fields that visitor writes may change. A node it does not match keeps every node the visitor could write, and a matched node is rewritten as that visitor's `HandleNode` states. |
| Admonitions.MkdocsFilter | src/index.ts:90-93 | The bracket MkDocs filter accepts exactly the titles ending in `]` that start with `[!admonition: `, or with `[!` and a type keyword. |
| Admonitions.MkdocsFilterInBrackets | src/index.ts:90-93 | The bracket MkDocs filter accepts exactly the titles that open with `[!`, close with `]`, and whose rest after `[!` the legacy MkDocs filter (src/legacyTitle.ts:78-80) accepts. |
| Admonitions.MkdocsTextMap | src/index.ts:94-104 | On a title of three or more characters, the bracket MkDocs text map is the legacy one applied to the title without `[!` and `]`. |
| Admonitions.MkdocsTextMapRoundTrip | src/index.ts:94-104 | Round trip: `[!kind "display"]` maps to display `display` and checked `kind` when `kind` contains no ` "`. |
| Admonitions.MkdocsPreset | src/index.ts:82-105 | The bracket MkDocs preset over the defaults: its filter and text map, block classes `admonition` plus the types, title class `admonition-title`. The keys it does not set keep their defaults. |
| Admonitions.LegacyMkdocsPreset | src/legacyTitle.ts:70-97 | The legacy MkDocs preset over the legacy defaults: lift and unwrap on, its filter and text map, the same classes, and `hName: div` added to the block's bag. The whitespace after a lifted title is still deleted. |
| Scenarios.WrittenDefaultFilterRejects | src/config.ts:26 | The default filter as written accepts `NOTE` but rejects `[!NOTE]`, `[!IMPORTANT]` and `[!WARNING]`. So a plugin run without configuration rewrites no default marker. |
| Scenarios.DefaultTransformsMarkers | test/index.spec.ts:32-42 | Under the corrected defaults, each of the three markers followed by a line feed is rewritten. The title paragraph shows the bare name and the body is what follows the line feed. |
| Scenarios.DefaultListsMarkers | src/config.ts:26 | The corrected default list accepts each of the three markers in brackets. |
| Scenarios.TrailingWhitespace | test/index.spec.ts:116-127 | `[!NOTE] \r\t\v` trims to `[!NOTE]`, and stays whole when trailing whitespace is kept. |
| Scenarios.CustomTitleList | test/index.spec.ts:167-180 | The list `['[!TIPS]', '[!HINTS]']` rewrites `[!TIPS]` followed by a line feed to show `TIPS`, with the rest of the text as the body. |
| Scenarios.CustomPredicateFilter | test/index.spec.ts:182-195 | The predicate `starts with [!tIp and ends with ]` rewrites `[!name]` exactly when `name` starts with `tIp`, case-sensitively, and shows `name`. |
| Scenarios.MkdocsBracketed | test/index.spec.ts:276-287 | The bracket MkDocs preset accepts `[!kind "display"]` for a kind opening with a type keyword, reads back `kind` and `display`, and gives the block classes `admonition kind`. |
| Scenarios.MkdocsCustomType | test/index.spec.ts:289-303 | `[!admonition: name "display"]` is accepted, and the block classes are `admonition name`, without the `admonition:` prefix. |
| Scenarios.LegacyDefaultTitles | src/config.ts:48 | The legacy defaults accept `Note` shown as written, and reject `note` and `Tips`. |
| Scenarios.LegacyMkdocs | test/legacyTitle.spec.ts:301-312 | With `legacyTitle: true` the legacy MkDocs preset is installed with lift and unwrap on. It reads `kind "display"` back, and gives the blockquote `hName: div` and the classes `admonition kind`. |
| Scenarios.PluginChoice | src/index.ts:22-32 | With no caller configuration the bracket visitor runs with the defaults. `legacyTitle: true` selects the legacy visitor. |
| Scenarios.DefaultDisplayHasNoLineFeed | src/index.ts:46-63 | Under the default text map a display title never holds a line feed, so by `HandleNode`'s last clause a rewritten blockquote is not rewritten again. |

`LegacyTitle.HandleNode` (the legacy visitor):

- A node that does not match is left unchanged, all five nodes the visitor could write included. A node does not match when it has the wrong shape or the filter rejects its raw title.
- On a match, the blockquote and the strong run get the class-name bags.
- Without `titleLift`, the title text shows the display title, both child lists are unchanged, and the paragraph's second child keeps its value.
- With `titleLift`, the lift happens as `LiftTitle` says.

`LegacyTitle.LiftTitle` (the title lift):

- The strong leaves the paragraph.
- The blockquote gains exactly one fresh first child, and its old children follow. That child holds either the same strong run, or, with unwrap, a fresh title paragraph.
- The paragraph's new first text has its leading whitespace rewritten. No other node changes value.

`LegacyTitle.MkdocsTextMap` (the legacy MkDocs text map):

- Without ` "` in the title, both titles are empty.
- Otherwise the checked title is everything before the first ` "`, and it contains none.
- The display title lies between the quotes.

`Admonitions.HandleNode` (the bracket visitor):

- A node that does not match is left unchanged, its first paragraph's first child included. A node does not match when it has the wrong shape, its text has no line feed, or the filter rejects its title.
- On a match, the text keeps only what follows its first line.
- The blockquote gains exactly one fresh first child and keeps its old children after it. That child is a title paragraph holding one fresh text node that shows the display title, with the title class bag.
- The blockquote's bag becomes the block data map of `DivData`.
- When the display title has no line feed, the rewritten blockquote no longer matches.

Where the code and its own declarations or tests part, the model follows the code:

- **The default filter.** The visitor filters the whole marker (`[!NOTE]`, src/index.ts:56), but the default list holds bare names (src/config.ts:26). See "## Findings".
- **The trailing-whitespace flag.** The visitor reads `titleKeepTrailingWhitespaces` (src/index.ts:53). The declared configuration has a `titleTrailingWhitespaces` callback instead (src/config.ts:17, 35), which no code reads. The model has the flag the visitor reads, false unless the caller sets it.
- **No single-line case.** A text without a line feed is never rewritten (src/index.ts:46-47), whatever follows it.
- **Legacy filter order.** The legacy filter judges the raw title, before the text map runs (src/legacyTitle.ts:22-23). It does not judge the checked title.

## Findings

| source | as written | input that shows it | evidently intended | confidence | as-written member | corrected member |
|---|---|---|---|---|---|---|
| src/config.ts:26 | The default `titleFilter` is `['NOTE', 'IMPORTANT', 'WARNING']`, but the visitor hands the filter the whole marker line, brackets included. | `> [!NOTE]` / `> test` under the default configuration: the filter gets `[!NOTE]`, rejects it, and nothing is rewritten. | The list `['[!NOTE]', '[!IMPORTANT]', '[!WARNING]']`. The default markers are then rewritten to show `NOTE` etc., as test/index.spec.ts:32-42 and 116-127 expect, and as the custom list `['[!TIPS]', '[!HINTS]']` of test/index.spec.ts:174 is written. | high; not executed | Scenarios.WrittenDefaultFilterRejects | Scenarios.DefaultTransformsMarkers |

`Configuration.DefaultConfig`, which the plugin uses, holds the list as written (`Configuration.WrittenDefaultFilter`), so a run without configuration behaves as the code does. `Configuration.CorrectedDefaultConfig` holds the bracketed list, and `Scenarios.DefaultTransformsMarkers` shows what the tests expect under it.

## Left out

- Tree traversal is not part of this model. `unist-util-visit` walks the tree, and the visitor runs on each node once; the model states one visitor call on one node. Nested blockquotes are not modelled.
- Parsing markdown into mdast, rendering to HTML, and plugin registration with unified are not part of this model.
- The regular expressions become predicates on characters: `TrimEndGfm`, `LeadingSpaces` and the type-keyword prefix test. Regular-expression matching in general is not modelled.
- Caller callbacks (filters, text maps, class-name functions, data maps, the whitespace rewrite) are total functions. Callbacks that throw or have side effects are not modelled.
- Node `type` values other than the four the visitors test are collapsed into `Other`. mdast node fields other than `children`, `value` and `data` (positions, other properties) are not modelled.
- A missing `data` bag is the empty map. The nodes built without `data` have the empty map: the lifted title paragraph that is not unwrapped (src/legacyTitle.ts:53), and the fresh title text nodes (src/index.ts:63, src/legacyTitle.ts:44).
- A partial configuration has one optional value per key. A key given explicitly as `undefined`, which the JavaScript spread would copy over the default, is not modelled.
- `titleTrailingWhitespaces`, declared in src/config.ts:17 but never read, is not modelled.
- Strings are sequences of Dafny characters rather than UTF-16 code units. Surrogate pairs are not distinguished.
- LegacyTitle.HandleNode: no clause states that a rewritten legacy blockquote does not match again. The lifted or mapped title can still be accepted by the filter, so the source makes no such promise.
- LegacyTitle.MkdocsTextMap: only the round trip and the in-range display title are stated. Titles that end right after ` "` (where `substring` swaps its bounds) are left to the function's definition.
- The test runner and its HTML snapshots are not part of this model.
