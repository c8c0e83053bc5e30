# Line chart component: construction-time normalisation

This project models the data normalisation inside the `LineGraph` line-chart
component (`ChartJs.framerfx/code/Line_ChartJs.tsx`). The component takes
author-supplied properties and prepares them for the charting library.

The constructor does two things:

- It folds the annotation list into horizontal-line descriptors. On the way it
  resolves each annotation's colour in place and reads its value with
  `parseInt`.
- It walks the dataset list and rewrites each record in place:
  - the text `"false"` in `fill` becomes `false`;
  - text `data` is split on commas;
  - colours that mention a CSS variable are resolved to the first
    `rgb(r, g, b)` text they contain;
  - seven fixed styling fields are written.

Three further pieces are modelled:

- `getRgbFromVar`: the colour resolver.
- `mySplit`: the label splitter.
- The tooltip's split of a body line into a dataset title and value.

Modules, one per concept:

- `Wrappers`: `Option`.
- `Strings`: JavaScript's `split` with a one-character separator, `includes`, and digit runs. Each comes with its join round trip and its characterisations.
- `JsParseInt`: `parseInt` on decimal text. A result of `None` stands for `NaN`.
- `Colour`: the regular expression `rgb\((\d{1,3}), (\d{1,3}), (\d{1,3})\)` as a token pattern, and an anchored matcher for it. The matcher is proved sound and complete against the declarative rendering of the pattern. The module also has the leftmost-match search and `getRgbFromVar`.
- `Tooltip`: `body[0].split(":")[0]` and `[1]`. A value of `None` stands for `undefined`.
- `Annotations`: the annotation `reduce`, as a specification function and as an in-place method over an array of annotation records.
- `Datasets`: the dataset `forEach`, as a specification function and as an in-place method over an array of dataset records.
- `Chart`: the `LineGraph` class with its `annotations` field, its constructor and `mySplit`.
- `Defaults`: the default properties and what the constructor makes of them.

`match(...)[0]` on a colour that mentions `var` but contains no `rgb(...)`
text throws in the source. This is modelled as failure:

- the pass stops where the exception is raised;
- updates already written stay written;
- `Chart.Create` returns `None` instead of a component.

After normalisation `fill` is not always a boolean and `data` is not always a
list. Only the text `"false"` in `fill` is converted: any other `fill`, such as
the second default dataset's `"0"`, stays as it was. `data` is split only when
it is text: missing data stays missing. `Defaults.SecondDatasetNormalised`
shows the `"0"` case.

Each default comma-separated text (labels and series) is written as its pieces
joined by commas, which is the same string as the literal in the source.

## Model

| member | source | states |
|---|---|---|
| Strings.Join | ChartJs.framerfx/code/Line_ChartJs.tsx:229 | `Array.prototype.join`, the inverse of the split; `Strings.JoinSplit` and `Strings.SplitJoin` prove the two round trips |
| Strings.Contains | ChartJs.framerfx/code/Line_ChartJs.tsx:233 | `String.prototype.includes`; `Strings.ContainsAt` proves it holds exactly when the needle occurs at some index |
| Strings.Split | ChartJs.framerfx/code/Line_ChartJs.tsx:229 | splitting always yields at least one piece (`"".split(",")` is `[""]`) |
| Strings.SplitLength | ChartJs.framerfx/code/Line_ChartJs.tsx:229 | the number of pieces is the number of separators plus one |
| Strings.SplitPiecesFree | ChartJs.framerfx/code/Line_ChartJs.tsx:229 | no piece contains the separator |
| Strings.JoinSplit | ChartJs.framerfx/code/Line_ChartJs.tsx:229 | joining the pieces with the separator gives back the text |
| Strings.SplitJoin | ChartJs.framerfx/code/Line_ChartJs.tsx:229 | splitting the join of separator-free pieces gives back the pieces |
| Strings.SplitCons | ChartJs.framerfx/code/Line_ChartJs.tsx:62 | text before the first separator is the first piece, and the rest splits as before |
| Strings.SplitFirstPieces | ChartJs.framerfx/code/Line_ChartJs.tsx:343-344 | piece 0 is the text before the first separator; with a separator, piece 1 is the text between the first separator and the next one or the end; with none, the only piece is the whole text |
| Strings.ContainsAt | ChartJs.framerfx/code/Line_ChartJs.tsx:65 | `includes` holds exactly when the needle occurs at some index |
| Strings.DigitRunSpec | ChartJs.framerfx/code/Line_ChartJs.tsx:232 | the digit run from an index is all digits and is followed by the end or a non-digit |
| JsParseInt.ParseInt | ChartJs.framerfx/code/Line_ChartJs.tsx:43 | `parseInt` on text, `None` for `NaN`; `JsParseInt.ParseIntValue` gives its value on every white-space, sign and digit-run input, `JsParseInt.ParseIntNaN` says when it is `NaN`, and `JsParseInt.ParseIntSkipsSpace` says leading white space is ignored |
| JsParseInt.ParseSigned | ChartJs.framerfx/code/Line_ChartJs.tsx:43 | the sign and the digit run after the white space; `JsParseInt.ParseIntValue` states its value for each of the three signs and any digit run, leading zeros included, and `JsParseInt.ParseIntNaN` states when no digit follows |
| JsParseInt.TrimStart | ChartJs.framerfx/code/Line_ChartJs.tsx:43 | the trimmed text is empty or starts with a non-space |
| JsParseInt.NatTextValue | ChartJs.framerfx/code/Line_ChartJs.tsx:43 | the decimal digits of a natural number read back as that number |
| JsParseInt.ParseIntSkipsSpace | ChartJs.framerfx/code/Line_ChartJs.tsx:43 | leading ECMAScript white space does not change what `parseInt` reads |
| JsParseInt.ParseIntRoundTrip | ChartJs.framerfx/code/Line_ChartJs.tsx:43 | after white space, the decimal text of any integer followed by a non-digit reads as that integer |
| JsParseInt.ParseIntNaN | ChartJs.framerfx/code/Line_ChartJs.tsx:43 | after white space and an optional sign, the result is `NaN` exactly when no digit follows |
| JsParseInt.ParseIntValue | ChartJs.framerfx/code/Line_ChartJs.tsx:43 | after white space, no sign, `-` or `+`, and a non-empty digit run ended by the end or a non-digit, the result is the run's decimal value, negated after `-` (`"+5"` is 5, `"007"` is 7, `"-0"` is 0) |
| Colour.MatchFrom | ChartJs.framerfx/code/Line_ChartJs.tsx:232 | an anchored match ends within the text, not before its start |
| Colour.MatchFromSound | ChartJs.framerfx/code/Line_ChartJs.tsx:232 | a successful anchored attempt captures one to three digits per group and consumes exactly the rendered pattern |
| Colour.MatchFromComplete | ChartJs.framerfx/code/Line_ChartJs.tsx:232 | wherever a delimited pattern occurs with some groups, the anchored attempt finds it with those same groups |
| Colour.RgbPatternDelimited | ChartJs.framerfx/code/Line_ChartJs.tsx:232 | every group of the `rgb(...)` pattern is followed by a literal that starts with a non-digit, and there are three groups |
| Colour.RgbTextShape | ChartJs.framerfx/code/Line_ChartJs.tsx:232 | the matched text is `rgb(` then group one, `, `, group two, `, `, group three and `)` |
| Colour.FindRgb | ChartJs.framerfx/code/Line_ChartJs.tsx:234 | a match found from index `p` starts at or after `p` |
| Colour.FindRgbLeftmost | ChartJs.framerfx/code/Line_ChartJs.tsx:234 | the search returns a match of the regular expression with none earlier, and fails only when it matches nowhere |
| Colour.FirstRgbMatch | ChartJs.framerfx/code/Line_ChartJs.tsx:234 | `str.match(regex)[0]` with the `g` flag, `None` where `match` gives `null`; `Colour.FindRgbLeftmost` proves it is the leftmost match |
| Colour.RgbFromVar | ChartJs.framerfx/code/Line_ChartJs.tsx:231-237 | `getRgbFromVar`; `Colour.RgbFromVarFails`, `Colour.RgbFromVarFirstMatch` and `Colour.RgbFromVarIdempotent` carry its contract |
| Colour.RgbFromVarFails | ChartJs.framerfx/code/Line_ChartJs.tsx:231-237 | text without `var` is returned unchanged; text with `var` fails (the `null[0]` exception) exactly when the regular expression matches nowhere |
| Colour.RgbFromVarFirstMatch | ChartJs.framerfx/code/Line_ChartJs.tsx:231-237 | a resolved colour is a match of the regular expression with no match starting earlier |
| Colour.RgbFromVarIdempotent | ChartJs.framerfx/code/Line_ChartJs.tsx:231-237 | a resolved colour no longer mentions `var`, and resolving it again changes nothing |
| Colour.FindRgbSkips | ChartJs.framerfx/code/Line_ChartJs.tsx:234 | indices where the anchored attempt fails are skipped by the search |
| Colour.ResolvesFallback | ChartJs.framerfx/code/Line_ChartJs.tsx:231-237 | `var(--x, rgb(10, 20, 30))` resolves to `rgb(10, 20, 30)` |
| Tooltip.SplitBodyLine | ChartJs.framerfx/code/Line_ChartJs.tsx:343-344 | the body line split on colons into title and value; `Tooltip.SplitBodyLineSpec` states both parts |
| Tooltip.SplitBodyLineSpec | ChartJs.framerfx/code/Line_ChartJs.tsx:343-344 | the title is the text before the first colon; without a colon it is the whole line and the value is undefined; with one, the value is the text up to the next colon or the end |
| Tooltip.SplitDatasetLine | ChartJs.framerfx/code/Line_ChartJs.tsx:343-344 | `Dataset: 42` gives title `Dataset` and value ` 42` |
| Tooltip.SplitLineWithTwoColons | ChartJs.framerfx/code/Line_ChartJs.tsx:343-344 | `Sales: Q1: 42` gives title `Sales` and value ` Q1`; the text after the second colon is dropped |
| Annotations.ResolveInput | ChartJs.framerfx/code/Line_ChartJs.tsx:34-38 | the colour update of one input annotation, `None` where it throws; `Annotations.ReduceSucceeds` and `Annotations.ReduceEntries` state when it resolves and what it writes |
| Annotations.LineOf | ChartJs.framerfx/code/Line_ChartJs.tsx:39-47 | the pushed descriptor; `Annotations.ReduceEntries` states all seven of its fields |
| Annotations.Reduce | ChartJs.framerfx/code/Line_ChartJs.tsx:33-50 | the fold keeps one input per annotation, and a successful fold gives one descriptor per annotation |
| Annotations.ReduceSucceeds | ChartJs.framerfx/code/Line_ChartJs.tsx:33-50 | the fold succeeds exactly when every annotation's colour resolves |
| Annotations.ReduceEntries | ChartJs.framerfx/code/Line_ChartJs.tsx:33-50 | descriptor `i` is a horizontal line on `y-axis-0` with width 2 and dash `[4, 5]`; its value is `parseInt` of annotation `i`'s value; its colour is the resolved colour; annotation `i` is rewritten with that colour |
| Annotations.ReduceFailure | ChartJs.framerfx/code/Line_ChartJs.tsx:33-38 | when annotation `k` is the first whose colour fails, the fold throws, annotations before `k` are rewritten and the rest are untouched |
| Annotations.ResolveAt | ChartJs.framerfx/code/Line_ChartJs.tsx:34-38 | the colour of annotation `i` is rewritten in place when it resolves, and nothing changes when it throws |
| Annotations.BuildAnnotations | ChartJs.framerfx/code/Line_ChartJs.tsx:33-50 | the in-place fold leaves the array and returns the descriptors exactly as `Reduce` describes |
| Datasets.NormaliseEntry | ChartJs.framerfx/code/Line_ChartJs.tsx:53-82 | the `forEach` callback on one record; `Datasets.NormaliseEntrySpec` states every field of its result, finished or not |
| Datasets.NormaliseEntrySpec | ChartJs.framerfx/code/Line_ChartJs.tsx:52-83 | the callback converts `fill` `"false"` to `false` and keeps any other `fill`; it splits text `data` and keeps other `data`; it finishes exactly when both colours resolve; it then stores colours without `var` and the seven styling fields; `label` and the point colour never change |
| Datasets.NormaliseEntryIdempotent | ChartJs.framerfx/code/Line_ChartJs.tsx:52-83 | running the callback again on a record it finished changes nothing |
| Datasets.NormaliseAll | ChartJs.framerfx/code/Line_ChartJs.tsx:52-83 | the walk keeps one record per dataset |
| Datasets.NormaliseAllSpec | ChartJs.framerfx/code/Line_ChartJs.tsx:52-83 | the walk finishes exactly when every callback finishes, and then record `i` is the callback's result on record `i` |
| Datasets.NormaliseAllFailure | ChartJs.framerfx/code/Line_ChartJs.tsx:65-74 | when record `k` is the first whose colour fails, the walk throws; records up to `k` hold the callback's (partial) result and later records are untouched |
| Datasets.NormalisedShape | ChartJs.framerfx/code/Line_ChartJs.tsx:52-83 | after a finished walk no `fill` is the text `"false"`, no `data` is text, no colour mentions `var`, and every styling field is set |
| Datasets.NormaliseRecord | ChartJs.framerfx/code/Line_ChartJs.tsx:53-82 | updating record `i` field by field gives the callback's result, reports whether it finished and changes no other record |
| Datasets.NormaliseDatasets | ChartJs.framerfx/code/Line_ChartJs.tsx:52-83 | the in-place walk leaves the array and reports success exactly as `NormaliseAll` describes |
| Chart.MySplit | ChartJs.framerfx/code/Line_ChartJs.tsx:229 | the labels split into one more piece than there are commas; the pieces are comma-free and join back to the text; empty text gives one empty label |
| Chart.LineGraph.Empty | ChartJs.framerfx/code/Line_ChartJs.tsx:28 | a new component starts with no annotations |
| Chart.LineGraph.Init | ChartJs.framerfx/code/Line_ChartJs.tsx:30-83 | the constructor body sets `annotations` to the fold's descriptors and then normalises the datasets; a failing fold leaves the field and the datasets unchanged |
| Chart.Create | ChartJs.framerfx/code/Line_ChartJs.tsx:27-84 | `new LineGraph(props)` succeeds exactly when the fold and the walk both succeed; the component's annotations and the datasets are as the two specifications describe; the datasets are untouched when the fold fails |
| Defaults.DefaultLabelsSplit | ChartJs.framerfx/code/Line_ChartJs.tsx:117-118 | the default labels split into the twelve month names |
| Defaults.FirstDataSplit | ChartJs.framerfx/code/Line_ChartJs.tsx:91 | the first default series splits into its twelve values |
| Defaults.SecondDataSplit | ChartJs.framerfx/code/Line_ChartJs.tsx:99 | the second default series splits into its twelve values |
| Defaults.PlainEntry | ChartJs.framerfx/code/Line_ChartJs.tsx:52-83 | a record whose colours contain no `v` and whose text data splits into given points is finished by the callback with those points and its colours kept |
| Defaults.FirstDatasetNormalised | ChartJs.framerfx/code/Line_ChartJs.tsx:89-96 | the first default dataset gets `fill` `false`, its twelve points, unchanged colours and the styling fields |
| Defaults.SecondDatasetNormalised | ChartJs.framerfx/code/Line_ChartJs.tsx:97-104 | the second default dataset keeps `fill` `"0"` and gets its twelve points, unchanged colours and the styling fields |
| Defaults.DefaultDataSetNormalised | ChartJs.framerfx/code/Line_ChartJs.tsx:88-105 | the walk over the default datasets finishes; the first `fill` becomes `false` and the second stays `"0"` |
| Defaults.DefaultValues | ChartJs.framerfx/code/Line_ChartJs.tsx:106-115 | the default annotation values `"100"` and `"500"` read as 100 and 500 |
| Defaults.DefaultAnnotationsReduced | ChartJs.framerfx/code/Line_ChartJs.tsx:106-115 | the default annotations become horizontal lines at 100 and 500 in their own colours, and are left unchanged |

## Left out

- Rendering is not part of this model: `render`, the chart options, the tooltip's HTML and DOM work, the property controls and the plugin registration. They only pass values to the charting library and the host tool.
- Annotations.ResolveInput and Datasets.NormaliseEntry: `getRgbFromVar` and `includes` on a colour that is missing or not text would throw in the source. Colours are modelled as text, and a missing annotation colour as `None`, which the source skips.
- JsParseInt.ParseInt: only decimal digits are read. The `0x` prefix, radix detection and the precision limit of floating-point numbers are left out; a result of `-0` is modelled as 0.
- JsParseInt.IsJsSpace: the white space set is the explicit list from ECMAScript. No other Unicode property is modelled.
- An annotation's `value` is always text and a dataset's `label` and `fill` are always present. In the source a missing value gives `parseInt(undefined)`, which is `NaN` (`None` here), and a missing `fill` is not `"false"` and stays, so no result is lost.
- A dataset's `data` that is neither text nor missing is modelled as a list of texts. Other value types pass through the source untouched, and they pass through the model untouched too.
- The styling field `lineTension` holds the `smooth` property as a real number. Other types the host might pass are not modelled.
- Datasets.NormaliseDatasets: each record is a value in its own array cell. Two entries that are the same JavaScript object (aliasing) are not modelled.
- Chart.Create: the host calls the constructor with `props`; the model takes the two arrays and `smooth` instead of a props object.
- The default `stepSize`, `showTitle`, `width` and `height` are not used by the constructor and are not modelled.
