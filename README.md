# PDSP product-data extraction, modelled in Dafny

PDSP reads product data sheets (PDF files) and turns each one into product
records, each with a list of specs. This project models two files of its
Python source: the value normaliser `src/pdsp/normalize.py` and the
extractor `src/pdsp/extract.py`. Each Dafny module follows one part of them:

- `Snake` covers `to_snake_case` and `canonical_key`. The chain of string
  rebindings is written out as it is (`Separated`, `ToSnakeCase`). It is
  proved equal to an independent character scanner (`SnakeRef`). Every
  property of the key is then proved on that scanner.
- `Gauge` covers `normalize_awg_or_mm2`. The mm² and AWG patterns are
  hand-written ASCII scanners with leftmost-match search, and the AWG table
  is a constant map.
- `Classify` covers `_keyword_score` (a method with the source's two loops)
  and `_classify_pdf_by_text_and_name`. The ordering-code count is an input.
  The stable reverse sort is modelled as "the leftmost entry whose sort key
  no other entry exceeds".
- `Series` covers `_nearest_series`: window clamping, the combined token,
  token occurrences, and the stable sort by distance. It is a method that
  appends the choices, proved against a function.
- `Nearby` covers `_extract_nearby_kv`. The regex captures of the window
  are a record (`NearbyMatches`). A method fills the dictionary step by step
  (including `setdefault`) and is proved equal to `NearbyFields`.
- `Binder`, `M12` and `TechInfo` cover the three product builders. Each is
  a method whose loops append specs or products, proved against a function
  of the pattern matches.
- `Dispatch` covers the loop of `extract_products`. The directory listing
  (`None` when the path is not a directory) and what each file holds are
  inputs.
- `Records` (products, specs and values), `Strings` (Python string
  operations on ASCII), `Sorting` (Python string order, `sorted`,
  `sorted(set(...))`), `Lists` and `Wrappers` are shared definitions.

Regex matches of the extractor are inputs to the model: captured strings in
match order, plus start indices where the code uses them. The properties
are stated over those inputs. Three places are scanned by the model itself
instead: the character classes of `to_snake_case` (`Snake`), the patterns
of `normalize_awg_or_mm2` (`Gauge`) and the `713`/`763` tokens of
`_nearest_series` (`Series`). These scanners treat only ASCII letters,
digits and `_` as word characters (see "Left out").

`canonical_key` applies no aliasing: it returns `to_snake_case` of its
argument (`src/pdsp/normalize.py:22-27`). The code canonicalises an ordering code by greedy
2-4-digit chunking (`src/pdsp/extract.py:421`). A five-digit block
therefore loses its last digit: `"99123 456 12"` becomes `"9912 456 12"`
(`M12.NormalizeExample`). The model keeps that behaviour and does not claim
that digits are preserved.

## Model

| member | source | states |
|---|---|---|
| Strings.Strip | src/pdsp/normalize.py:11 | `strip()` keeps one contiguous block of the input, drops only whitespace, and leaves no whitespace at either end |
| Strings.ReplaceCharEffect | src/pdsp/normalize.py:13-17 | `replace` of one character keeps the length, leaves none of that character when the replacement differs, turns each occurrence into the replacement, keeps every other character, and returns a string without that character unchanged |
| Strings.ReplaceCharIdempotent | src/pdsp/normalize.py:13-17 | replacing a character a second time changes nothing |
| Strings.LowerCases | src/pdsp/normalize.py:18 | `lower()` keeps the length, leaves no capital letter, maps each capital to its small letter (32 code points on) and keeps every other character |
| Strings.LowerIdempotent | src/pdsp/normalize.py:18 | lower-casing twice is lower-casing once |
| Strings.LowerNoCapitals | src/pdsp/normalize.py:18 | a string without capitals is returned unchanged |
| Snake.RunsToSpace | src/pdsp/normalize.py:14 | after `re.sub(class+, " ")` no class character remains; every other character comes from the input |
| Snake.SnakeRef | src/pdsp/normalize.py:11-19 | the reference scan emits only lower-case letters, digits and `_` |
| Snake.ReplaceSeparator | src/pdsp/normalize.py:13-17 | replacing one separator by another leaves the scan unchanged |
| Snake.ScanRunsToSpace | src/pdsp/normalize.py:14 | collapsing runs of odd glyphs (or of whitespace) into one space leaves the scan unchanged |
| Snake.ScanStrip | src/pdsp/normalize.py:11 | stripping leaves the scan unchanged |
| Snake.SeparatedKeepsScan | src/pdsp/normalize.py:11-17 | the first six rebindings leave the scan unchanged and leave only word characters and spaces |
| Snake.CollapsedStripped | src/pdsp/normalize.py:18 | collapsing whitespace and stripping gives words separated by single spaces, with none at either end |
| Snake.ScanSpacedWords | src/pdsp/normalize.py:18-19 | on such a string the scan is exactly `lower()` followed by `replace(" ", "_")` |
| Snake.ToSnakeCaseIsReference | src/pdsp/normalize.py:11-19 | the source's chain of rebindings, `ToSnakeCase(s)`, equals the reference scan `SnakeKey(s)` on every input |
| Snake.ToSnakeCaseAlphabet | src/pdsp/normalize.py:11-19 | with `\w` read as ASCII word characters, the key holds only `a`-`z`, digits and `_`; no space, `-`, `/`, `\`, `.`, en dash, em dash or middle dot |
| Snake.SeparatorRunIsOneUnderscore | src/pdsp/normalize.py:14-19 | any non-empty run of non-word characters between two word characters becomes exactly one `_` |
| Snake.WordThenSeparators | src/pdsp/normalize.py:14-19 | separators after a word character add nothing to the key and leave the scan waiting to emit one `_` before the next word |
| Snake.AdjacentWords | src/pdsp/normalize.py:14-19 | word characters that touch stay together: the key of `x + y` is the two keys side by side |
| Snake.OuterSeparatorsVanish | src/pdsp/normalize.py:11-18 | separators at either end contribute nothing to the key |
| Snake.WordOnly | src/pdsp/normalize.py:18 | a run of word characters is only lower-cased, in order |
| Snake.KeyEmpty | src/pdsp/normalize.py:11-19 | the key is empty exactly when the input has no word character |
| Snake.KeyFirst | src/pdsp/normalize.py:11-19 | a non-empty key starts with the first word character of the input, lower-cased, so no leading `_` comes from a separator |
| Snake.KeyLast | src/pdsp/normalize.py:11-19 | a non-empty key ends with the last word character of the input, lower-cased, so no trailing `_` comes from a separator |
| Snake.FirstWord | src/pdsp/normalize.py:11-19 | the index of the first word character: a word character with none before it |
| Snake.LastWord | src/pdsp/normalize.py:11-19 | the index of the last word character: a word character with none after it |
| Snake.ToSnakeCaseIdempotent | src/pdsp/normalize.py:6-20 | applying `to_snake_case` to its own output returns the output unchanged |
| Snake.CanonicalKey | src/pdsp/normalize.py:22-27 | `canonical_key` is the reference key |
| Snake.CanonicalKeyIsSnakeCase | src/pdsp/normalize.py:22-27 | `canonical_key(s) == to_snake_case(s)` for every `s` |
| Gauge.Mm2At | src/pdsp/normalize.py:40 | a match of the mm² pattern captures a number that starts with a digit |
| Gauge.AwgAt | src/pdsp/normalize.py:50 | a match of the AWG pattern captures one or two digits |
| Gauge.Search | src/pdsp/normalize.py:40-50 | `re.search` finds the leftmost index where the pattern matches, or reports that it matches nowhere |
| Gauge.NormalizeAwgOrMm2 | src/pdsp/normalize.py:29-57 | `raw` comes back unchanged; the unit is one of none, `mm2`, `mm2_est`, `awg`; a value exists exactly with `mm2` or `mm2_est`, is never negative, and with `mm2_est` is a table entry |
| Gauge.SearchFindsFirst | src/pdsp/normalize.py:40-50 | the search returns the first matching index |
| Gauge.SearchFindsNothing | src/pdsp/normalize.py:40-50 | the search fails when the pattern matches nowhere |
| Gauge.Mm2ReadingWins | src/pdsp/normalize.py:40-43 | a direct mm² reading gives `(number, "mm2", raw)`, comma read as decimal point, whatever else (an AWG token included) the text holds |
| Gauge.AwgLookup | src/pdsp/normalize.py:46-55 | without an mm² reading, the leftmost AWG number in the table gives `(table[n], "mm2_est", raw)`; any other number gives `(None, "awg", raw)` |
| Gauge.NoGauge | src/pdsp/normalize.py:57 | with neither pattern present the result is `(None, None, raw)` |
| Gauge.EmptyInput | src/pdsp/normalize.py:38 | `None` and the empty string give `(None, None, raw)` without error |
| Gauge.AwgTableDecreasing | src/pdsp/normalize.py:46-49 | the AWG table decreases strictly: a larger gauge number is a thinner wire |
| Gauge.NoMNoMm2 | src/pdsp/normalize.py:40 | text without an `m` holds no mm² reading |
| Gauge.ReadAwgAtStart | src/pdsp/normalize.py:50 | `AWG nn`, in any letter case, matches at index 0 and captures `nn` |
| Gauge.ScannedAsIs | src/pdsp/normalize.py:38 | text with no whitespace at either end is scanned as it is |
| Gauge.ReadAwgText | src/pdsp/normalize.py:50-55 | `AWG nn` alone reads as table entry `nn`, or as unit `awg` when `nn` is not in the table |
| Gauge.ExampleAwg24 | src/pdsp/normalize.py:46-54 | `"AWG 24"` gives `(0.205, "mm2_est", "AWG 24")` |
| Gauge.ExampleUnknownAwg | src/pdsp/normalize.py:50-55 | `"AWG 30"` gives `(None, "awg", "AWG 30")` |
| Gauge.ReadCommaNumber | src/pdsp/normalize.py:40 | `"0,75 mm²"` matches at index 0 and captures `"0,75"` |
| Gauge.CommaValue | src/pdsp/normalize.py:42 | `"0,75"` with the comma read as decimal point is 0.75 |
| Gauge.ExampleCommaMm2 | src/pdsp/normalize.py:40-43 | `"0,75 mm²"` gives `(0.75, "mm2", "0,75 mm²")` |
| Strings.Contains | src/pdsp/extract.py:50-54 | `k in t` holds exactly when `k` occurs in `t` as a contiguous block |
| Classify.Count | src/pdsp/extract.py:49-51 | the number of present keywords is at most the number of keywords |
| Classify.KeywordScore | src/pdsp/extract.py:42-56 | the two accumulating loops compute present positives minus present negatives; `None` and an empty negative list are the same |
| Classify.CountAll | src/pdsp/extract.py:49-51 | the count equals the list length exactly when every keyword is present |
| Classify.CountNone | src/pdsp/extract.py:49-55 | the count is zero exactly when no keyword is present |
| Classify.ScoreBounds | src/pdsp/extract.py:42-56 | the score lies in [-(number of negatives), number of positives] and is never negative without negatives |
| Classify.KindScores | src/pdsp/extract.py:75-107 | the binder score (no negatives, no bonus) lies between 0 and its six keywords |
| Classify.TopIndex | src/pdsp/extract.py:110-115 | the first entry of the stable reverse sort: no entry has a larger key, and every entry before it has a smaller key |
| Classify.SelectIsFirstMaximum | src/pdsp/extract.py:109-116 | the sort-based choice is `unknown` when no score is positive, and otherwise the first of binder, m12, techinfo with the largest score |
| Classify.WinnerIsPositiveMaximum | src/pdsp/extract.py:109-116 | a kind other than `unknown` is returned only when its score is positive and no other score is larger (earlier kinds strictly smaller) |
| Classify.UnknownIffNoPositive | src/pdsp/extract.py:115-116 | `unknown` is returned exactly when no score is positive |
| Classify.ClassifyPdf | src/pdsp/extract.py:69-116 | `unknown` exactly when no score is positive; binder only with a positive score no other exceeds; m12 only with a positive score above binder's and not below techinfo's; techinfo only with a positive score above both others |
| Classify.TieBreak | src/pdsp/extract.py:109-114 | ties on the top score go to binder, then m12, then techinfo |
| Classify.OrderingCodeEffect | src/pdsp/extract.py:99-101 | the ordering-code count adds exactly `min(oc, 100)` to m12, takes the same from techinfo and leaves binder alone |
| Classify.FileNameBonus | src/pdsp/extract.py:103-107 | a file-name keyword adds exactly 5 to m12 or techinfo and nothing to binder |
| Classify.ManyCodesMeanM12 | src/pdsp/extract.py:77-116 | ten or more ordering codes make any document an M12 catalogue, whatever its words and name |
| Classify.NoEvidenceIsUnknown | src/pdsp/extract.py:77-116 | with no ordering code, no positive keyword and a neutral name the result is `unknown` |
| Series.Segment | src/pdsp/extract.py:241-243 | the window is `text[max(0, idx - w):min(len, idx + w)]`, empty when the start lies beyond the end, and at most `2w` long |
| Series.Occurrences | src/pdsp/extract.py:253-260 | `finditer(\btok\b)` yields matching indices in strictly increasing order |
| Series.OccurrencesComplete | src/pdsp/extract.py:253-260 | every index where the token matches is among the occurrences |
| Series.FindCombined | src/pdsp/extract.py:246-247 | the search for the combined token succeeds exactly when it matches at some index of the window |
| Series.ChoicesFor | src/pdsp/extract.py:251-260 | one choice per token, in order, with the distance from the token's centre to `idx` |
| Series.FirstNearest | src/pdsp/extract.py:266-267 | the first entry of the stable sort by distance: the leftmost choice of least distance |
| Series.NearestSeries | src/pdsp/extract.py:234-267 | the method with its two appending loops returns exactly `NearestSeriesOf(text, idx, window)` |
| Series.CombinedWins | src/pdsp/extract.py:246-248 | a combined token anywhere in the window gives `"713 · 763"` |
| Series.LabelSet | src/pdsp/extract.py:234-267 | the result is `None`, `"713"`, `"763"` or `"713 · 763"` |
| Series.NoneIffNoToken | src/pdsp/extract.py:262-263 | `None` exactly when the window holds no combined, 713 or 763 token |
| Series.NearestTokenWins | src/pdsp/extract.py:253-267 | the chosen token is one that no other token is closer than; a 763 token is chosen only when it is strictly closer than every 713 token |
| Series.FirstOfTwo | src/pdsp/extract.py:266-267 | the first entry of the stable sort of the 713 choices followed by the 763 choices is no farther than any choice, and strictly nearer than every first-run choice when it comes from the second run |
| Series.NearestWins | src/pdsp/extract.py:250-267 | the same, stated on the window of `text` when no combined token is present |
| Series.TieGoesTo713 | src/pdsp/extract.py:253-267 | a 713 token that no 763 token is closer than (a tie included) keeps the answer from being 763 |
| Nearby.NatsOf | src/pdsp/extract.py:294 | `[int(x) for x in xs]` is the list map of the digit reading: the same length, and each element is the value of the string at its position |
| Nearby.NearbyFields | src/pdsp/extract.py:279-390 | every entry of the result dictionary is the value its field derives from the captures |
| Nearby.MaxOf | src/pdsp/extract.py:294 | `max` is an element of the list and no element exceeds it |
| Nearby.ExtractNearbyKv | src/pdsp/extract.py:270-390 | filling the dictionary step by step gives exactly `NearbyFields` |
| Nearby.FillCatalog | src/pdsp/extract.py:285-304 | contacts, cable length and article number are set in turn when found |
| Nearby.FillRatings | src/pdsp/extract.py:306-314 | IP rating and rated voltage are set in turn when found |
| Nearby.FillGauge | src/pdsp/extract.py:316-323 | a gauge capture sets the cross-section or, failing a reading, the text |
| Nearby.FillMaterials | src/pdsp/extract.py:329-342 | jacket, insulation and wire design are set in turn when found |
| Nearby.FillSizes | src/pdsp/extract.py:344-352 | cable diameter and conductor resistance are set in turn when found |
| Nearby.FillTemperatures | src/pdsp/extract.py:354-366 | the in-move form sets both temperatures; otherwise the generic range fills them with `setdefault` |
| Nearby.FillBending | src/pdsp/extract.py:368-380 | bend radii and bending cycles are set in turn when found |
| Nearby.FillMotion | src/pdsp/extract.py:382-388 | speed and acceleration are set in turn when found |
| Nearby.AssembleAt | src/pdsp/extract.py:279-390 | every entry of the dictionary is its field's value: the order of the assignments and `setdefault` makes no difference |
| Nearby.FieldPresence | src/pdsp/extract.py:270-390 | a field is in the dictionary exactly when it has a value, and then it holds that value |
| Nearby.Largest | src/pdsp/extract.py:314 | the largest of the matched numbers is one of them |
| Nearby.CableLengthIsMaximum | src/pdsp/extract.py:292-294 | the cable length is present exactly when a length was matched, and it is the largest of them |
| Nearby.VoltageIsMaximum | src/pdsp/extract.py:312-314 | the rated voltage is present exactly when a voltage was matched, and it is the largest of them |
| Nearby.IpRatingSortedDistinct | src/pdsp/extract.py:307-309 | the IP rating is present exactly when one was matched; it is the matches, each once, in increasing order, joined by commas |
| Nearby.ArticlePreference | src/pdsp/extract.py:298-304 | the article number comes from the form with a suffix when there is one, else from the shorter form |
| Nearby.ArticleNumberIsSpacedDigits | src/pdsp/extract.py:304 | a normalised article number is digit runs separated by single spaces |
| Nearby.GaugeExactlyOne | src/pdsp/extract.py:317-323 | a gauge capture sets exactly one of `wire_gauge_mm2` and `wire_gauge_text`: the reading when there is one, else the capture as found |
| Nearby.TemperatureOrder | src/pdsp/extract.py:355-366 | the in-move temperatures are taken as found; in the generic fallback `temp_min_c <= temp_max_c` |
| Sorting.Sort | src/pdsp/extract.py:545 | `sorted` returns a sorted permutation of its input |
| Sorting.SortedUnique | src/pdsp/extract.py:545 | two sorted lists with the same elements are equal, so `Sort` is the only result `sorted` can give |
| Sorting.SortedDistinct | src/pdsp/extract.py:309 | `sorted(set(xs))` holds exactly the elements of `xs`, in strictly increasing order |
| Sorting.StrictlySortedUnique | src/pdsp/extract.py:309 | a strictly increasing list is fixed by its elements, so the order in which `set` yields them does not matter |
| Binder.TemperatureRange | src/pdsp/extract.py:123-135 | the text, minimum and maximum come all together or not at all; the first pattern wins; the text contains an en dash; the bounds are the captured numbers; the text is the first number, an en dash and the second number, from the capture of whichever pattern matched |
| Binder.Co2Range | src/pdsp/extract.py:138-145 | present exactly when the pattern matched, and then `"0–N"` for the captured `N` |
| Binder.NominalPowerKw | src/pdsp/extract.py:148-155 | present exactly when the pattern matched; then it is the capture read as a decimal with `,` taken as `.`, and never negative |
| Binder.TemperatureTextSplits | src/pdsp/extract.py:130 | the range text splits back, at its only en dash, into the two captured numbers |
| Binder.PowerDecimal | src/pdsp/extract.py:153-154 | a power `w,f` and a power `w.f` both read as the whole part plus the fraction `f` |
| Binder.PowerWhole | src/pdsp/extract.py:153-154 | a power without separator reads as its integer value |
| Binder.DimensionSpecsAt | src/pdsp/extract.py:199-200 | the `k`-th dimension spec carries the `k`-th key and number, unit `mm` and the printed number as `raw` |
| Binder.BinderSpecValues | src/pdsp/extract.py:181-200 | every spec of the product holds, for its key, the value the data sheet's captures give: the range text, the minimum and maximum read as numbers, the CO2 text, the power as a decimal and the three dimensions, each with its unit |
| Binder.DimensionsMm | src/pdsp/extract.py:158-170 | empty when fewer than three numbers were found; otherwise exactly `width_mm`, `height_mm`, `depth_mm` from the first three, in that order |
| Binder.AppendDimensions | src/pdsp/extract.py:199-200 | the loop appends one `mm` spec per dimension pair |
| Binder.ParseBinderCbS260 | src/pdsp/extract.py:173-218 | the method returns exactly `BinderProducts(pdf, m)` |
| Binder.DimensionSpecsKeys | src/pdsp/extract.py:199-200 | the dimension specs carry the dimension keys in order and are well formed |
| Binder.TemperatureSpecsKeys | src/pdsp/extract.py:183-189 | the temperature specs are the range, minimum and maximum together, or none |
| Binder.BinderKeys | src/pdsp/extract.py:181-200 | the exact spec keys: the temperature triple or nothing, the CO2 range, the power, and all three dimensions or none |
| Binder.BinderKeysInOrder | src/pdsp/extract.py:181-200 | the keys always follow the order of the data sheet, each at most once |
| Binder.BinderWellFormed | src/pdsp/extract.py:173-218 | the data sheet always gives exactly one product, and each spec carries exactly one of a number and a text |
| Binder.Co2Raw | src/pdsp/extract.py:193 | the `raw` text of the CO2 spec reads `0 to N` |
| Strings.DigitChunks | src/pdsp/extract.py:421 | `findall(\d{2,4})` yields groups of two to four digits |
| Strings.JoinedGroups | src/pdsp/extract.py:421 | digit groups joined by single spaces have digits at both ends and single spaces between digits |
| M12.NormalizeCode | src/pdsp/extract.py:421 | a normalised ordering code is a list of chunks of two to four digits joined by single spaces, so it is digits with single spaces between digit runs and none at either end |
| M12.ExampleTailChunks | src/pdsp/extract.py:421 | the chunks of `"99123 456 12"` from index 5 are `456` and `12` |
| M12.ExampleChunks | src/pdsp/extract.py:421 | the five-digit run of `"99123 456 12"` yields only its first four digits |
| M12.NormalizeThreeGroups | src/pdsp/extract.py:421 | three chunks `a`, `b`, `c` give `"a b c"` |
| M12.NormalizeExample | src/pdsp/extract.py:421 | `"99123 456 12"` becomes `"9912 456 12"`: a digit is lost |
| M12.FamilyOf | src/pdsp/extract.py:422-423 | the family is `"713"`, `"763"` or the combined label, never missing |
| M12.SpecOf | src/pdsp/extract.py:450-455 | a number becomes `spec_value_num`, anything else `spec_value_text`; the key is the field name and there is no unit |
| M12.BuildSpecs | src/pdsp/extract.py:427-458 | the loop over the fixed key order, then the coding spec, gives exactly `CodeSpecs` |
| M12.BuildVariant | src/pdsp/extract.py:419-473 | the body of the code loop builds exactly the record of that code |
| M12.BuildVariants | src/pdsp/extract.py:418-473 | the code loop builds one record per code, in order |
| M12.ParseM12Catalog | src/pdsp/extract.py:393-475 | the method returns exactly `M12Products(pdf, text, codes)` |
| M12.NoCodesFallback | src/pdsp/extract.py:402-416 | no codes give exactly one fallback record with no ordering code and no specs |
| M12.CodeProductShape | src/pdsp/extract.py:419-473 | the record of a code carries the normalised code, the nearest series, the specs of its neighbourhood and the file name |
| M12.OnePerCode | src/pdsp/extract.py:418-475 | with codes there is one record per code, the `i`-th from the `i`-th code |
| M12.M12Sources | src/pdsp/extract.py:393-475 | there is always at least one record, and each names the catalogue and carries a family |
| M12.FieldSpecsInOrder | src/pdsp/extract.py:429-455 | the spec keys follow the fixed key order of the loop, each at most once |
| M12.FieldSpecsKeys | src/pdsp/extract.py:429-451 | a field has a spec exactly when it is in the dictionary |
| M12.FieldSpecsValues | src/pdsp/extract.py:450-455 | the spec of a field is built from the field's value in the dictionary |
| M12.FieldSpecsWellFormed | src/pdsp/extract.py:450-455 | each spec carries exactly one of a number and a text |
| M12.CodeSpecsShape | src/pdsp/extract.py:427-458 | the specs follow the fixed key order, end with coding `"M12 A"` and are well formed |
| M12.SpecPresence | src/pdsp/extract.py:425-455 | a scraped field has a spec exactly when the neighbourhood gives it a value, and that spec carries the value |
| M12.M12WellFormed | src/pdsp/extract.py:393-475 | every record of the catalogue has well-formed specs |
| TechInfo.AwgSpec | src/pdsp/extract.py:490-498 | an AWG pair gives key `awg_<int(n)>_mm2` with the comma-decimal cross-section as its number |
| TechInfo.MinSpec | src/pdsp/extract.py:501-504 | a material range gives `<material>_temp_min_c` with the signed lower bound |
| TechInfo.MaxSpec | src/pdsp/extract.py:501-505 | a material range gives `<material>_temp_max_c` with the signed upper bound |
| TechInfo.MaterialSpecs | src/pdsp/extract.py:500-505 | two specs per material match |
| TechInfo.VoltageSpec | src/pdsp/extract.py:507-509 | a voltage note gives `reference_voltage_v` with the captured number |
| TechInfo.TechSpecs | src/pdsp/extract.py:487-509 | one spec per AWG pair, two per material range, one per voltage note |
| TechInfo.AppendAwgSpecs | src/pdsp/extract.py:490-498 | the AWG loop appends one spec per match, in order |
| TechInfo.AppendMaterialSpecs | src/pdsp/extract.py:501-505 | the material loop appends a minimum and a maximum per match, in order |
| TechInfo.AppendVoltageSpecs | src/pdsp/extract.py:508-509 | the voltage loop appends one spec per match, in order |
| TechInfo.ParseTechnicalInfoPdf | src/pdsp/extract.py:482-525 | the method returns exactly `TechProducts(pdf, t)` |
| TechInfo.MaterialSpecsAt | src/pdsp/extract.py:501-505 | the `j`-th material gives the specs at `2j` (minimum) and `2j + 1` (maximum) |
| TechInfo.AwgSpecsFirst | src/pdsp/extract.py:487-498 | the specs start with the AWG pairs, in match order |
| TechInfo.MaterialSpecsNext | src/pdsp/extract.py:500-505 | then each material's minimum and maximum, in match order |
| TechInfo.MaterialSpecsNextAt | src/pdsp/extract.py:500-505 | the minimum and maximum notes of material match `j` sit at positions `2j` and `2j+1` after the gauge notes |
| TechInfo.VoltageSpecsLast | src/pdsp/extract.py:507-509 | and last the voltage notes, in match order |
| TechInfo.AlwaysOneReferenceProduct | src/pdsp/extract.py:511-525 | always exactly one "Reference Data" product; it is the "(empty)" one, with no specs, exactly when no scan matched |
| TechInfo.TechWellFormed | src/pdsp/extract.py:487-525 | every reference spec is numeric, so all specs are well formed |
| TechInfo.AwgKeyCanonical | src/pdsp/extract.py:491-494 | `int` drops leading zeros: `AWG 07` and `AWG 7` give the same key |
| Strings.NatOfBound | src/pdsp/extract.py:491 | `int` of `n` digits is below `10^n` |
| Strings.NatOfConcat | src/pdsp/extract.py:491 | `int` of two digit strings written one after the other is the first shifted by the length of the second, plus the second |
| Strings.LeadingZero | src/pdsp/extract.py:491 | a leading zero does not change `int` |
| Strings.Fraction | src/pdsp/extract.py:492 | the digits after the point give a fraction in [0, 1), and no digits give 0 |
| Strings.DecimalValue | src/pdsp/extract.py:492 | `float` of a decimal is never negative, and a string without a point reads as its integer value |
| Strings.CommaDecimalValue | src/pdsp/extract.py:492 | `float(x.replace(",", "."))` is never negative and equals `float(x)` when `x` has no comma |
| Strings.DigitsAreWhole | src/pdsp/extract.py:492 | a digit string reads as its integer value, with or without the comma replacement |
| Strings.DecimalSplit | src/pdsp/extract.py:492 | `w.f` reads as the integer `w` plus the fraction `f`, so it lies in [w, w + 1) |
| Strings.CommaDecimalSplit | src/pdsp/extract.py:492 | `w,f` with the comma replaced reads as `w.f` |
| Strings.SignedValue | src/pdsp/extract.py:503 | `int` of a capture is negative only when it starts with `-` |
| Strings.SignedForms | src/pdsp/extract.py:503 | `d`, `+d` and `-d` read as the integer value of `d`, itself and its negation |
| Strings.NatToStringRoundTrip | src/pdsp/extract.py:494 | reading back the printed number gives the number again |
| TechInfo.MaterialKeysIgnoreCase | src/pdsp/extract.py:501-505 | the material is matched ignoring case, and its spelling does not change the keys |
| Dispatch.IsPdfCases | src/pdsp/extract.py:546 | a name is kept exactly when it ends in `.` followed by `p`, `d`, `f` in either case |
| Dispatch.Stem | src/pdsp/extract.py:570 | `splitext(name)[0]` is a prefix of the name; when shorter, the rest starts at the last `.`, which has no other `.` after it, and the prefix is not all dots |
| Dispatch.StemOfPdf | src/pdsp/extract.py:570 | the stem of `b + ".pdf"` is `b` when `b` is not all dots |
| Dispatch.LastDot | src/pdsp/extract.py:570 | the last `.` of a name, or none |
| Dispatch.ExtractFile | src/pdsp/extract.py:549-577 | the loop body for one `.pdf` file gives exactly that file's records |
| Dispatch.ExtractProducts | src/pdsp/extract.py:532-579 | the method with its filtering loop returns exactly `ExtractedProducts(listing, docs)` |
| Dispatch.NotADirectory | src/pdsp/extract.py:540-541 | a path that is not a directory yields no records |
| Dispatch.ListingOrderIrrelevant | src/pdsp/extract.py:545 | the order the listing comes in does not matter, only its names with their repetitions |
| Dispatch.PdfNames | src/pdsp/extract.py:545-547 | the kept names are `.pdf` names of the listing |
| Dispatch.OnlyPdfsCount | src/pdsp/extract.py:546-547 | names that are not `.pdf` contribute nothing |
| Dispatch.EmptyTextPlaceholder | src/pdsp/extract.py:551-577 | an unreadable or empty document gets the placeholder record |
| Dispatch.PlaceholderShape | src/pdsp/extract.py:564-577 | the placeholder is named after the file without `.pdf`, names the file, covers page 1 and has no specs |
| Dispatch.FileContributes | src/pdsp/extract.py:557-577 | every `.pdf` file contributes at least one record, and each record names the file |
| Dispatch.ExtractedCoverage | src/pdsp/extract.py:545-577 | at least one record per `.pdf` name, and every record names a `.pdf` of the listing |
| Dispatch.ExtractedWellFormed | src/pdsp/extract.py:545-577 | every record of a run has well-formed specs |
| Dispatch.RunShape | src/pdsp/extract.py:532-579 | the whole run: at least one record per `.pdf` name, each naming a `.pdf` of the listing, all well formed |

## Left out

- Python's `re` engine is not modelled. The extractor's regex matches are inputs: the ordering-code matches with their start indices, the label captures of `_extract_nearby_kv`, the binder, technical-info and dimension captures, and the ordering-code count `_count_ordering_codes`. The count and the matches come from the same pattern over the same text (`src/pdsp/extract.py:65` and `src/pdsp/extract.py:230`), so in the source the count equals the number of matches; the model takes the two as separate inputs and does not tie them together. So the 1500-character window of `_extract_nearby_kv` and the backtracking of its patterns are not modelled; the captures are taken to come from that window.
- Unicode word characters are left out. Python's `\w` and `\b` count every Unicode letter and digit; the model's own scanners count only ASCII letters, digits and `_`. This holds for `Snake.*` (the class `[^\w\-/\. ]` of `to_snake_case`, `src/pdsp/normalize.py:14`), `Gauge.*` (`normalize_awg_or_mm2`, where `re.I` is ASCII case folding as well) and `Series.*` (`\b713\b`, `\b763\b` and the combined token, `src/pdsp/extract.py:246-260`). So the model differs on non-ASCII text: `to_snake_case("Kabellänge")` is `kabellänge` in Python but `kabell_nge` in the model; `"Ø 5 mm"` gives `ø_5_mm` in Python but `5_mm` in the model; and `ä713` holds no `713` token for Python but does for the model. The properties of `Snake` and `Series` are those of this ASCII reading.
- Unicode case folding is left out: `lower()` and `upper()` act on ASCII letters only.
- IEEE floating point is left out. Parsed decimals are exact `real`s. How Python prints a float (`f"{v} °C"`, `str(v)`) is kept as an unevaluated `Printed(value, suffix)`.
- `_read_text_all` and pdfplumber are left out. A file's text is an input, and a file with no entry reads as the empty text, as the source does on any failure.
- The filesystem calls are left out. The directory listing is an input. The builders are given the listed name, which is what `os.path.basename(os.path.join(dir, name))` returns for it. `Dispatch.Stem` models `os.path.splitext(name)[0]` for names without a directory part.
- The `PDSP_DEBUG` print in `extract_products` is left out: it has no effect on the result.
- `src/pdsp/db.py` (SQLite persistence) and `src/pdsp/cli.py` (command line) are not part of this model.
- `Binder.DimensionsMm`: the `try`/`except` around `float` is not modelled. It cannot fire, because the captures are digit strings.
- `Series.NearestSeries`: `choices.sort` is in place in the source. The model takes the first element of the stable sort (the leftmost choice of least distance), which is all the source reads.
- `M12.NormalizeCode`: digit preservation is not claimed. Greedy chunking drops the tail of a long run.
