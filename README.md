# MKCYCLES backend core, modelled in Dafny

This project models the core of the MKCYCLES backend, the service behind a
dashboard for a cycle dealership's Tally accounting data. It covers:

- **The Tally XML import pipeline.**
  - The sanitiser (`sanitizer.py`) removes characters and character references
    that XML 1.0 forbids. It also picks a decoding from the byte-order mark and
    rewrites the encoding in the XML declaration.
  - The parser (`parser.py`) reads quantities, rates, dates and booleans. It
    classifies voucher and ledger types and extracts ledger and inventory
    lines from an abstract XML node tree.
  - The upsert layer (`importer.py`) merges parsed masters and vouchers into
    an in-memory store. Vouchers match by IRN, otherwise by their dedup key.
    The layer counts what was inserted, updated and skipped, and sets the
    import status.
- **The MKCP package-factor pipeline.**
  - `pkg_converter.py` turns the item-name normaliser and the xlsx row state
    machine into a map from item name to package factor.
  - `mkcp_parser.py` reads stock groups, item groups and the latest Kona price
    from the MKCP XML exports, and merges its factors with the xlsx ones.
  - `mkcp_importer.py` computes Levenshtein distance with a two-row dynamic
    program, proved equal to the recursive definition. It resolves items
    exact → prefix → fuzzy and builds the stored factor map.
- **Stock and reporting arithmetic** (`order_routes.py`, `routes.py`):
  - closing stock and the monthly running balance;
  - the average monthly outward quantity;
  - the reorder suggestion, rounded up to whole packages;
  - the group filter and override precedence;
  - GST compliance flags, aging buckets, KPI clamps and the voucher page
    window.
- **The override stores.**
  - `master_override_routes.py` keeps per-item package factor, group, base
    unit and GST rate, with validation and partial-merge updates.
  - `rate_routes.py` keeps per-item rate overrides, warns on changes above 30%,
    and keeps a change log capped at 1000 entries.

How each kind of source code is modelled:

- Pure code becomes datatypes, functions and lemmas.
- Code that appends, counts or updates in loops becomes methods with loop
  invariants. Each method is proved equal to a specification function, and
  the properties are proved about that function.
- The two JSON-backed override stores become classes whose map and list
  fields the methods update.
- Database tables become sequences of rows, and SQL sums become folds over
  them.

Modules:

| module | file | models |
|---|---|---|
| Wrappers | wrappers.dfy | `Option` and `Result` |
| Text | text.dfy | string helpers: `strip`, ASCII case mapping, substring search, number parsing |
| Substitution | substitution.dfy | a generic single left-to-right scan that deletes matched spans, and its properties |
| XmlTree | xml_tree.dfy | the parsed element tree: tag, attributes, children, text |
| OrderedDict | ordered_dict.dfy | insertion-ordered dictionaries (Python `dict`) |
| ItemNames | names.dfy | the shared item-name normaliser `_norm` |
| Dates | dates.dfy | calendar dates, day counts and month arithmetic |
| Sanitizer | sanitizer.dfy | `sanitizer.py` |
| TallyFields | tally_fields.dfy | the field parsers and classifiers of `parser.py` |
| TallyParser | tally_parser.dfy | line extraction, vouchers, masters and file type in `parser.py` |
| Importer | importer.dfy | `importer.py` |
| PkgConverter | pkg_converter.dfy | `pkg_converter.py` |
| MkcpParser | mkcp_parser.dfy | `mkcp_parser.py` |
| MkcpImporter | mkcp_importer.dfy | `mkcp_importer.py` |
| MasterOverrides | master_overrides.dfy | `master_override_routes.py` |
| RateOverrides | rate_overrides.dfy | `rate_routes.py` |
| Reports | reports.dfy | KPIs, aging, page window and item inventory in `routes.py` |
| StockLedger | stock_ledger.dfy | the monthly running balance in `routes.py` and `order_routes.py` |
| StockOrders | stock_orders.dfy | the order list, average outward and compliance check in `order_routes.py` |

## Model

| member | source | states |
|---|---|---|
| Text.LStrip | backend/app/etl/mkcp_parser.py:99-101 | `lstrip()` drops exactly the leading run of whitespace: the result is a suffix of the input, everything removed is whitespace, and the result does not start with whitespace |
| Text.RStrip | backend/app/etl/pkg_converter.py:40 | `rstrip()` drops exactly the trailing run of whitespace |
| Text.Strip | backend/app/etl/parser.py:44 | `strip()` leaves neither leading nor trailing whitespace and never lengthens the text |
| Text.StripFixed | backend/app/etl/parser.py:63 | text that neither starts nor ends with whitespace is its own `strip()` |
| Text.StripIdempotent | backend/app/etl/parser.py:109 | stripping twice is stripping once (`_parse_rate` strips text `_txt` already stripped) |
| Text.NonEmpty | backend/app/etl/parser.py:324 | `s or None` yields the text only when it is not empty |
| Text.Upper | backend/app/etl/parser.py:150 | `upper()` keeps the length |
| Text.Lower | backend/app/etl/parser.py:204 | `lower()` keeps the length |
| Text.ContainsAppend | backend/app/etl/parser.py:205 | a substring of `s` is a substring of `s + t` |
| Text.ContainsPrepend | backend/app/etl/parser.py:205 | a substring of `t` is a substring of `s + t` |
| Text.Without | backend/app/etl/parser.py:54 | `replace(",", "")` leaves no comma and never lengthens the text |
| Text.BeforeFirst | backend/app/etl/parser.py:114 | `split("/")[0]` is the prefix before the first `/`, or the whole text when there is none |
| Text.LeadingDigits | backend/app/etl/parser.py:93 | the leading digit run ends at a non-digit or at the end |
| Text.Numeral | backend/app/etl/pkg_converter.py:109 | `str(n)` of a natural number is a non-empty digit string |
| Text.NumeralValue | backend/app/etl/pkg_converter.py:109 | the digits of `str(n)` have the value `n` |
| Text.LeadingDigitsAll | backend/app/etl/parser.py:93 | in a digit string the leading run is the whole text |
| Text.NumeralParses | backend/app/etl/pkg_converter.py:109 | `float(str(n))` is `n` for every natural number |
| Text.LexLeTotal | backend/app/etl/mkcp_parser.py:209 | string `<=` is total |
| Text.LexLeTrans | backend/app/etl/mkcp_parser.py:209 | string `<=` is transitive |
| Text.LexLeAntisym | backend/app/etl/mkcp_parser.py:209 | string `<=` is antisymmetric |
| Substitution.KeptStep | backend/app/etl/sanitizer.py:166 | the substitution from a position is that position's step followed by the substitution after it |
| Substitution.Copies | backend/app/etl/sanitizer.py:161 | a substitution in which no step removes anything returns the text unchanged |
| Substitution.DroppedSatisfy | backend/app/etl/sanitizer.py:159-163 | a property of everything a single step removes holds of the whole list of removals |
| Substitution.Substitute | backend/app/etl/sanitizer.py:166 | the left-to-right loop builds exactly the substituted text and the removals in order |
| XmlTree.Tagged | backend/app/etl/parser.py:411 | `findall(tag)` returns only children with that tag, never more than there are |
| XmlTree.Txt | backend/app/etl/parser.py:40-45 | `_txt` returns text without surrounding whitespace |
| XmlTree.IterAll | backend/app/etl/mkcp_parser.py:127 | `iter(tag)` yields only elements with that tag |
| OrderedDict.Keys | backend/app/etl/mkcp_parser.py:217 | the keys of a dict, in insertion order |
| OrderedDict.Values | backend/app/etl/mkcp_parser.py:217 | the values of a dict, in insertion order |
| OrderedDict.IndexOf | backend/app/etl/mkcp_parser.py:217 | the position found holds the key and no earlier position does; none is found iff the key is absent |
| OrderedDict.Get | backend/app/etl/mkcp_importer.py:114 | `d.get(k)` has a value iff `k` is a key |
| OrderedDict.GetAt | backend/app/etl/mkcp_importer.py:114 | with unique keys, looking up the key at position `i` gives the value at `i` |
| OrderedDict.PutSpec | backend/app/etl/mkcp_parser.py:217 | `d[k] = v`: keys stay unique, `k` maps to `v`, other keys keep their values, an existing key keeps its place and a new one goes last |
| OrderedDict.PutKeeps | backend/app/etl/mkcp_parser.py:217 | a property of every key and value survives `d[k] = v` when `k` and `v` have it |
| OrderedDict.UpdateSpec | backend/app/etl/mkcp_parser.py:302-303 | after `d.update(e)`, keys of `e` take their value from `e`, others keep theirs, the keys are those of either, and the keys of `d` come first in their old order |
| OrderedDict.PutPresentSpec | backend/app/etl/mkcp_parser.py:236-248 | over a loop that sometimes writes `d[k] = v`, the last write to a key wins and unwritten keys keep their values |
| OrderedDict.PutPresentKeeps | backend/app/etl/mkcp_parser.py:236-248 | a property of every key and value written holds of every key and value of the result |
| OrderedDict.LastValueAt | backend/app/etl/mkcp_parser.py:248 | the value found is that of a write of the key with no later write of it |
| OrderedDict.LastValueNone | backend/app/etl/mkcp_parser.py:248 | a key has no value iff no write names it |
| OrderedDict.PairsOf | backend/app/etl/mkcp_importer.py:114-120 | a key with a value gives its pair, one without gives nothing |
| OrderedDict.PairsOfLast | backend/app/etl/mkcp_importer.py:114-120 | over such pairs a listed key's last value is its own value, an unlisted key has none |
| OrderedDict.PutPresentSnoc | backend/app/etl/mkcp_parser.py:247-248 | one more write: a present pair is put, an absent one changes nothing |
| OrderedDict.MergeOver | backend/app/etl/mkcp_parser.py:301-303 | merging `e` over `d` into an empty dict keeps keys unique, holds the keys of both, and `e` wins where both have a key |
| ItemNames.Collapse | backend/app/etl/mkcp_parser.py:50 | `\s+` to one space: empty iff the input is; first and last characters are whitespace iff the input's are; no whitespace but single spaces remain |
| ItemNames.CollapseFixed | backend/app/etl/mkcp_parser.py:55 | text already collapsed is unchanged |
| ItemNames.UpperKeepsSpaces | backend/app/etl/mkcp_parser.py:55 | `upper()` keeps whitespace where it is and is idempotent |
| ItemNames.NormShape | backend/app/etl/mkcp_parser.py:53-55 | `_norm` yields upper case, no surrounding whitespace, single inner spaces |
| ItemNames.NormNonEmpty | backend/app/etl/mkcp_parser.py:53-55 | a name that does not start with whitespace normalises to a non-empty name |
| ItemNames.NormFixed | backend/app/etl/mkcp_parser.py:53-55 | a name in that normal form is its own `_norm` |
| ItemNames.NormIdempotent | backend/app/etl/mkcp_importer.py:30-32 | normalising twice is normalising once, so normalised keys and normalised queries compare directly |
| ItemNames.NumberLen | backend/app/etl/pkg_converter.py:40 | `\d+(?:\.\d+)?` matched at the start: a match starts with a digit |
| ItemNames.SizeTextStripped | backend/app/etl/pkg_converter.py:40 | the `\s*` the suffix pattern skips is what `lstrip` drops |
| ItemNames.LastIndex | backend/app/etl/pkg_converter.py:40 | the index found holds the character and none follows; none is found iff it does not occur |
| ItemNames.SuffixOpen | backend/app/etl/pkg_converter.py:39-42 | where a suffix match opens: a `(` before the final `)` |
| ItemNames.SuffixOpenClosed | backend/app/etl/pkg_converter.py:39-42 | on text ending in `)` the suffix opens at the last `(` iff what lies between is a size text |
| ItemNames.SuffixOpenAt | backend/app/etl/pkg_converter.py:39-42 | the same on text without trailing whitespace |
| ItemNames.SuffixOpenOf | backend/app/etl/pkg_converter.py:37-42 | in `name (size)` the suffix opens at the parenthesis after the name |
| Dates.DaysInMonth | backend/app/api/routes.py:476 | a month has 28 to 31 days |
| Dates.MonthStart | backend/app/api/routes.py:470 | `replace(day=1)` gives day 1 of the same month |
| Dates.MonthEnd | backend/app/api/routes.py:476 | `first + 1 month - 1 day` is the last day of the same month |
| Dates.MonthsBefore | backend/app/api/routes.py:469 | `today - relativedelta(months=n)` lies exactly n months earlier |
| Dates.InMonthBounds | backend/app/api/routes.py:486-487 | a date lies between a month's first and last day iff it is in that month |
| Dates.DaysBeforeMonth | backend/app/api/routes.py:633 | the day count before a month is not negative |
| Dates.DayNumberInYear | backend/app/api/routes.py:633 | a valid date's ordinal lies within its year |
| Dates.YearsApart | backend/app/api/routes.py:633 | a date in an earlier year has a smaller ordinal |
| Dates.MonthsApart | backend/app/api/routes.py:633 | in one year, a date in an earlier month has a smaller ordinal |
| Dates.DayNumberOrder | backend/app/api/routes.py:633 | calendar order on valid dates is the order of their ordinals, so `(today - ref).days` is positive iff ref precedes today |
| Dates.Alternatives | backend/app/etl/parser.py:66 | every directive has at least one alternative |
| Dates.MatchFrom | backend/app/etl/parser.py:66 | a match of the format ends inside the text and captures one group per directive |
| Dates.Strptime | backend/app/etl/parser.py:66 | `strptime` yields only valid dates |
| Dates.Two | backend/app/etl/parser.py:64 | two zero-padded digits with value n |
| Dates.Four | backend/app/etl/parser.py:64 | four zero-padded digits with value n |
| Dates.DirectiveFails | backend/app/etl/parser.py:66 | a numeric directive fails on a character that is neither digit nor blank |
| Dates.StrptimeOfMatch | backend/app/etl/parser.py:66 | a whole-input match whose groups carry a valid date yields that date |
| Dates.CompactRoundTrip | backend/app/etl/parser.py:64-66 | `%Y%m%d` reads back every date written with it |
| Dates.IsoRoundTrip | backend/app/etl/parser.py:64-66 | `%Y-%m-%d` reads back every date written with it |
| Dates.IsoNotCompact | backend/app/etl/parser.py:64-66 | an ISO date is not read by the first format, so the second one reads it |
| Dates.DayFirstRoundTrip | backend/app/etl/parser.py:64-66 | `%d-%m-%Y` reads back every date written with it |
| Dates.DayFirstNotYearFirst | backend/app/etl/parser.py:64-66 | a day-first date is read by neither year-first format |
| Sanitizer.InvalidPositionsExact | backend/app/etl/sanitizer.py:109-110 | an offset is reported iff the character there is in the deleted class (C0 controls but tab/LF/CR, U+007F, U+FEFF); offsets strictly increase |
| Sanitizer.FilteredIsClean | backend/app/etl/sanitizer.py:118 | after the substitution no character of the deleted class remains |
| Sanitizer.FilteredLength | backend/app/etl/sanitizer.py:118 | the text shrinks by exactly the number of offsets reported |
| Sanitizer.FilteredCounts | backend/app/etl/sanitizer.py:118 | each character outside the class keeps its number of occurrences; class characters drop to zero |
| Sanitizer.FilteredDeletesExactly | backend/app/etl/sanitizer.py:118 | the three facts together: clean result, per-character counts, length = input length - number of offsets |
| Sanitizer.KeepsWhitespaceControls | backend/app/etl/sanitizer.py:28-30 | tab, line feed and carriage return are never deleted |
| Sanitizer.FilteredIdentity | backend/app/etl/sanitizer.py:118 | the substitution leaves the text unchanged iff it has no character of the class |
| Sanitizer.FilteredOfClean | backend/app/etl/sanitizer.py:118 | clean text is returned unchanged |
| Sanitizer.FilteredIdempotent | backend/app/etl/sanitizer.py:118 | stripping twice equals stripping once |
| Sanitizer.CollectInvalidPositions | backend/app/etl/sanitizer.py:107-110 | the `finditer` loop collects exactly the invalid offsets, in order |
| Sanitizer.NoPositionsIffClean | backend/app/etl/sanitizer.py:112-118 | no offset is collected iff the text is clean iff the substitution changes nothing |
| Sanitizer.StripInvalidChars | backend/app/etl/sanitizer.py:100-119 | the result is the filtered text and is clean; a single warning with the count and the first 20 offsets is issued iff the text changed |
| Sanitizer.RawClassVersusCharProduction | backend/app/etl/sanitizer.py:25-30 | the raw class deletes every control character that the XML 1.0 Char production forbids, and also U+007F and U+FEFF, which it allows; only U+FFFE and U+FFFF escape both |
| Sanitizer.RefAt | backend/app/etl/sanitizer.py:34-37 | a match of the reference pattern at `i` (case-insensitive `x`) spans at least four characters inside the text |
| Sanitizer.RefAtSlice | backend/app/etl/sanitizer.py:34-37 | a reference match depends only on its own characters |
| Sanitizer.ScanAt | backend/app/etl/sanitizer.py:147-164 | one step of `replace_ref`: it consumes at least one character; it copies what it keeps unless it deletes; kept plus deleted length equals consumed length |
| Sanitizer.RefScan | backend/app/etl/sanitizer.py:166 | the scan of `sub(replace_ref, text)` is a well-formed scan of the whole text that accounts for every character |
| Sanitizer.StripAccounting | backend/app/etl/sanitizer.py:159-166 | the kept text and the removed references together are exactly as long as the input |
| Sanitizer.ScanAtDropsInvalid | backend/app/etl/sanitizer.py:153-160 | a step removes only a whole reference whose code point is outside the Char production |
| Sanitizer.RemovedAreInvalid | backend/app/etl/sanitizer.py:158-160 | every entry of `invalid_refs` is a whole reference to a code point outside the Char production |
| Sanitizer.StripRefsIdentity | backend/app/etl/sanitizer.py:161-168 | the text is returned unchanged iff no reference is removed |
| Sanitizer.JoinedScan | backend/app/etl/sanitizer.py:166 | the scan of `&&#1;#1;` keeps `&#1;` |
| Sanitizer.SinglePassLeavesJoinedReference | backend/app/etl/sanitizer.py:166 | one pass over `&&#1;#1;` produces `&#1;`, itself an invalid reference: the strip is not idempotent |
| Sanitizer.ScanCharRefs | backend/app/etl/sanitizer.py:147-166 | the substitution loop returns the kept text and the removed references of the scan |
| Sanitizer.StripInvalidCharRefs | backend/app/etl/sanitizer.py:122-174 | the result is the substituted text; a single warning with the count and the first ten removed references is issued iff the text changed |
| Sanitizer.NonQuoteRun | backend/app/etl/sanitizer.py:186 | the `[^"']+` run stops at a quote or at the end |
| Sanitizer.EncodingAttrAt | backend/app/etl/sanitizer.py:186 | an `encoding=` attribute match at `e` ends at least 12 characters later, inside the text |
| Sanitizer.DeclTail | backend/app/etl/sanitizer.py:41 | `[^?]*\?>` ends just after a `?>` |
| Sanitizer.DeclAt | backend/app/etl/sanitizer.py:40-43 | a declaration match at `p` starts with `<?xml` (any case), holds an encoding attribute and ends with `?>` |
| Sanitizer.FindDecl | backend/app/etl/sanitizer.py:193 | the leftmost match at or after `p` is such a declaration |
| Sanitizer.FixXmlDeclaration | backend/app/etl/sanitizer.py:177-193 | without a declaration the text is unchanged; with one, the text before and after it is kept |
| Sanitizer.FixWithoutDeclaration | backend/app/etl/sanitizer.py:193 | text in which `<?xml` never occurs is returned unchanged |
| Sanitizer.RewriteWithoutAttribute | backend/app/etl/sanitizer.py:185-190 | a declaration without an `encoding=` match is not rewritten |
| Sanitizer.FixDeclaresUtf8 | backend/app/etl/sanitizer.py:182-193 | when a declaration is found, the result contains `encoding="utf-8"` |
| Sanitizer.FixKeepsValid | backend/app/etl/sanitizer.py:319-321 | rewriting the declaration adds no character the sanitiser deletes |
| Sanitizer.FirstDecoding | backend/app/etl/sanitizer.py:84-94 | the chosen codec is the first candidate that decodes; none is chosen only when every candidate fails |
| Sanitizer.FixEncoding | backend/app/etl/sanitizer.py:46-97 | the UTF-16 LE/BE codec is chosen iff its byte-order mark is present and it decodes; the replacement decode is used iff every codec fails; otherwise the text is the chosen codec's output minus at most one (two for UTF-16) leading U+FEFF |
| Sanitizer.AsWrittenAlwaysWarns | backend/app/etl/sanitizer.py:299-301 | as written, the re-encoding warning is issued for every input, because "utf-8-sig" is tried before "utf-8" |
| Sanitizer.CorrectedWarning | backend/app/etl/sanitizer.py:299-301 | with the corrected condition, input that decodes as UTF-8 draws no warning and a UTF-16 input does |
| Sanitizer.CleanDecodedText | backend/app/etl/sanitizer.py:304-321 | references are stripped, then characters, then the declaration is fixed; the result is clean; warnings are empty iff neither strip changed anything |
| Sanitizer.SanitizeXml | backend/app/etl/sanitizer.py:252-323 | the result is the pipeline over the decoded text; the backup warning appears iff the backup failed, and the re-encoding warning iff the bytes were not UTF-8 (the corrected condition of the first finding); no warning iff nothing changed; the result has no deleted character and no U+FEFF |
| TallyFields.FirstFormat | backend/app/etl/parser.py:64-68 | the date returned is valid and is what one of the formats reads |
| TallyFields.ParseDate | backend/app/etl/parser.py:61-70 | `_date` returns only valid dates |
| TallyFields.ParseDateIgnoresPadding | backend/app/etl/parser.py:63 | surrounding whitespace never changes the date read |
| TallyFields.FirstFormatHead | backend/app/etl/parser.py:64-66 | a format that accepts the text decides it |
| TallyFields.FirstFormatTail | backend/app/etl/parser.py:67-68 | a format that rejects the text passes to the next |
| TallyFields.ParseDateCompact | backend/app/etl/parser.py:61-70 | `YYYYMMDD` reads back as the date it spells |
| TallyFields.ParseDateIso | backend/app/etl/parser.py:61-70 | `YYYY-MM-DD` reads back as the date it spells |
| TallyFields.ParseDateDayFirst | backend/app/etl/parser.py:61-70 | `DD-MM-YYYY` reads back as the date it spells |
| TallyFields.SpaceRun | backend/app/etl/parser.py:93 | a `\s*` run ends at a non-blank or at the end |
| TallyFields.NumberRun | backend/app/etl/parser.py:93 | a `[\d.,]+` run holds only such characters and ends at another character or at the end |
| TallyFields.LineEnd | backend/app/etl/parser.py:93 | `.*` stops at the first newline |
| TallyFields.MatchQty | backend/app/etl/parser.py:93 | a match has a non-empty number, and a unit when present starts with a letter |
| TallyFields.ParseQty | backend/app/etl/parser.py:84-101 | blank text gives (None, None); no unit without a number; a unit is non-empty and stripped |
| TallyFields.MatchQtyNumberUnit | backend/app/etl/parser.py:93 | digits, a blank and a unit match with the digits and the unit as the groups |
| TallyFields.MatchQtyNumber | backend/app/etl/parser.py:93 | digits alone match with no unit |
| TallyFields.ParseQtyOfMatch | backend/app/etl/parser.py:94-98 | how the result is assembled from a match |
| TallyFields.ParseQtyRoundTrip | backend/app/etl/parser.py:84-101 | `10 PC` reads back as 10 and `PC`: a number and a unit written out read back |
| TallyFields.ParseQtyDigitsUnit | backend/app/etl/parser.py:84-101 | digits, a blank and a unit read back as the digits' value and the unit |
| TallyFields.ParseQtyBareNumber | backend/app/etl/parser.py:84-101 | a bare whole number reads back with no unit |
| TallyFields.ParseRate | backend/app/etl/parser.py:104-119 | blank text has no rate |
| TallyFields.ParseRateAtSlash | backend/app/etl/parser.py:113-117 | the rate is read from the text before the first `/` |
| TallyFields.ParseRateRoundTrip | backend/app/etl/parser.py:104-119 | `910/PC` reads as 910 whatever the unit |
| TallyFields.ParseRateBareNumber | backend/app/etl/parser.py:104-119 | a bare whole number is its own rate |
| TallyFields.NormalizeVoucherType | backend/app/etl/parser.py:146-150 | empty gives "Unknown"; an unknown type is returned as it is; a known type in any case gives a canonical name |
| TallyFields.CanonicalNamesAreFixed | backend/app/etl/parser.py:123-143 | every canonical name, upper-cased, is a key that maps back to itself |
| TallyFields.NormalizeVoucherTypeIdempotent | backend/app/etl/parser.py:146-150 | normalising twice equals normalising once |
| TallyFields.NormalizeVoucherTypeIgnoresCase | backend/app/etl/parser.py:150 | two spellings that differ only in case name the same known type |
| TallyFields.InferLedgerType | backend/app/etl/parser.py:202-225 | the result is Other iff the lower-cased group contains none of the keywords |
| TallyFields.InferLedgerTypeIgnoresCase | backend/app/etl/parser.py:204 | a group and its upper-cased spelling get the same type |
| TallyFields.DebtorGroupsAreDebtors | backend/app/etl/parser.py:205-206 | a group containing "debtor" is a debtor whatever surrounds it |
| TallyFields.NormUnit | backend/app/etl/parser.py:252-255 | the stripped, upper-cased unit, replaced by the table's canonical unit when it is a key |
| TallyFields.UnlistedUnitFixed | backend/app/etl/parser.py:255 | a stripped upper-case unit that is no key normalises to itself |
| TallyFields.CanonicalUnitFixed | backend/app/etl/parser.py:239-249 | the canonical units PCS, KG and MTR are their own normal form |
| TallyFields.NormUnitIdempotent | backend/app/etl/parser.py:252-255 | normalising a unit twice equals normalising it once |
| TallyFields.MappedUnitFixed | backend/app/etl/parser.py:239-249 | a mapped unit is sent to a canonical unit, which it keeps |
| TallyFields.UnmappedUnitFixed | backend/app/etl/parser.py:255 | a stripped unit the table does not know normalises to its upper case, which it keeps |
| TallyParser.ParseLedger | backend/app/etl/parser.py:170-199 | the ledger type is inferred from the PARENT text; without an opening balance the balance is 0 |
| TallyFields.TruthyMeans | backend/app/etl/parser.py:73-76 | `_bool` ignores letter case and accepts only `1` and three- or four-letter words: `Yes` and `true` read as true, `No` and the empty text as false |
| TallyParser.ParseUnit | backend/app/etl/parser.py:228-236 | a unit without an ISSIMPLEUNIT child is simple |
| TallyParser.ParseStockItem | backend/app/etl/parser.py:258-301 | unit name and base unit agree; PCS when neither BASEUNITS nor UNITS is given, else the normalised unit; opening value never negative; opening balance 0 without one |
| TallyParser.LedgerLine | backend/app/etl/parser.py:410-444 | a financial line has no stock item and its position; it is a tax line iff its ledger name or TAXTYPE mentions a tax head; it has a tax head iff it is a tax line or TAXTYPE is given |
| TallyParser.InventoryLine | backend/app/etl/parser.py:447-491 | a stock line is named after its stock item, has a non-negative amount, is never a tax line, and has its position |
| TallyParser.Kept | backend/app/etl/parser.py:450-451 | only entries that pass the filter remain |
| TallyParser.Numbered | backend/app/etl/parser.py:442-444 | numbering keeps one line per entry |
| TallyParser.NumberedAppend | backend/app/etl/parser.py:444 | numbering a concatenation continues the count into the second part |
| TallyParser.KeptAppend | backend/app/etl/parser.py:447-451 | filtering distributes over concatenation |
| TallyParser.VoucherLines | backend/app/etl/parser.py:396-493 | one line per ledger entry plus one per named inventory entry |
| TallyParser.VoucherLinesShape | backend/app/etl/parser.py:406-493 | line i has order i; stock lines all follow the financial lines; each stock line has a non-negative amount, is not a tax line and has a non-empty name |
| TallyParser.VoucherLinesTax | backend/app/etl/parser.py:410-421 | a financial line is the i-th ledger entry, a tax line iff its name or TAXTYPE mentions a tax head |
| TallyParser.NumberKept | backend/app/etl/parser.py:448-491 | the loop over one container numbers the entries it keeps, from the running count |
| TallyParser.NumberContainers | backend/app/etl/parser.py:410-411 | the loop over the container tags numbers all their kept entries in turn |
| TallyParser.ParseLedgerEntries | backend/app/etl/parser.py:396-493 | the imperative loops build exactly the specified voucher lines |
| TallyParser.KeptEverything | backend/app/etl/parser.py:410-444 | the ledger pass keeps every entry |
| TallyParser.SumPositive | backend/app/etl/parser.py:363 | the debit side is never negative |
| TallyParser.SumNegative | backend/app/etl/parser.py:364 | the credit side before `abs` is never positive |
| TallyParser.SidesBoundEachLine | backend/app/etl/parser.py:363-364 | each side is at least as large as any line on that side |
| TallyParser.SidesAddUp | backend/app/etl/parser.py:363-364 | debit side plus (signed) credit side is the sum of all lines |
| TallyParser.FallbackCoversEveryLine | backend/app/etl/parser.py:362-365 | the fallback amount is non-negative and at least the size of every line |
| TallyParser.BalancedFallback | backend/app/etl/parser.py:362-365 | for a balanced voucher both sides agree and the fallback is the debit side |
| TallyParser.FirstBar | backend/app/etl/parser.py:356 | the first `|` lies within the text |
| TallyParser.SplitAtBar | backend/app/etl/parser.py:356 | two `a|x` texts with bar-free heads are equal only when heads and tails are |
| TallyParser.DedupKeyInjective | backend/app/etl/parser.py:354-356 | with bar-free type, number and company, two dedup keys are equal iff all four parts are |
| TallyParser.ParseVoucher | backend/app/etl/parser.py:307-390 | lines are those of `_parse_ledger_entries`; the amount is the stated total or the fallback; number, dedup key and type as the source builds them; an IRN is never empty |
| TallyParser.ParseVoucherDates | backend/app/etl/parser.py:318-347 | voucher and due dates are valid when present; an empty DATE gives no voucher date |
| TallyParser.ParseVoucherAmount | backend/app/etl/parser.py:329-365 | a non-zero stated amount (or no lines) is kept; otherwise the amount is non-negative and covers every line |
| TallyParser.ParseAll | backend/app/etl/parser.py:510-512 | one parsed record per element |
| TallyParser.ClassifyFresh | backend/app/etl/parser.py:538-549 | from "unknown", each file type is chosen iff exactly its kinds of data are present |
| TallyParser.CollectStep | backend/app/etl/parser.py:501 | processing one more message appends its records |
| TallyParser.LastCompanyStep | backend/app/etl/parser.py:503-505 | a message with COMPANY elements replaces the company with its last one |
| TallyParser.ParseResult.constructor | backend/app/etl/parser.py:660-667 | the result starts empty with an unknown file type |
| TallyParser.ParseResult.ProcessMessage | backend/app/etl/parser.py:501-535 | one message: the last COMPANY wins, ledgers, units, stock items and vouchers are appended in order, the file type is unchanged |
| TallyParser.ParseResult.ProcessTallyMessages | backend/app/etl/parser.py:499-535 | all messages: the company is the last one seen and every list gains the records of every message in order |
| TallyParser.ParseResult.SetFileType | backend/app/etl/parser.py:538-549 | only the file type changes, to mixed, master or transaction by what is present, or stays when nothing is |
| TallyParser.FirstText | backend/app/etl/parser.py:562-565 | the text found is not blank |
| TallyParser.Messages | backend/app/etl/parser.py:571-573 | the TALLYMESSAGE elements, or the root alone; never empty |
| TallyParser.DocumentCompany | backend/app/etl/parser.py:577-582 | a parsed COMPANY wins; otherwise SVCURRENTCOMPANY supplies one; there is none iff neither exists |
| TallyParser.ReadDocument | backend/app/etl/parser.py:552-583 | a fresh result holding exactly the document's contents, file type still unknown |
| TallyParser.ParseXmlFile | backend/app/etl/parser.py:643-674 | a parse error is an error and nothing else is; on success the contents are the document's and the file type classifies them |
| Importer.FirstWhere | backend/app/etl/importer.py:33-34 | `select ... .first()`: the index found is the first row the condition accepts, and no row is found only when none is accepted |
| Importer.UpsertedCompanies | backend/app/etl/importer.py:30-46 | a company without a (non-empty) name changes nothing and has no id; an existing company of that name is merged in place and keeps its id; otherwise the company is appended and its id is the new row's; the row under the id carries the name |
| Importer.MergeCompanyIdempotent | backend/app/etl/importer.py:35-38 | merging the same company data twice is merging it once, and data merged into itself is unchanged |
| Importer.UpsertedCompaniesKeepNamesUnique | backend/app/etl/importer.py:30-46 | the company upsert never stores two companies of one name |
| Importer.UpsertedFindsKey | backend/app/etl/importer.py:48-64 | after a master upsert the (name, company) key is found; the table grows by one row exactly when the key was new; the found row holds the merged or the new data; every other row is unchanged |
| Importer.FirstIsUnique | backend/app/etl/importer.py:53 | the first accepted index is the one `.first()` returns |
| Importer.UpsertedKeepsKeysUnique | backend/app/etl/importer.py:85-101 | a master upsert never gives one company two rows of the same name |
| Importer.MergeStockItem | backend/app/etl/importer.py:92-94 | the stock item update overwrites every field the parsed item sets and keeps the stored GST rate and standard rate when the parsed item leaves them unset |
| Importer.MastersKeepNames | backend/app/etl/importer.py:54-57 | the ledger, unit and stock item updates keep the name they were looked up by |
| Importer.MergeVoucher | backend/app/etl/importer.py:134-136 | the voucher update as written: a new IRN replaces the stored one, a missing IRN keeps it, and the deduplication key is always overwritten |
| Importer.MergeVoucherKeepingKey | backend/app/etl/importer.py:134-137 | the corrected update keeps the stored deduplication key and otherwise is the update as written |
| Importer.UpsertedVoucherShape | backend/app/etl/importer.py:104-162 | a voucher is inserted exactly when no stored row matches it by IRN (or by key without IRN); the table grows by one row exactly then; the returned id names a matching row of the company; other rows are unchanged; an insert stores the parsed header; an update keeps each stored optional field the parsed voucher leaves unset and takes amount and narration from it |
| Importer.UpsertedVoucherKeepsIrnsUnique | backend/app/etl/importer.py:116-144 | with any update that keeps or replaces the IRN as `_upsert_voucher` does, no IRN is ever stored twice |
| Importer.MergesKeepIrn | backend/app/etl/importer.py:134-136 | both voucher updates take the parsed IRN when it is set and keep the stored one otherwise |
| Importer.OtherLines | backend/app/etl/importer.py:151-155 | after the delete no line of the voucher is left |
| Importer.Attached | backend/app/etl/importer.py:158-160 | one stored line per parsed line |
| Importer.LinesOfAppend | backend/app/etl/importer.py:158-160 | the lines of a voucher in a concatenated table are its lines in each part, in order |
| Importer.LinesOfOthers | backend/app/etl/importer.py:151-155 | deleting a voucher's lines leaves it none and leaves every other voucher's lines as they were |
| Importer.LinesOfAttached | backend/app/etl/importer.py:158-160 | the attached lines are exactly the voucher's parsed lines and belong to no other voucher |
| Importer.ReplacedLinesSpec | backend/app/etl/importer.py:148-160 | a non-empty line list replaces the voucher's lines; an empty one leaves the line table alone; no other voucher's lines change |
| Importer.FoundKept | backend/app/etl/importer.py:116-121 | a table that keeps every row's IRN and key still finds whatever the old table found |
| Importer.UpsertStep | backend/app/etl/importer.py:104-146 | with the corrected update one upsert keeps every row's IRN and key, finds the voucher afterwards, and adds no row when it was found before |
| Importer.KeysKeptTrans | backend/app/etl/importer.py:228-243 | keeping the keys carries over a sequence of upserts |
| Importer.FirstPass | backend/app/etl/importer.py:228-243 | after the voucher loop every dated voucher of the batch is found and every earlier row keeps its keys |
| Importer.SecondPass | backend/app/etl/importer.py:228-243 | a voucher loop over vouchers all found already adds no row |
| Importer.ReimportAddsNothing | backend/app/etl/importer.py:228-243 | importing the same vouchers a second time adds no voucher row |
| Importer.ReimportAsWrittenInserts | backend/app/etl/importer.py:134-136 | with the update as written, a stored voucher (IRN Y, key k) and the batch [no IRN with key k, IRN Y with key k2] gives one row after the first import and two after the second |
| Importer.UpsertedAllKeepsKeysUnique | backend/app/etl/importer.py:215-225 | the master loops never give one company two rows of the same name |
| Importer.SkipWarnings | backend/app/etl/importer.py:230-234 | at most one warning per voucher, and none exactly when every voucher has a date |
| Importer.ImportedVouchersStep | backend/app/etl/importer.py:228-243 | one more voucher: an undated one only adds its warning; a dated one is upserted and its lines replaced |
| Importer.ImportStep | backend/app/etl/importer.py:228-243 | handling one voucher as the loop does moves the store from the first k vouchers to the first k+1 |
| Importer.StoredWarnings | backend/app/etl/importer.py:260 | no warnings are stored as none; otherwise the first 100 warnings, in order |
| Importer.Wrapped | backend/app/etl/importer.py:198 | every sanitiser warning is passed on |
| Importer.ImportedVouchersKeepIrnsUnique | backend/app/etl/importer.py:228-243 | the voucher loop never stores an IRN twice |
| Importer.Store.constructor | backend/app/etl/importer.py:205 | an empty store satisfies the key uniqueness invariant |
| Importer.Store.UpsertCompany | backend/app/etl/importer.py:30-46 | the company table and returned id are those of `UpsertedCompanies` |
| Importer.Store.UpsertLedger | backend/app/etl/importer.py:48-64 | the ledger table becomes the (name, company) upsert with every field replaced |
| Importer.Store.UpsertUnit | backend/app/etl/importer.py:67-82 | the unit table becomes the (name, company) upsert with every field replaced |
| Importer.Store.UpsertStockItem | backend/app/etl/importer.py:85-101 | the stock item table becomes the (name, company) upsert with `MergeStockItem` |
| Importer.Store.UpsertVoucher | backend/app/etl/importer.py:104-162 | the voucher table, id and inserted flag are those of the upsert with the corrected merge of the second finding, which keeps the stored dedup key; the voucher's lines are replaced |
| Importer.Store.ImportLedgers | backend/app/etl/importer.py:215-217 | the ledger loop upserts every parsed ledger in order |
| Importer.Store.ImportUnits | backend/app/etl/importer.py:219-221 | the unit loop upserts every parsed unit in order |
| Importer.Store.ImportStockItems | backend/app/etl/importer.py:223-225 | the stock item loop upserts every parsed stock item in order |
| Importer.Store.ImportDated | backend/app/etl/importer.py:235-240 | one dated voucher is upserted with its lines under the corrected merge, and the table grows by one row exactly when it is inserted |
| Importer.Store.ImportVouchers | backend/app/etl/importer.py:228-243 | the voucher loop: the tables are those of `ImportedVouchers`/`ImportedLines` under the corrected merge, the skipped warnings are `SkipWarnings`, inserted + updated + skipped is the batch size and the table grows by the inserted count |
| Importer.Store.ImportMasters | backend/app/etl/importer.py:206-225 | the company then ledgers, units and stock items are upserted under the company's id, each counted, and key uniqueness is kept |
| Importer.Store.ImportParsed | backend/app/etl/importer.py:205-247 | the upsert phase: all tables updated as above (vouchers under the corrected merge), the counters add up, status is success exactly when no warning was collected and the stored warnings are the first 100 |
| Importer.Store.ImportFile | backend/app/etl/importer.py:168-269 | a document that does not parse gives status error with a message, counts zero and no store change; otherwise the counters add up, status is success exactly when the sanitiser (with the corrected re-encoding condition) and the skip check have nothing to report, and the vouchers are the batch imported under the corrected merge |
| PkgConverter.WithoutSuffix | backend/app/etl/pkg_converter.py:39-42 | a name with no trailing `( number [unit] )` suffix is unchanged; otherwise the text before the suffix's opening parenthesis, with its trailing whitespace, is all that is left |
| PkgConverter.CleanNameNormalized | backend/app/etl/pkg_converter.py:45-53 | `_clean_name` always yields upper-case text with single inner spaces and no outer whitespace |
| PkgConverter.CleanNameWithoutSuffix | backend/app/etl/pkg_converter.py:45-53 | a name without a size suffix is cleaned exactly as `_norm` would clean it |
| PkgConverter.CleanNameOfSuffixed | backend/app/etl/pkg_converter.py:45-53 | a name followed by a size suffix such as `( 300 PCS )` is cleaned to the `_norm` of the name alone |
| PkgConverter.SuffixedStripped | backend/app/etl/pkg_converter.py:52 | a suffixed name that starts with a non-space is unchanged by `strip()` |
| PkgConverter.SuffixRemoved | backend/app/etl/pkg_converter.py:52 | removing the suffix from `name ( size )` leaves exactly `name` |
| PkgConverter.ParsePkgConversion | backend/app/etl/pkg_converter.py:91-150 | the row loop computes exactly the factors of the row-by-row scan `Run` |
| PkgConverter.NameOfNormalized | backend/app/etl/pkg_converter.py:115-118 | a pending name set by a name row is in `_norm`'s normal form |
| PkgConverter.StepKeepsGood | backend/app/etl/pkg_converter.py:96-141 | one row keeps every stored factor positive, every key a non-empty normalised name and no key twice |
| PkgConverter.RunIsGood | backend/app/etl/pkg_converter.py:91-150 | every factor of the result is positive and filed under a non-empty normalised name, with no name twice |
| PkgConverter.PendingRules | backend/app/etl/pkg_converter.py:96-141 | rows shorter than three cells are skipped; a name row replaces the pending name; a conversion row with a blank factor cell changes nothing; one with a filled cell consumes a pending name whether or not a factor is stored; a factor that is not a positive number is not stored |
| PkgConverter.RunTwo | backend/app/etl/pkg_converter.py:96 | scanning two more rows is two steps after the scan so far |
| PkgConverter.PairStores | backend/app/etl/pkg_converter.py:115-141 | a name row followed by a conversion row with a positive factor stores that factor under the cleaned name, leaves every other name as it was and leaves nothing pending |
| MkcpParser.RefAt | backend/app/etl/mkcp_parser.py:36-37 | a reference found at a position is at least four characters long and lies inside the text |
| MkcpParser.ScanAt | backend/app/etl/mkcp_parser.py:62-72 | one step of the reference substitution: a reference naming a code outside tab, line feed, carriage return and U+0020 on is deleted whole (at least four characters, one code reported); anything else is copied |
| MkcpParser.RefPass | backend/app/etl/mkcp_parser.py:74-75 | each substitution is a left-to-right scan of the text whose every deletion shortens it by at least four characters and removes only a code that is not kept |
| MkcpParser.PassLength | backend/app/etl/mkcp_parser.py:74-75 | the text kept plus four characters per deleted reference is never longer than the input |
| MkcpParser.PassIdentity | backend/app/etl/mkcp_parser.py:62-75 | a substitution leaves the text unchanged exactly when it deletes no reference, and every code it deletes is a C0 control other than tab, line feed and carriage return |
| MkcpParser.WithoutControls | backend/app/etl/mkcp_parser.py:76 | the result holds no raw control character and is never longer |
| MkcpParser.WithoutControlsClean | backend/app/etl/mkcp_parser.py:76 | text without raw control characters passes unchanged |
| MkcpParser.RawClassVersusSanitizer | backend/app/etl/mkcp_parser.py:38 | the raw-control class here is the sanitiser's invalid-character class without the byte-order mark |
| MkcpParser.StripInvalidXmlSpec | backend/app/etl/mkcp_parser.py:58-77 | `_strip_invalid_xml` leaves no raw control character, and text with no deletable reference of either kind and no raw control is left as it is |
| MkcpParser.IndexFrom | backend/app/etl/mkcp_parser.py:100 | `str.index`: the first occurrence of the pattern at or after the start, none only when there is no occurrence |
| MkcpParser.DropDeclaration | backend/app/etl/mkcp_parser.py:98-101 | text that does not open with `<?xml` after leading whitespace is unchanged; text that does fails exactly when it holds no `?>` |
| MkcpParser.DeclarationEnd | backend/app/etl/mkcp_parser.py:100 | in `<?xml x?>` with no `?` inside `x` the first `?>` is the declaration's own |
| MkcpParser.DeclarationDropped | backend/app/etl/mkcp_parser.py:98-101 | whitespace, a declaration without `?` in its body, then a body gives the body with its leading whitespace removed |
| MkcpParser.DeclarationOpens | backend/app/etl/mkcp_parser.py:99 | a document whose first non-space text is `<?xml` is seen to start with a declaration |
| MkcpParser.PrepareXml | backend/app/etl/mkcp_parser.py:93-104 | text handed to the XML parser holds no raw control character |
| MkcpParser.NameAttr | backend/app/etl/mkcp_parser.py:128 | the stripped NAME attribute is empty or starts and ends with a non-space |
| MkcpParser.GroupFrom | backend/app/etl/mkcp_parser.py:133-143 | the record keeps the name; the base unit is BASEUNITS, or `PCS` when blank; PARENT and GUID are present exactly when their text is not blank |
| MkcpParser.GroupOfFields | backend/app/etl/mkcp_parser.py:128-143 | a group record is named by the stripped NAME attribute and its base unit is never empty |
| MkcpParser.GroupOfOptional | backend/app/etl/mkcp_parser.py:133-135 | PARENT and GUID are set exactly when their element text is not blank |
| MkcpParser.Candidates | backend/app/etl/mkcp_parser.py:127 | one candidate record per STOCKGROUP element, in document order |
| MkcpParser.ParseStockGroups | backend/app/etl/mkcp_parser.py:119-146 | the loop outputs exactly the records of the element-by-element scan |
| MkcpParser.GroupNames | backend/app/etl/mkcp_parser.py:128 | the names of the records, in order |
| MkcpParser.GroupRunSeen | backend/app/etl/mkcp_parser.py:125-131 | the `seen` set holds exactly the names already output |
| MkcpParser.GroupRunSpec | backend/app/etl/mkcp_parser.py:127-144 | the output names are distinct and non-blank, and they are exactly the non-blank input names |
| MkcpParser.GroupRunFirst | backend/app/etl/mkcp_parser.py:129-131 | the first record carrying a name is the one kept |
| MkcpParser.StockGroupsDistinct | backend/app/etl/mkcp_parser.py:119-146 | no two stock groups share a name, no name is blank and every base unit is set |
| MkcpParser.StockGroupsNames | backend/app/etl/mkcp_parser.py:119-146 | the stock group names are exactly the non-blank NAME attributes of the elements |
| MkcpParser.StockGroupsFirst | backend/app/etl/mkcp_parser.py:129-131 | the record kept for a name is the one of the first element carrying it |
| MkcpParser.GroupRunMembers | backend/app/etl/mkcp_parser.py:137-144 | every output record is one of the candidates |
| MkcpParser.FactorMatch | backend/app/etl/mkcp_parser.py:41-44 | a match of the name-suffix pattern has a non-empty name part and an opening parenthesis before the closing one |
| MkcpParser.NameSplit | backend/app/etl/mkcp_parser.py:173-182 | a name the pattern does not match keeps its whole text and carries no factor |
| MkcpParser.NameSplitOfSuffixed | backend/app/etl/mkcp_parser.py:173-179 | `BELL CROWN MINI ( 300 PCS )` and every name of that shape splits into the name and the number in the parentheses |
| MkcpParser.KonaFactor | backend/app/etl/mkcp_parser.py:192-209 | a Kona entry contributes only a factor above zero |
| MkcpParser.PriceEntries | backend/app/etl/mkcp_parser.py:191 | one entry per FULLPRICELIST.LIST element, carrying its DATE text and its Kona factor |
| MkcpParser.KonaUpdate | backend/app/etl/mkcp_parser.py:191-211 | one price-list element moves the (latest date, factor) pair exactly as the Kona step does |
| MkcpParser.LatestKona | backend/app/etl/mkcp_parser.py:188-211 | the inner loop yields the factor of the Kona scan |
| MkcpParser.KonaRunSpec | backend/app/etl/mkcp_parser.py:188-211 | there is a Kona factor exactly when some entry has one; it is the factor of an entry whose date no other entry's date exceeds, and of the last entry with that date |
| MkcpParser.PriceItems | backend/app/etl/mkcp_parser.py:167 | one optional entry per STOCKITEM, in document order |
| MkcpParser.PriceItemOf | backend/app/etl/mkcp_parser.py:168-217 | the loop body for one item yields exactly the item's entry |
| MkcpParser.ParsePriceList | backend/app/etl/mkcp_parser.py:152-219 | the loop builds exactly the price-list map of the items |
| MkcpParser.KonaBeatsName | backend/app/etl/mkcp_parser.py:213-217 | a Kona factor, when there is one, beats the factor in the name |
| MkcpParser.KonaPositive | backend/app/etl/mkcp_parser.py:209 | the Kona factor kept is above zero |
| MkcpParser.PriceItemGood | backend/app/etl/mkcp_parser.py:215-217 | an item stores a factor above zero under a non-empty `_norm` name |
| MkcpParser.PriceListGood | backend/app/etl/mkcp_parser.py:152-219 | every stored factor is above zero, every key a non-empty normalised name, and no key is stored twice |
| MkcpParser.PriceListLastWins | backend/app/etl/mkcp_parser.py:217 | the factor under a key is the one of the last item whose name normalises to it |
| MkcpParser.FirstIndex | backend/app/etl/mkcp_parser.py:47 | the first occurrence of a character, none only when it does not occur |
| MkcpParser.ParentOpen | backend/app/etl/mkcp_parser.py:47 | where the parent suffix starts, an opening parenthesis |
| MkcpParser.ParentGroup | backend/app/etl/mkcp_parser.py:246 | the group is empty or has no outer whitespace, and a PARENT text without a suffix is only stripped |
| MkcpParser.ParentGroupOfSuffixed | backend/app/etl/mkcp_parser.py:246 | `BICYCLE ( 87120010 )` and every PARENT of that shape gives the name in front of the parentheses |
| MkcpParser.GroupItemNonBlank | backend/app/etl/mkcp_parser.py:237-248 | an item-group entry has neither a blank name nor a blank group |
| MkcpParser.GroupItems | backend/app/etl/mkcp_parser.py:236 | one optional entry per STOCKITEM, in document order |
| MkcpParser.GroupItemOf | backend/app/etl/mkcp_parser.py:237-248 | the loop body for one item yields exactly the item's entry |
| MkcpParser.ParseItemGroups | backend/app/etl/mkcp_parser.py:225-250 | the loop builds exactly the item-group map of the items |
| MkcpParser.ItemGroupsSpec | backend/app/etl/mkcp_parser.py:225-250 | no name is mapped twice, names and groups are never blank, and a name keeps the group of the last item carrying it |
| MkcpParser.ParseMkcpFiles | backend/app/etl/mkcp_parser.py:256-340 | the factors are the price list's updated by the conversion sheet's; the source counts are the sizes of the two; groups and item groups come from their files, empty when a file is missing or fails to parse |
| MkcpParser.MergeSpec | backend/app/etl/mkcp_parser.py:300-304 | the merged factors hold no key twice, their keys are those of either source, and a key takes the conversion sheet's factor when it has one, else the price list's |
| MkcpImporter.Min3 | backend/app/etl/mkcp_importer.py:52-56 | the minimum of three is one of them and no greater than any |
| MkcpImporter.LevSymmetric | backend/app/etl/mkcp_importer.py:45-47 | the edit distance does not depend on the order of its arguments, so swapping them to make the first the longer changes nothing |
| MkcpImporter.LevZeroIff | backend/app/etl/mkcp_importer.py:37-38 | the distance is zero exactly for equal strings |
| MkcpImporter.LevBounds | backend/app/etl/mkcp_importer.py:39-43 | the distance lies between the difference of the lengths and the greater length; against an empty string it is the other's length |
| MkcpImporter.LevCell | backend/app/etl/mkcp_importer.py:52-56 | each cell of the table is the minimum of a deletion, an insertion and a substitution from its three neighbours |
| MkcpImporter.NextRow | backend/app/etl/mkcp_importer.py:50-56 | the inner loop turns the row of the first i-1 characters into the row of the first i |
| MkcpImporter.FirstRow | backend/app/etl/mkcp_importer.py:48 | `list(range(lb + 1))` is the row of the empty prefix |
| MkcpImporter.Levenshtein | backend/app/etl/mkcp_importer.py:35-58 | `_levenshtein` returns the edit distance of its arguments |
| MkcpImporter.Threshold | backend/app/etl/mkcp_importer.py:77 | the fuzzy threshold is 2 or 3, and 3 exactly for names of 30 characters or more |
| MkcpImporter.Scored | backend/app/etl/mkcp_importer.py:82-88 | each key paired with its distance from the name, in dict order |
| MkcpImporter.FuzzyRun | backend/app/etl/mkcp_importer.py:79-91 | the key the scan keeps is one of the keys, passes the first-character and length gates and is within the threshold; with no key kept the best distance stays at threshold + 1 |
| MkcpImporter.FuzzyRunMin | backend/app/etl/mkcp_importer.py:82-91 | the scan ends at the smallest distance among the keys that pass the gates |
| MkcpImporter.FuzzyRunFirst | backend/app/etl/mkcp_importer.py:89-91 | among keys at the smallest distance the first in dict order is kept (strict `<`) |
| MkcpImporter.ScoredPick | backend/app/etl/mkcp_importer.py:82-94 | the chosen pair names a key of the dict and carries its distance |
| MkcpImporter.FuzzyFound | backend/app/etl/mkcp_importer.py:61-95 | a fuzzy match is a key with its own factor, sharing the name's first character and within the threshold; there is none exactly when the name is empty or every key with that first character is farther than the threshold (the length gate only drops keys the distance rejects anyway) |
| MkcpImporter.FuzzyNearest | backend/app/etl/mkcp_importer.py:82-94 | the match is at least as near as every key with the same first character, and among equally near keys it is the first in dict order |
| MkcpImporter.FuzzyVisit | backend/app/etl/mkcp_importer.py:82-91 | one key: a non-empty key with the query's first character and a length within the threshold replaces the best so far exactly when its edit distance is smaller |
| MkcpImporter.FuzzyScan | backend/app/etl/mkcp_importer.py:78-91 | the loop ends with the best key and distance of the gated scan over the keys in dict order, starting from no key and threshold + 1 |
| MkcpImporter.FuzzyMatch | backend/app/etl/mkcp_importer.py:61-95 | the loop returns exactly the fuzzy match |
| MkcpImporter.PrefixIndex | backend/app/etl/mkcp_importer.py:128-133 | the prefix loop stops at the first key, in dict order, that is a prefix of the name or has it as a prefix, and finds none only when no key is |
| MkcpImporter.FactorPairs | backend/app/etl/mkcp_importer.py:117-144 | one optional (name, factor) pair per database name, in order |
| MkcpImporter.MatchFactorSpec | backend/app/etl/mkcp_importer.py:117-144 | a resolved factor is one of the dict's factors; the exact key wins; a name resolves to nothing exactly when no key is prefix-related to it and no key with its first character is within the threshold |
| MkcpImporter.FactorPairsLast | backend/app/etl/mkcp_importer.py:117-144 | the pairs mention only the listed names, each with its resolved factor |
| MkcpImporter.FactorMapSpec | backend/app/etl/mkcp_importer.py:98-159 | the factor map holds each name once: exactly the database names that resolve, each with its factor |
| MkcpImporter.ResolveFactor | backend/app/etl/mkcp_importer.py:118-144 | one name: the exact lookup, then the prefix loop with its early exit, then the fuzzy match, give the resolved factor |
| MkcpImporter.FactorMapStep | backend/app/etl/mkcp_importer.py:117-144 | the factor map grows by one name's pair at a time |
| MkcpImporter.BuildFactorMap | backend/app/etl/mkcp_importer.py:98-159 | `_build_factor_map` builds exactly the factor map |
| MkcpImporter.NoPairs | backend/app/etl/mkcp_importer.py:113 | with no resolved name the map stays empty |
| MkcpImporter.FactorMapGuard | backend/app/etl/mkcp_importer.py:218-221 | without names or without keys no name resolves, so the guard only saves work |
| MkcpImporter.StoredFactors | backend/app/etl/mkcp_importer.py:225-231 | what is stored holds each key once: the dict's keys and the resolved names; a resolved name takes its resolved factor, any other key its dict factor; every stored factor is one of the dict's |
| MkcpImporter.UpsertAllSpec | backend/app/etl/mkcp_importer.py:236-247 | an upsert loop over distinct keys counts every item once as added or updated, grows the table by the number added, leaves each item's row as its update computes it and every other row unchanged |
| MkcpImporter.GroupKeyed | backend/app/etl/mkcp_importer.py:189-191 | each parsed group keyed by its name |
| MkcpImporter.ImportedUnits | backend/app/etl/mkcp_importer.py:223-247 | after the alternate-unit loop every resolved name holds its resolved factor, every other dict key its dict factor, both stamped now; rows of other names are unchanged; each stored pair counts once |
| MkcpImporter.DbItemNames | backend/app/etl/mkcp_importer.py:211-215 | the intended name fetch (corrected member of the fourth finding): exactly the non-empty stock item names |
| MkcpImporter.FetchNamesAsWrittenSpec | backend/app/etl/mkcp_importer.py:211-215 | the fetch as written fails iff some stock item name is empty; otherwise it returns one name per row, each the row's first character |
| MkcpImporter.StoredNamesKnown | backend/app/etl/mkcp_importer.py:211-234 | with the intended fetch, every stored alternate unit is keyed by a conversion key or a stock item name |
| MkcpImporter.FetchAsWrittenStoresStrayName | backend/app/etl/mkcp_importer.py:211-234 | as written, stock item `BELL CROWN MINI` with factor 300 is fetched as `B`, and the prefix rule then stores a unit `B` that is neither a stock item nor a conversion key |
| MkcpImporter.MkcpTables.constructor | backend/app/etl/mkcp_importer.py:162 | the tables hold the given rows |
| MkcpImporter.MkcpTables.UpsertGroups | backend/app/etl/mkcp_importer.py:189-201 | the vendor-group loop: the table and the counts are those of the upsert with parent, base unit and guid replaced; no other table changes |
| MkcpImporter.MkcpTables.UpsertUnits | backend/app/etl/mkcp_importer.py:236-247 | the alternate-unit loop: table and counts of the upsert setting the factor and the update time, new rows with PKG and PCS; no other table changes |
| MkcpImporter.MkcpTables.UpsertMappings | backend/app/etl/mkcp_importer.py:257-268 | the item-group loop: table and counts of the upsert setting the group name and update time; no other table changes |
| MkcpImporter.MkcpTables.ImportFactors | backend/app/etl/mkcp_importer.py:217-268 | the alternate-unit and item-group phases for the fetched names: both tables and their counts are those of the upserts over the stored factors and the item groups, the unmatched count is the dict size less the factor map size floored at 0, and the vendor groups are untouched |
| MkcpImporter.MkcpTables.ImportMkcp | backend/app/etl/mkcp_importer.py:162-276 | `import_mkcp`: the vendor groups are always upserted first; an empty stock item name then fails the import with the other tables unchanged; otherwise the alternate units and item groups, and every count, are those of the upserts over the stored factors of the names as fetched (first characters) and the item groups; the unmatched count is the dict size less the factor map size, floored at 0 |
| MasterOverrides.Validate | backend/app/api/master_override_routes.py:71-83 | a body is accepted exactly when its package factor, if given, is above zero and its GST rate, if given, lies in [0, 100]; an accepted body passes through unchanged and a rejection names the failing fields |
| MasterOverrides.MergeSpec | backend/app/api/master_override_routes.py:152-158 | each of the six fields takes its new value when provided and keeps the stored one otherwise; the save time is set; saving the same body again changes only the time; a sound override stays sound |
| MasterOverrides.ApplyOverrides | backend/app/api/master_override_routes.py:104-121 | each of package factor, group and base unit is replaced exactly when the stored override has that field, else the input passes through |
| MasterOverrides.ApplyAfterSave | backend/app/api/master_override_routes.py:145-162 | after a successful save, applying the overrides yields the saved values for the provided fields and the earlier result for the others |
| MasterOverrides.OverrideStore.constructor | backend/app/api/master_override_routes.py:40-47 | an absent file reads as no overrides |
| MasterOverrides.OverrideStore.All | backend/app/api/master_override_routes.py:94-96 | `get_all_overrides` returns the stored overrides |
| MasterOverrides.OverrideStore.OverrideFor | backend/app/api/master_override_routes.py:99-101 | the stored override of the item, or the empty one |
| MasterOverrides.OverrideStore.SetOverride | backend/app/api/master_override_routes.py:145-162 | a rejected body or a body with no field is an error and changes nothing; otherwise the merged override is stored under the item, every other item is untouched, and every stored override stays valid |
| MasterOverrides.OverrideStore.DeleteOverride | backend/app/api/master_override_routes.py:165-174 | an item without an override is a 404 and changes nothing; otherwise only that item's override is removed |
| MasterOverrides.OverrideStore.ClearAll | backend/app/api/master_override_routes.py:177-184 | the store is emptied and the number of overrides it held is returned |
| RateOverrides.EffectiveRate | backend/app/api/rate_routes.py:105-127 | the saved rate wins when the item has one for that field; otherwise the imported rate is returned |
| RateOverrides.Trim | backend/app/api/rate_routes.py:95-97 | the rolling window keeps at most 1000 entries, the most recent ones, and a log within the window is untouched |
| RateOverrides.AppendLogKeepsNewest | backend/app/api/rate_routes.py:91-99 | after appending at most 1000 entries the log ends with exactly those entries, preceded by the most recent older ones |
| RateOverrides.Reversed | backend/app/api/rate_routes.py:137 | reversing keeps the length |
| RateOverrides.ReversedAt | backend/app/api/rate_routes.py:137 | entry i of the reversed log is entry i from the end |
| RateOverrides.SliceTo | backend/app/api/rate_routes.py:137 | `xs[:limit]` is the prefix of length min(limit, len) for a non-negative limit and drops -limit entries from the end for a negative one |
| RateOverrides.ChangeLogNewestFirst | backend/app/api/rate_routes.py:133-137 | the change log lists at most `limit` entries (exactly `limit` when the log is that long), newest first |
| RateOverrides.Warn | backend/app/api/rate_routes.py:199-206 | a warning is raised exactly when the stored value is positive and the new value moves from it by more than 30 % of it |
| RateOverrides.SaveRecords | backend/app/api/rate_routes.py:194-216 | a save records one audit entry per provided field, package rate first, each carrying the stored value it replaces; none exactly when no rate is given; it warns for a field exactly when that field is provided and moves by more than the threshold |
| RateOverrides.Merged | backend/app/api/rate_routes.py:221-226 | each saved rate is the new one when provided and the stored one otherwise, so a partial update keeps the other rate; the save time is set |
| RateOverrides.Validate | backend/app/api/rate_routes.py:181-185 | a body is accepted exactly when neither rate is negative; a negative package rate is reported before a negative unit rate |
| RateOverrides.EffectiveAfterSave | backend/app/api/rate_routes.py:170-236 | after a save the effective rate of a provided field is the saved one and of any other field the previous effective one |
| RateOverrides.RateStore.constructor | backend/app/api/rate_routes.py:69-88 | absent files read as no overrides and an empty log |
| RateOverrides.RateStore.SaveRateOverride | backend/app/api/rate_routes.py:170-236 | a negative rate is rejected with no change; otherwise the merged entry replaces the item's override, the response carries it and the warnings, and the log gets the audit entries within its window |
| RateOverrides.RateStore.DeleteRateOverride | backend/app/api/rate_routes.py:239-252 | an item without an override is a 404 and changes nothing; otherwise only that override goes and the log is untouched |
| Reports.Page | backend/app/api/routes.py:178-180 | a page holds at most `page_size` vouchers; a page past the end is empty; entry k of page p is voucher (p-1)*size+k of the listed order |
| Reports.PageAt | backend/app/api/routes.py:179 | the pages tile the list: voucher i is at position i mod size of page i / size + 1, and every page before the last is full |
| Reports.VoucherList | backend/app/api/routes.py:142-187 | the total is the number of matching vouchers and the items are their page |
| Reports.KpisClamps | backend/app/api/routes.py:255-284 | net revenue is sales less purchases; receivables are sales less receipts and payables purchases less payments, each exactly that difference when it is not negative and 0 otherwise; the GST figures are never negative |
| Reports.AmountSumOther | backend/app/api/routes.py:242-253 | a voucher of another company changes neither a type sum nor the voucher count |
| Reports.TaxSumOther | backend/app/api/routes.py:260-274 | with the company condition, a voucher of another company changes no tax sum |
| Reports.KpisCompanyScoped | backend/app/api/routes.py:225-300 | with the company condition on every sum, adding a voucher of another company leaves the KPI response as it was |
| Reports.KpisAsWrittenLeaksGst | backend/app/api/routes.py:260-274 | as written, the GST collected for company 1 includes the tax on company 2's sale while its sales total does not |
| Reports.UpperSales | backend/app/api/routes.py:244 | `"Sales".upper()` is `SALES` |
| Reports.MonthUnit | backend/app/api/routes.py:490-510 | a unit a month offers is never empty |
| Reports.FirstUnit | backend/app/api/routes.py:473-510 | the unit found is never empty |
| Reports.FirstUnitIsFirst | backend/app/api/routes.py:492-510 | the unit reported is that of the earliest month offering one, and no earlier month offers one |
| Reports.FirstUnitNone | backend/app/api/routes.py:473-510 | no unit is reported exactly when no month offers one |
| Reports.MonthUnitFrom | backend/app/api/routes.py:480-510 | a month's unit is the unit of one of its purchase or sales lines of the item |
| Reports.MonthStep | backend/app/api/routes.py:476-520 | one month: the balance moves by its inward less its outward, its row records the month, the opening balance, inward, outward and closing, and the unit is kept or else this month's |
| Reports.MonthlyStep | backend/app/api/routes.py:475-521 | one more month extends the history by its row, moves the balance and supplies the unit when none was found yet |
| Reports.ItemMonthly | backend/app/api/routes.py:458-523 | `_compute_item_monthly`: one row per month from the month `months` months before today through today's month, the closing balance the opening plus all inward less all outward, and the first unit found |
| Reports.MasterMaps | backend/app/api/routes.py:537-543 | the opening lookup holds the last stock item of each non-empty name; the unit lookup the last non-empty unit of each name |
| Reports.OpeningOfLast | backend/app/api/routes.py:539-541 | the opening found for a name is that of the last stock item carrying it |
| Reports.MovedIff | backend/app/api/routes.py:563 | an item shows movement exactly when one of its months has a positive purchase or sales quantity |
| Reports.RowMoved | backend/app/api/routes.py:563 | row j of the history shows movement exactly when month k0 + j does |
| Reports.InventorySound | backend/app/api/routes.py:554-574 | every reported item is the report of a distinct non-empty line item name whose history shows movement |
| Reports.InventoryComplete | backend/app/api/routes.py:554-574 | every non-empty line item name with movement is reported |
| Reports.ItemInventory | backend/app/api/routes.py:526-574 | `item_inventory` computes exactly the inventory over the line item names |
| Reports.ItemInventoryDetail | backend/app/api/routes.py:577-601 | the detail uses the first stock item of the name for the opening (0 without one), the history from there, and its unit when the history has none |
| Reports.AllRefOkPrefix | backend/app/api/routes.py:629-633 | the rows before a row and the row itself have calendar reference dates |
| Reports.DaysOverdue | backend/app/api/routes.py:633-636 | days overdue are today less the reference date, and 0 when that date is not yet past |
| Reports.BucketOf | backend/app/api/routes.py:637-644 | 0-30, 31-60, 61-90 and 91+ days, each exactly on its range |
| Reports.AgingRows | backend/app/api/routes.py:618-626 | the aging query returns only vouchers with a positive amount |
| Reports.Totals | backend/app/api/routes.py:628-644 | there are always four bucket totals |
| Reports.TotalsSum | backend/app/api/routes.py:628-644 | the four buckets share out exactly the amounts of the rows with a due or voucher date, and none is negative |
| Reports.TotalsSnoc | backend/app/api/routes.py:629-644 | one more row adds its amount to the bucket of its days overdue, or to none when it has no date |
| Reports.TotalsStep | backend/app/api/routes.py:629-644 | one more row changes exactly one bucket, by its amount, or none when it has no date |
| Reports.AgeRow | backend/app/api/routes.py:629-644 | the loop body adds the amount to the bucket of the row's days overdue, and passes over a row with neither date |
| Reports.AgingForType | backend/app/api/routes.py:617-649 | four buckets in the fixed order, each with the total of its range |
| Reports.AgingReport | backend/app/api/routes.py:607-655 | receivables age the sales and payables the purchases |
| StockLedger.JoinShorter | backend/app/api/routes.py:481 | a line whose voucher is missing drops out of the join |
| StockLedger.JoinAll | backend/app/api/routes.py:481 | when every line names a stored voucher the join has one row per line, in line order |
| StockLedger.QtyNone | backend/app/api/routes.py:491 | with no counting row the quantity sum is 0 (`or 0.0`) |
| StockLedger.MaxUnitWitness | backend/app/api/routes.py:480 | `MAX(unit)` is the unit of some counting row |
| StockLedger.MaxUnitUpper | backend/app/api/routes.py:480 | no counting row has a greater unit, and a maximum exists once some counting row has a unit |
| StockLedger.MaxUnitNone | backend/app/api/routes.py:480 | without a counting row that has a unit the maximum is absent |
| StockLedger.MonthBounds | backend/app/api/routes.py:486-487 | a calendar date is on or after the first of month k0 exactly when its month is at least k0, and on or before the last of month k1 exactly when its month is at most k1 |
| StockLedger.MonthStartNotAfter | backend/app/api/routes.py:475 | the loop runs for month k exactly when k is at most today's month |
| StockLedger.MonthsWalked | backend/app/api/routes.py:469-475 | the loop walks months + 1 months, from the month `months` months before today through today's month |
| StockLedger.MonthsQtySnoc | backend/app/api/routes.py:479-508 | the monthly sums over one more row are those without it plus its own weights |
| StockLedger.MonthsWeightSpan | backend/app/api/routes.py:486-487 | a dated row lands in at most one month: the one its date falls in, when that lies in the span |
| StockLedger.MonthsCoverSpan | backend/app/api/routes.py:475-521 | summing month by month gives the sum over the whole span of months |
| StockLedger.MonthsQtyEmpty | backend/app/api/routes.py:491 | with no rows every monthly sum is 0 |
| StockLedger.MonthRows | backend/app/api/routes.py:513-520 | one row per month |
| StockLedger.MonthRowsSnoc | backend/app/api/routes.py:513-521 | a history one month longer is the shorter one and that month's row |
| StockLedger.MonthRowsStep | backend/app/api/routes.py:512-520 | one more month: its row opens at the balance so far and closes at that balance plus inward less outward |
| StockLedger.BalanceTotal | backend/app/api/routes.py:472-512 | the balance telescopes: after n months it is the opening plus all inward less all outward of those months |
| StockLedger.MonthRowsChain | backend/app/api/order_routes.py:334-345 | rows are consecutive months; the first opens at the opening balance; each opens where the previous closed; each closes at its opening plus inward less outward; the last closes at the opening plus the inward less the outward of the whole span |
| StockLedger.FirstNamed | backend/app/api/routes.py:585 | `.first()`: a stock item of that name, or none only when there is none |
| StockOrders.PurchaseUnitSpec | backend/app/api/order_routes.py:100-116 | the unit is the greatest unit on a purchase line of the item, never empty, and absent exactly when no such line carries a non-empty unit |
| StockOrders.AvgOutward | backend/app/api/order_routes.py:138-156 | the average times the lookback is the quantity sold since the cutoff, a lookback below 1 divides by 1, and an empty name averages 0 |
| StockOrders.Ceil | backend/app/api/order_routes.py:267 | `math.ceil`: the least integer not below the value |
| StockOrders.ItemGroup | backend/app/api/order_routes.py:237-242 | the group is a non-empty override group, else a non-empty mapped group, else none |
| StockOrders.KeptIff | backend/app/api/order_routes.py:244-245 | the filter keeps an item exactly when there is no filter, the item's group is the filter, or the filter is the default group and the item has no group |
| StockOrders.OrderItemSpec | backend/app/api/order_routes.py:236-284 | closing is opening plus purchases less sales; the base suggestion is the non-negative shortfall against months_cover months of average outward; package figures exist exactly when the factor is positive, the package closing times the factor is the base closing and the package suggestion is the fewest whole packages covering the base one; the average outward is the lookback average of the item's sales; the override factor, group and unit win, then the alternate-unit factor, the mapped group and the purchase unit, and the defaults fill in the rest |
| StockOrders.ScaleOrder | backend/app/api/order_routes.py:267 | multiplying by a positive factor keeps the order of two reals |
| StockOrders.OrderItemsSound | backend/app/api/order_routes.py:235-286 | every listed row is the row of one of the names whose group the filter keeps, and there are no more rows than names |
| StockOrders.OrderItemsComplete | backend/app/api/order_routes.py:235-286 | every name whose group the filter keeps is listed |
| StockOrders.ListOrderItems | backend/app/api/order_routes.py:182-286 | `list_order_items` computes exactly the order list over the names |
| StockOrders.ItemHistory | backend/app/api/order_routes.py:289-348 | one row per month from `months` months before today through today's month, starting from the first stock item's opening (0 without one) |
| StockOrders.Candidates | backend/app/api/order_routes.py:464-471 | at most `limit` vouchers, each a stored one |
| StockOrders.CandidatesSound | backend/app/api/order_routes.py:464-471 | every candidate is a ranked id of a stored, non-cancelled voucher of the requested type, or of Sales or Purchase when none is requested |
| StockOrders.CandidatesComplete | backend/app/api/order_routes.py:464-471 | when fewer than `limit` candidates come back, every ranked voucher the condition selects is among them |
| StockOrders.ItemLines | backend/app/api/order_routes.py:485-492 | at most five lines of the voucher, each naming a stock item |
| StockOrders.Filtered | backend/app/api/order_routes.py:489 | only lines that name a stock item |
| StockOrders.AnyHsn | backend/app/api/order_routes.py:495-502 | the search finds an HSN code exactly when some line's item has a non-empty one |
| StockOrders.FlaggedSpec | backend/app/api/order_routes.py:475-504 | each issue is raised exactly when its flag is set, at most four in all |
| StockOrders.IssuesSpec | backend/app/api/order_routes.py:477-504 | a voucher is flagged for a blank number, a blank or absent party, an amount zero or below, and item lines none of whose items has an HSN code, each exactly on its condition |
| StockOrders.EntryOf | backend/app/api/order_routes.py:506-516 | the entry names the voucher and carries its issues |
| StockOrders.WithIssuesSound | backend/app/api/order_routes.py:506 | only entries with an issue are kept |
| StockOrders.WithIssuesComplete | backend/app/api/order_routes.py:506 | every entry with an issue is kept |
| StockOrders.Entries | backend/app/api/order_routes.py:474 | one entry per candidate, in order |
| StockOrders.ReportSound | backend/app/api/order_routes.py:473-518 | every reported entry is the entry of a candidate voucher that has an issue |
| StockOrders.ReportComplete | backend/app/api/order_routes.py:473-518 | every candidate voucher with an issue is reported |
| StockOrders.VoucherIssues | backend/app/api/order_routes.py:475-504 | the checks on one voucher append exactly its issues, in order |
| StockOrders.ReportSnoc | backend/app/api/order_routes.py:474-516 | one more candidate adds its entry exactly when it has an issue |
| StockOrders.GstComplianceCheck | backend/app/api/order_routes.py:454-518 | `gst_compliance_check` reports exactly the candidates with an issue, in order |

## Left out

- `watcher.py`: threads, locks, filesystem observers and debouncing are concurrency and I/O.
- `main.py` and the `core` package (configuration, database engine, logging) only wire the application together.
- The `models` and `schemas` packages only declare fields. Their field lists become the datatypes here, and there is nothing to prove about them.
- Byte decoding through Python codecs is not modelled. `FixEncoding` takes the decoded text for each codec as a parameter (`decoded`, with `None` for a failed decode) and models only the byte-order-mark decisions and the codec order.
- The large-file paths `_sanitize_large` (over 100 MB) and `_parse_xml_streaming` (over 50 MB) are not modelled. They are performance variants of the same steps.
- ElementTree parsing is a parameter. The parser takes an already-built node tree, and a failed parse is an error result. Turning elements back into XML text (`raw_xml`) is not modelled.
- The raw-backup write in `sanitize_xml` is a `backupFailed` flag. Backup file naming is not modelled. Creating the backup directory happens outside the `try` (sanitizer.py:283), so a failing directory creation raises out of `sanitize_xml` and `import_file`; that exception is not modelled.
- SQL sessions are sequences of rows, sums are folds, and upserts are sequence updates. Query results are taken as the rows the query selects.
  - The ordering clauses are inputs: sorted item names and ranked voucher ids.
  - `list_vouchers` models only the page window. Its search and filter clauses are left out.
  - FastAPI's query-parameter bounds are not enforced, except that page and page size are at least 1.
- JSON file persistence of the override stores becomes the fields of a class.
- Reading the xlsx workbook becomes a sequence of rows of three cells. The file lookups in `load_pkg_conversion` and `parse_utf16_xml` become `Option` parameters.
- Excel export, CSV export and streaming responses are not modelled.
- Floating point:
  - quantities and amounts are reals;
  - `round(x, 2)` and `round(x, 3)` are omitted;
  - `float()` is modelled only for a sign, digits and one decimal point, without exponents, `inf` or `nan`.
- Case mapping (`upper()`, `lower()`) is ASCII only.
- Time is a parameter: `utcnow()`, `today()` and `now()` are inputs. Month labels produced by `strftime` are month indexes.
- Logging is not modelled. So are `unmatched_xlsx` and `fuzzy_matches` in `import_mkcp`, which are only logged.
- The read-only endpoints `list_overrides`, `get_override`, `list_rate_overrides` and `get_rate_override` are not modelled as separate members. What they return is the stored map or `OverrideFor`.
- These endpoints are not modelled: `health`, `manual_import`, `get_voucher`, `get_monthly_kpis`, `top_customers`, `top_items`, `export_csv`, the ledger, item and import-log listings, settings, `rescan`, `voucher-types`, `companies`, `trigger_mkcp_import`, `list_groups` and `export_order_excel`. They are queries with no rule beyond the ones modelled.
- Both openings are modelled as the source computes them. The order list takes an item's opening from a name-to-opening dictionary, so with several stock-item rows of one name the last one wins (`Opening`). `item_history` takes the first (`FirstNamed`).
- The aging buckets assume that every due or voucher date is a valid calendar date (`AllRefOk`). A date the database holds is always one.
- A compliance candidate id that names no voucher row gets no issue (`EntryOf`). The query never yields one.
- Sanitizer.SanitizeXml: issues the re-encoding warning under the corrected condition (the codec was neither "utf-8" nor "utf-8-sig"), not under the `!= "utf-8"` of sanitizer.py:299-301, which warns for every small file (first finding).
- Importer.Store.ImportFile: builds on the corrected re-encoding condition and on the corrected voucher merge (first and second findings). As written, a small file always draws the re-encoding warning, so its status is never success, and an IRN-matched update takes the incoming dedup key.
- Importer.Store.UpsertVoucher: updates with MergeVoucherKeepingKey, which keeps the stored dedup key. The update at importer.py:134-136 also copies the incoming `dedup_key` (second finding; MergeVoucher models that).
- Importer.Store.ImportDated: its voucher table is that of the corrected merge, not of the `dedup_key`-copying update at importer.py:134-136 (second finding).
- Importer.Store.ImportVouchers: its tables are those of the corrected merge, not of the `dedup_key`-copying update at importer.py:134-136 (second finding).
- Importer.Store.ImportParsed: its voucher tables follow the corrected merge, not the `dedup_key`-copying update at importer.py:134-136 (second finding).
- Digits are ASCII only. Python's `\d`, `strptime`, `int()` and `float()` also accept other Unicode decimal digits; the quantity and rate parsers, the date formats, the size suffix and the reference scanners here accept `0`-`9` only.
- Sanitizer.StripRefs: the single pass is modelled as written. A reference assembled from the remains of a removed one survives: Sanitizer.SinglePassLeavesJoinedReference shows that `&&#1;#1;` becomes `&#1;`. The model does not rerun the pass.

## Findings

| source | as written | input that shows it | evidently intended | confidence | as-written member | corrected member |
|---|---|---|---|---|---|---|
| backend/app/etl/sanitizer.py:299-301 | the re-encoding warning fires whenever the chosen codec is not "utf-8". "utf-8-sig" is tried first and accepts every UTF-8 input, so every small file gets the warning and no import is ever `success` | any bytes without a UTF-16 byte-order mark that decode as UTF-8, e.g. `<a/>` | no warning for UTF-8 input with or without a signature | not executed | Sanitizer.AsWrittenAlwaysWarns | Sanitizer.CorrectedWarning |
| backend/app/etl/importer.py:134-136 | an update copies every non-None field, including `dedup_key`, onto the matched row, so a row matched by IRN takes the incoming key and the next import inserts a duplicate | a stored voucher (IRN "Y", key "k") and the batch [no IRN with key "k", IRN "Y" with key "k2"]: one row after the first import, two after the second | re-importing the same batch adds no voucher | not executed | Importer.ReimportAsWrittenInserts | Importer.ReimportAddsNothing |
| backend/app/api/routes.py:260-274 | `_gst` filters by date and cancellation but not by `company_id`, so one company's KPIs include other companies' tax lines | company 1 sale of 100 with tax 18 and company 2 sale of 200 with tax 36: with `company_id=1`, `total_sales` is 100 but `gst_collected` is 54 | `gst_collected` and `gst_paid` only count the selected company's vouchers | not executed | Reports.KpisAsWrittenLeaksGst | Reports.KpisCompanyScoped |
| backend/app/etl/mkcp_importer.py:211-215 | a one-column `select(StockItem.name)` yields the names themselves, so `row[0]` is each name's first character: the factor map is built for one-letter names, and an empty name raises IndexError after the vendor groups were committed | stock item `BELL CROWN MINI` and conversion data {`BELL CROWN MINI`: 300}: the fetched name is `B`, the prefix rule resolves it, and an extra alternate unit `B` is stored | the factor map is built for the non-empty stock item names themselves | not executed | MkcpImporter.FetchAsWrittenStoresStrayName | MkcpImporter.StoredNamesKnown |
