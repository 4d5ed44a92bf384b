# TimezoneSelect option builder and value normaliser, in Dafny

This project models the logic inside the `TimezoneSelect` React component of
react-timezone-select-mui (`src/index.tsx`). The component does two things:

* **Option building.** The `getOptions` memo turns a catalog of
  `(zone identifier, catalog label)` pairs into a list of select options. It
  asks the date library for each zone's UTC offset, DST flag and
  abbreviation/long-name table, and collects one `Entry` per pair. It sorts the
  entries by offset. Then, for every entry whose offset is defined, it pushes an
  option `{value, label, abbrev, altName}`. The label is a
  `(GMT±H:MM) <catalog label>` prefix, followed by whatever decoration the
  `labelStyle` prop asks for.
* **Value normalisation.** `normalizeTz` takes the value the caller holds and
  reconciles it with the built options. That value is either an identifier
  string or an option record.

The date library (`spacetime`, `spacetime-informal`) is not modelled. What it
reports for a zone is an input: an oracle function from the identifier to
`ZoneFacts`. A zone's facts are its offset in whole minutes (`None` for
`undefined`), its DST flag, and the optional daylight and standard
`(abbrev, name)` pairs.

Modules, one per part of the component:

| file | module | what it holds |
|---|---|---|
| `wrappers.dfy` | `Wrappers` | `Option`, standing for JavaScript's `undefined` |
| `decimal.dfy` | `Decimal` | `${n}` for integers, with its inverse |
| `gmt.dfy` | `GmtOffset` | the `(GMT±H:MM)` tag and the label prefix |
| `entries.dfy` | `Entries` | the `reduce` that collects one `Entry` per catalog pair |
| `sort.dfy` | `OffsetSort` | the sort by offset |
| `labels.dfy` | `Labels` | the `labelStyle` switch |
| `options.dfy` | `Options` | the whole builder: the `BuildOptions` specification, the imperative `GetOptions` with its `reduce` and push loops proved equal to it, and its properties |
| `normalize.dfy` | `Normalize` | `normalizeTz` and `Array.prototype.find` |
| `catalog.dfy` | `DefaultCatalog` | the built-in `i18nTimezones` table and worked examples on zones drawn from it |

The model follows what the code does:

* The minute part of the GMT tag is not zero-padded. It is the absolute
  remainder as `${}` prints it, and `"00"` when the remainder is zero.
* `labelStyle` has three recognised values, `original`, `altName` and
  `abbrev`. Any other value falls to the `default` case and gives the bare
  prefix.
* The `altName` decoration depends on whether the name contains a `/`.
* Every label starts with the GMT prefix.
* `normalizeTz` matches an identifier exactly, by `===` on the option values.
* A record that has both a value and a label is returned as it is.
* A zone whose offset the library reports as `undefined` gets no option. The
  library calls are treated as total functions of the identifier (see
  "Left out").

## Model

| member | source | states |
|---|---|---|
| `Decimal.IntToString` | src/index.tsx:164 | `${n}` of an integer: non-empty, has a `-` exactly when n is negative (and then first), never holds a `:` |
| `Decimal.NatToString` | src/index.tsx:164 | the numeral of a natural number: only digits, no leading zero, one digit exactly below 10 |
| `Decimal.ParseNatToString` | src/index.tsx:164 | reading the digits back gives the number: the numeral is a faithful encoding |
| `Decimal.NatToStringInjective` | src/index.tsx:164 | two naturals have the same numeral exactly when they are equal |
| `Decimal.ParseIntToString` | src/index.tsx:164 | reading a signed numeral back gives the integer |
| `GmtOffset.WholeHours` | src/index.tsx:164 | `min / 60` truncated toward zero: the remainder left has the dividend's sign and is below 60 in magnitude |
| `GmtOffset.Remainder` | src/index.tsx:164 | JavaScript's `min % 60`: min = 60 × hours + r, \|r\| < 60, a non-zero r has the sign of min |
| `GmtOffset.ToInt32` | src/index.tsx:164 | `x ^ 0`: the result is a signed 32-bit integer congruent to x modulo 2^32, and x itself when x fits |
| `GmtOffset.Hour` | src/index.tsx:164 | `(min / 60) ^ 0`: a signed 32-bit integer congruent to the truncated whole hours modulo 2^32, and equal to them when they fit |
| `GmtOffset.MinuteText` | src/index.tsx:164 | `"00"` exactly for a whole hour; otherwise one or two digits with no leading zero that read back as \|min % 60\| |
| `GmtOffset.HourText` | src/index.tsx:163-164 | `hr` holds a `-` exactly when the wrapped hour is negative, and then as its first character |
| `GmtOffset.GmtTag` | src/index.tsx:165 | the tag starts with `(GMT`, ends with `)`, and its fifth character is `-` when the wrapped hour is negative and `+` otherwise |
| `GmtOffset.Prefix` | src/index.tsx:165 | the prefix is the tag, a space and the catalog label: it starts with `(GMT` and ends with a space and the catalog label |
| `GmtOffset.GmtTagSign` | src/index.tsx:163-165 | the tag is `(GMT` + `-` when the wrapped hour is negative and `+` otherwise + \|hour\| + `:` + minute text + `)` |
| `GmtOffset.GmtTagShape` | src/index.tsx:162-165 | within the 32-bit hour range, the tag shows `-` exactly for offsets of at most -60 minutes, then the whole hours truncated toward zero |
| `GmtOffset.UnderAnHourTag` | src/index.tsx:162-165 | a non-zero offset within an hour of zero shows `(GMT+0:` and its distance in minutes |
| `GmtOffset.NegativeUnderAnHourShowsPlus` | src/index.tsx:163-165 | an offset strictly between -60 and 0 shows `+0:` and the same tag as its negation |
| `GmtOffset.GmtTagOfMinus270` | src/index.tsx:162-165 | -270 minutes show as `(GMT-4:30)` |
| `GmtOffset.GmtTagOf330` | src/index.tsx:162-165 | 330 minutes show as `(GMT+5:30)` |
| `GmtOffset.GmtTagOfZero` | src/index.tsx:162-165 | 0 minutes show as `(GMT+0:00)` |
| `GmtOffset.GmtTagOf60` | src/index.tsx:162-165 | 60 minutes show as `(GMT+1:00)` |
| `GmtOffset.GmtTagOfMinus30` | src/index.tsx:162-165 | -30 minutes show as `(GMT+0:30)` |
| `GmtOffset.GmtTagParts` | src/index.tsx:165 | the sign character of the tag and the text between it and `)` |
| `GmtOffset.GmtTagInjective` | src/index.tsx:162-165 | outside (-60, 0), offsets in the hour range with the same tag are equal: the tag determines the offset |
| `Entries.ShownNames` | src/index.tsx:137-146 | the daylight names in DST and the standard names otherwise when the table has both variants; the identifier twice when it lacks either |
| `Entries.HasVariants` | src/index.tsx:139 | the truthiness test on the name table: true exactly when both the daylight and the standard variant are present |
| `Entries.MakeEntry` | src/index.tsx:134-153 | the entry keeps the pair's identifier and label and the library's offset, and carries the shown names |
| `Entries.CollectEntries` | src/index.tsx:132-155 | one entry per catalog pair, in catalog order, each the pair's identifier, label, offset and shown names |
| `Entries.DefinedIds` | src/index.tsx:132-160 | the identifiers listed are exactly the catalog's identifiers whose offset is defined |
| `Entries.DefinedIdsCount` | src/index.tsx:132-160 | with unique keys, each identifier with a defined offset is listed once and every other string never |
| `OffsetSort.Insert` | src/index.tsx:156-158 | inserting adds exactly the one entry: the result is a permutation of the input plus it |
| `OffsetSort.InsertSorted` | src/index.tsx:156-158 | inserting into a list sorted by offset keeps it sorted |
| `OffsetSort.OffsetLe` | src/index.tsx:156-158 | with both offsets defined, `a` may precede `b` exactly when the comparator `a.offset - b.offset` is not positive, so defined offsets ascend; an undefined offset comes after every defined one, which is this model's own choice (the source's comparator yields NaN there) |
| `OffsetSort.OffsetLeTotalPreorder` | src/index.tsx:156-158 | the order is total and transitive, as a consistent comparator must be |
| `OffsetSort.SortByOffset` | src/index.tsx:156-158 | the result is a permutation of the input whose defined offsets do not decrease (undefined ones last, the model's choice; see "Left out") |
| `Labels.StyleOf` | src/index.tsx:125 | an absent `labelStyle` selects `original`; each of the three names selects its style, anything else the default |
| `Labels.Label` | src/index.tsx:167-182 | the label starts with the prefix, and equals it exactly for `original` and unrecognised styles |
| `Labels.AltNameLabel` | src/index.tsx:171-175 | `altName` style: prefix + space + `(altName)` exactly when altName has no `/`, prefix + space exactly when it has one |
| `Labels.AbbrevLabel` | src/index.tsx:176-179 | `abbrev` style: prefix + separator + `(abbrev)` exactly when abbrev is shorter than 5, prefix + separator exactly when it is not |
| `Labels.PrefixSharedByAllStyles` | src/index.tsx:162-182 | every style's label starts with the same GMT tag, space and catalog label |
| `Labels.LabelStartsWithGmt` | src/index.tsx:165-182 | every label starts with `(GMT` |
| `Options.OptionOf` | src/index.tsx:161-188 | the option's value, abbrev and altName are the entry's; its label starts with the GMT prefix of the entry's offset and catalog label |
| `Options.Defined` | src/index.tsx:160 | the kept entries all have a defined offset and come from the input, and every input entry with a defined offset is kept (how often, and in what order: `DefinedCount`, `DefinedAppend`) |
| `Options.DefinedCount` | src/index.tsx:160 | each entry with a defined offset is kept as often as the input holds it, and an entry without one never |
| `Options.DefinedAppend` | src/index.tsx:159-160 | keeping the defined entries commutes with concatenation, so their order is kept |
| `Options.MapOptions` | src/index.tsx:159-189 | one option per entry with a defined offset, in order, built from that entry |
| `Options.MapOptionsStep` | src/index.tsx:159-189 | mapping one more entry pushes its option when its offset is defined and nothing otherwise |
| `Options.BuildOptions` | src/index.tsx:129-191 | the option values are, as a multiset, exactly the catalog identifiers whose offset is defined |
| `Options.ReduceEntries` | src/index.tsx:132-155 | the `reduce` loop returns exactly the collected entries, one per catalog pair in catalog order |
| `Options.PushOptions` | src/index.tsx:159-189 | the push loop, with the style switch inline, returns exactly the mapped options |
| `Options.GetOptions` | src/index.tsx:129-191 | the imperative builder (reduce loop, sort, push loop) returns exactly `BuildOptions` |
| `Options.DefinedSorted` | src/index.tsx:156-160 | dropping entries without an offset keeps a sorted list sorted |
| `Options.BuildOptionsSorted` | src/index.tsx:156-189 | when every catalog offset is defined, the options are built one by one from entries whose offsets do not decrease |
| `Options.ValuesOfMapOptions` | src/index.tsx:183-188 | the values of the mapped options are the names of the entries with a defined offset |
| `Options.DefinedNamesAppend` | src/index.tsx:159-160 | the defined names of a concatenation are the concatenation of the defined names |
| `Options.DefinedNamesPermutation` | src/index.tsx:156-160 | reordering the entries only reorders their defined names: the multisets agree |
| `Options.DefinedNamesOfCatalog` | src/index.tsx:132-160 | the defined names of the collected entries are the catalog's identifiers with a defined offset |
| `Options.OptionsOfAnyOrder` | src/index.tsx:132-189 | for any order the sort may leave the entries in, the option values are, as a multiset, the catalog identifiers whose offset is defined |
| `Options.ExactlyOneOptionPerDefinedId` | src/index.tsx:132-189 | with unique keys, an identifier with a defined offset is the value of exactly one option, any other string of none |
| `Options.OptionOrigin` | src/index.tsx:132-189 | each option comes from a catalog pair with a defined offset: value = identifier, label = the style's label over its GMT prefix, abbrev/altName = daylight names in DST, standard names otherwise, the identifier without both variants |
| `Options.EntryFromPair` | src/index.tsx:132-155 | each collected entry is the entry made from one of the catalog pairs |
| `Options.OptionFromEntry` | src/index.tsx:159-189 | each mapped option is the option of one of the entries, whose offset is defined |
| `Options.OptionOfEntry` | src/index.tsx:132-188 | the option of the entry made from a pair with a defined offset is built from that pair |
| `Options.OptionLabelsNonEmpty` | src/index.tsx:161-188 | no built option has an empty label |
| `Normalize.Find` | src/index.tsx:200 | `find`: None exactly when no option has the value, otherwise the first option that has it |
| `Normalize.LabelLess` | src/index.tsx:201 | the test `value.value && !value.label` under JavaScript string truthiness: a record whose value is non-empty and whose label is empty |
| `Normalize.NormalizeTz` | src/index.tsx:197-207 | a string or a label-less record with a value resolves to the first option with that value, or None when there is none; any other record is returned unchanged |
| `Normalize.NormalizeIdempotent` | src/index.tsx:199-205 | when every option has a label, normalising a normalised result gives it back |
| `Normalize.NormalizeBuiltIdempotent` | src/index.tsx:129-207 | normalising twice against built options is the same as normalising once |
| `Normalize.IdentifierResolves` | src/index.tsx:132-200 | with unique keys, an identifier resolves exactly when the catalog lists it and its offset is defined |
| `DefaultCatalog.BuiltInCatalogSize` | src/index.tsx:11-86 | the built-in table `I18nTimezones` holds the source's 74 (identifier, label) pairs in the source's order, the last being Nuku'alofa |
| `DefaultCatalog.SampleZonesAreBuiltIn` | src/index.tsx:59-71 | Kathmandu and Seoul, as used in the examples, are entries of the built-in table |
| `DefaultCatalog.SampleEntries` | src/index.tsx:132-155 | a standard-time zone takes its standard names; a zone lacking the daylight variant takes its identifier twice; an unknown zone keeps an undefined offset |
| `DefaultCatalog.SampleSorted` | src/index.tsx:156-158 | with both offsets defined, Kathmandu (+345), listed after Seoul (+540), is sorted before it |
| `DefaultCatalog.SampleTags` | src/index.tsx:162-165 | 345 minutes show as `(GMT+5:45)`, 540 as `(GMT+9:00)` |
| `DefaultCatalog.SampleLabels` | src/index.tsx:176-178 | `abbrev` style: `(KST)` is shown, the 14-character stand-in abbreviation is not |
| `DefaultCatalog.SampleMapped` | src/index.tsx:159-189 | the map step skips the entry without an offset and keeps the other two in their order |
| `DefaultCatalog.SampleMappedSorted` | src/index.tsx:159-189 | mapping Kathmandu's then Seoul's entry gives their options in that order |
| `DefaultCatalog.SampleOptions` | src/index.tsx:129-191 | the whole builder on the catalog Seoul, Kathmandu (both offsets defined) gives the Kathmandu option, then the Seoul option |
| `DefaultCatalog.SampleUnknownSkipped` | src/index.tsx:132-189 | on the catalog Seoul, unknown zone, Kathmandu, whatever the sort's order, the option values are the two known identifiers |
| `DefaultCatalog.SampleNormalized` | src/index.tsx:197-207 | an exact identifier resolves; a label or an unlisted zone resolves to None; a label-less record is reconciled; a labelled record is passed through |

## Left out

- React rendering, `useMemo` memoisation, the `react-select` widget, and the `handleChange`/`onBlur` pass-throughs (src/index.tsx:193-195, 209-217). They are UI plumbing with no logic.
- The date library calls `spacetime.now().goto`, `timezone()`, `isDST()` and `display` (src/index.tsx:134-136). They read the wall clock and a foreign table. Their results are the `Oracle` parameter.
- The library's offset in floating-point hours, and `min = offset * 60` (src/index.tsx:150, 162). The offset is modelled as whole minutes, which is what `min` is for every catalog zone.
- The exact whitespace of the `abbrev` label. `AbbrevSeparator` is the space, line break and indentation of the template literal, and the lemmas treat it as an opaque non-empty separator.
- DefaultCatalog.BuiltInCatalogSize: states the size of the built-in table and its last pair, not that its 74 identifiers are distinct. The keys of an object literal are unique, and the lemmas that assume distinct keys (`ExactlyOneOptionPerDefinedId`, `IdentifierResolves`) rely on that; that the built-in table meets `DistinctKeys` is not proved here, because comparing its 74 literal keys pairwise is beyond the solver's budget.
- OffsetSort.SortByOffset: its order is the source's only when every offset is defined. One `undefined` offset makes the comparator return NaN, which the engine reads as +0. That entry then compares equal to every other, the comparator is inconsistent, and the engine's order of all the entries is implementation-defined. Placing undefined entries last and sorting the rest is this model's own choice. Stability among equal offsets is not claimed either. What the options are, as opposed to their order, is proved for every order (`Options.OptionsOfAnyOrder`).
- Options.BuildOptionsSorted: requires every catalog zone's offset to be defined. With an undefined offset no order of the options is promised, because the engine's order is then implementation-defined.
- The library is treated as total: `spacetime.now().goto`, `timezone()`, `isDST()` and `display` are taken to return facts for every identifier. Nothing in `src/index.tsx` shows what they do for an identifier they do not know. The `reduce` (src/index.tsx:132-155) has no `catch`, so a throwing call would leave `getOptions`; that path is not modelled.
- Labels.Label: `length` is counted in Unicode characters, not UTF-16 code units. The two differ only for abbreviations outside the Basic Multilingual Plane.
- The `i18nTimezones` table is kept as data. Its 74 keys are not proved distinct; the "exactly one" lemmas take distinct keys as a precondition, which every JavaScript object satisfies.
- The `timezones = i18nTimezones` prop default (src/index.tsx:126) is not a separate member. A caller passes `DefaultCatalog.I18nTimezones` as the catalog.
- `src/types/timezone.ts` and `example/src/Timezone.tsx` are not part of this model. The first only declares types; the second is a demo page.
