# directus-super-table, modelled in Dafny

This project models the logic of the Super Table layout for Directus. The layout shows a
collection as an editable table. Its core consists of:

- the registry of supported field types and interfaces, and the classifier that decides
  whether a cell can be edited inline, why not, and at which support level;
- the expansion of column keys into the paths to fetch, and the per-column alias records;
- the detection of which translation languages a column already shows;
- sorting and pagination stored in the layout query;
- filter presets ("quick filters"), manual filters, their chips and labels;
- the buffer of pending cell edits and its auto-save, including translation rows;
- the column list, including custom column names, the rename dialog and the language
  selection dialog.

Each source file is one module. Pure helpers (the support tables, the classifier, key
expansion, label formatting) are functions with lemmas. A composable that keeps component
state (filter presets, table edits, table fields) is a class. Its fields are the refs, its
methods change them, and each method states its whole new state in terms of
specification functions. The layout options object the component receives is a field. An
`update:layoutOptions` event is an assignment to that field.

Helper modules:

- `Strings`: split, join, ASCII case mapping and decimal rendering.
- `Json`: filter objects and translation rows, kept as ordered lists of members.
- `OrderedMaps`: JavaScript records whose key order matters.
- `TableTypes`: the layout's records.

External collaborators appear as parameters:

- the Directus fields and relations stores;
- `get` from the utilities library, and `formatTitle`;
- the clock (the preset id);
- the outcome of the HTTP calls.

## Model

| member | source | states |
|---|---|---|
| SupportedFields.Lookup | src/constants/supportedFields.ts:43-113 | a name the registry does not list reads as unsupported, and a listed one as its support level |
| SupportedFields.PartialTypes | src/constants/supportedFields.ts:6-41 | exactly `json` and `uuid` are partially supported types |
| SupportedFields.PartialInterfaces | src/constants/supportedFields.ts:43-113 | exactly `tags` is a partially supported interface |
| SupportedFields.FileAndImageInterfaces | src/constants/supportedFields.ts:43-113 | `file` and `files` are unsupported, while `file-image` and `image` are fully supported |
| SupportedFields.UnsupportedTypes | src/constants/supportedFields.ts:6-41 | hash, alias, unknown and every geometry type are unsupported |
| SupportedFields.SensitivePatternsAreLower | src/constants/supportedFields.ts:123 | every sensitive pattern is lower case, so it can match a lower-cased key |
| SupportedFields.CamelCaseTypeKeysAreTheMixedCaseOnes | src/constants/supportedFields.ts:6-41 | among the listed types, exactly `bigInteger` and `dateTime` are not lower case |
| SupportedFields.CamelCaseKeysUnreachable | src/utils/fieldSupport.ts:55-59 | no lower-cased type string equals a mixed-case registry key |
| FieldSupport.AnyContains | src/utils/fieldSupport.ts:32-38 | true exactly when some pattern occurs in the string |
| FieldSupport.NullFieldVerdicts | src/utils/fieldSupport.ts:16 | missing metadata means not editable, support level `none`, and the fixed explanation |
| FieldSupport.ReadonlyLevelIff | src/utils/fieldSupport.ts:169-220 | the level is `readonly` exactly when a metadata flag, a listed system key or a sensitive key fires, and then the field is not editable |
| FieldSupport.SensitiveKeyWarning | src/utils/fieldSupport.ts:32-38 | a sensitive key, with no earlier rule firing, gets the security message, level `readonly`, and is not editable |
| FieldSupport.ImageInterfaceWins | src/utils/fieldSupport.ts:45-47 | an image interface makes the field editable at full support with no warning, whatever its type |
| FieldSupport.FileInterfaceLoses | src/utils/fieldSupport.ts:50-52 | a file interface blocks editing, with level `none` and the file message |
| FieldSupport.UnsupportedTypeOrInterface | src/utils/fieldSupport.ts:55-69 | a missing, unlisted or unsupported type, or an unlisted or unsupported interface, blocks editing with level `none` |
| FieldSupport.TypeReportedBeforeInterface | src/utils/fieldSupport.ts:79-162 | an unsupported type is reported by its own message, even when the interface is unsupported too |
| FieldSupport.BothFullySupported | src/utils/fieldSupport.ts:73 | full type support and full interface support give an editable field at full support |
| FieldSupport.PartialIsNotEditable | src/utils/fieldSupport.ts:66-73 | a partial type or interface, with neither unsupported, means not editable at level `partial` |
| FieldSupport.EditableIff | src/utils/fieldSupport.ts:15-74 | editable exactly when the level is `full`, or when the field has no interface and a fully supported type; that second case is editable yet has level `none` |
| FieldSupport.ReadonlyWarningNonEmpty | src/utils/fieldSupport.ts:82-112 | a field caught by a read-only rule always gets a warning |
| FieldSupport.RegistryWarningNonEmpty | src/utils/fieldSupport.ts:127-162 | once no read-only, image or file rule applies, every branch down to the fallback for unknown reasons gives a non-empty warning |
| FieldSupport.EmptyWarningIff | src/utils/fieldSupport.ts:79-162 | the warning is empty exactly when no read-only rule fires and the interface is an image |
| FieldSupport.IsFieldEditable | src/utils/fieldSupport.ts:15-74 | whether a cell can be edited inline; stated by EditableIff, NullFieldVerdicts, ImageInterfaceWins, FileInterfaceLoses and UnsupportedTypeOrInterface |
| FieldSupport.FieldEditWarning | src/utils/fieldSupport.ts:79-162 | why a cell cannot be edited; stated by EmptyWarningIff, ReadonlyWarningNonEmpty, RegistryWarningNonEmpty and TypeReportedBeforeInterface |
| FieldSupport.FieldSupportLevel | src/utils/fieldSupport.ts:169-220 | the support level of a cell; stated by ReadonlyLevelIff, EditableIff and PartialIsNotEditable |
| FieldSupport.MultipleFilesMessageUnreachable | src/utils/fieldSupport.ts:154-155 | a `files` interface always gets the file message, and a partial interface always gets the tags message, so the multiple-files branch cannot be reached |
| FieldSupport.SensitiveBecause | src/utils/fieldSupport.ts:32-38 | a key whose lower-cased form contains a pattern is sensitive |
| FieldSupport.UuidImageIsFull | tests/unit/utils/fieldSupport.test.ts:44-47 | a `uuid` field with an image interface is editable at full support |
| FieldSupport.UuidFileIsNone | src/utils/fieldSupport.ts:50-52 | a `uuid` field with a file interface has no support |
| FieldSupport.PasswordIsReadonly | tests/unit/utils/fieldSupport.test.ts:138-149 | `password` is not editable and gets the security message |
| FieldSupport.ApiKeyIsReadonly | tests/unit/utils/fieldSupport.test.ts:138-149 | `api_key` is read-only |
| FieldSupport.SecretTokenIsReadonly | tests/unit/utils/fieldSupport.test.ts:138-149 | `secret_token` is not editable |
| FieldSupport.GeometryAndUnknownAreNone | tests/unit/utils/fieldSupport.test.ts:163-185 | geometry and unknown types have no support |
| FieldSupport.BigIntegerReportedUnsupported | src/utils/fieldSupport.ts:55-59 | although the registry lists `bigInteger` as fully supported, such a field is reported unsupported because its type is lower-cased before the lookup |
| FieldSupport.DateTimeStillSupported | src/utils/fieldSupport.ts:55-59 | `dateTime` stays supported because its lower-cased form `datetime` is listed too |
| AdjustFields.Add | src/utils/adjustFieldsForDisplays.ts:20-44 | adding to an insertion-ordered set yields the old members plus the new one and keeps it free of repeats |
| AdjustFields.Adjusted | src/utils/adjustFieldsForDisplays.ts:20-46 | the fetched field list never holds a key twice |
| AdjustFields.AdjustedMembers | src/utils/adjustFieldsForDisplays.ts:20-46 | the list holds exactly the keys, the roots of dotted keys, and `translations` when the store flags the root of some dotted key |
| AdjustFields.AdjustFieldsForDisplays | src/utils/adjustFieldsForDisplays.ts:4-47 | the loop computes `Adjusted` |
| AdjustFields.KeysAndRootsKept | src/utils/adjustFieldsForDisplays.ts:20-44 | every key, and the root of every dotted key, is fetched |
| AdjustFields.TranslationsIff | src/utils/adjustFieldsForDisplays.ts:11-44 | `translations` is fetched exactly when it is a key, a root, or flagged by the store for a dotted key's root |
| AdjustFields.WithoutStoreOnlyKeysAndRoots | src/utils/adjustFieldsForDisplays.ts:11-18 | without a usable store, or when every lookup throws, only keys and roots are fetched |
| AdjustFields.FlatKeysUnchanged | src/utils/adjustFieldsForDisplays.ts:20-46 | distinct keys without dots come back unchanged and in order |
| AdjustFields.FlatKeyAppended | src/utils/adjustFieldsForDisplays.ts:20-44 | a new key without a dot is added at the end and nothing else is added |
| AliasFields.RootName | src/composables/useAliasFields.ts:52-60 | the root has no dot, is a prefix of the key, and is the whole key when that has no dot |
| AliasFields.KeysWithRoot | src/composables/useAliasFields.ts:52-60 | holds exactly the keys whose root is the given one |
| AliasFields.Roots | src/composables/useAliasFields.ts:52-60 | holds exactly the roots of the keys |
| AliasFields.FieldsByRoot | src/composables/useAliasFields.ts:52-60 | one group per root, in order of first appearance, each holding exactly that root's keys |
| AliasFields.NeedsAliasingIff | src/composables/useAliasFields.ts:63-71 | every root has a flag, and it is set exactly when two different keys share the root and one of them has a dot |
| AliasFields.NeedsAliasing | src/composables/useAliasFields.ts:63-71 | the flag per root; stated by NeedsAliasingIff |
| AliasFields.AliasedFields | src/composables/useAliasFields.ts:48-93 | no entry for an empty key list or a missing collection; otherwise one entry per distinct key in first-appearance order, each the unaliased entry both branches build |
| AliasFields.RecordField | src/composables/useAliasFields.ts:73-93 | one loop pass stores the same unaliased entry whichever branch runs |
| AliasFields.RecordedPrefix | src/composables/useAliasFields.ts:73-93 | after one more pass the entries are keyed by the distinct keys seen so far, in order, each holding its unaliased entry |
| AliasFields.Values | src/composables/useAliasFields.ts:98-109 | the entries in key order |
| AliasFields.AliasedKeys | src/composables/useAliasFields.ts:98-109 | holds exactly the aliases of aliased entries, and is empty when none is aliased |
| AliasFields.AliasQuery | src/composables/useAliasFields.ts:111-124 | maps exactly the aliases of aliased entries, and is empty when none is aliased |
| AliasFields.NoAliases | src/composables/useAliasFields.ts:73-124 | for the entries the layout builds, there are no aliased keys and the alias query is empty |
| AliasFields.KeepPlainSegments | src/composables/useAliasFields.ts:141-146 | keeps exactly the segments not starting with `$`, in order, and is the identity when there are none |
| AliasFields.StripDollarSegmentsFacts | src/composables/useAliasFields.ts:141-146 | keys without a dot, or without `$` segments, are unchanged; otherwise the result's segments are exactly the kept ones |
| AliasFields.StripDollarSegments | src/composables/useAliasFields.ts:141-146 | the key with its `$` segments skipped; stated by StripDollarSegmentsFacts and DollarSuffixSkipped |
| AliasFields.FindByKey | src/composables/useAliasFields.ts:132-156 | a found entry has the key, and nothing found means no entry has it |
| AliasFields.GetIsPlainLookup | src/composables/useAliasFields.ts:132-156 | for the entries the layout builds, reading a value is a plain lookup of the stripped key |
| AliasFields.GetFromAliasedItem | src/composables/useAliasFields.ts:132-156 | reads a column's value through its alias; stated by GetIsPlainLookup and DollarSuffixSkipped |
| AliasFields.DollarSuffixSkipped | src/composables/useAliasFields.ts:141-146 | `root.$segment` reads `root` |
| LanguageDetection.DetectExisting | src/composables/useExistingLanguageDetection.ts:17-24 | the codes are non-empty, have no `:`, and are exactly the codes that some column `base:code` carries; their order is stated by DetectExistingKeepsOrder |
| LanguageDetection.DetectExistingKeepsOrder | src/composables/useExistingLanguageDetection.ts:17-24 | detection distributes over the column list, and one column gives its code exactly when it is `base:code` with a non-empty code; so the codes come in column order, one per matching column |
| LanguageDetection.LanguagesWithout | src/composables/useExistingLanguageDetection.ts:31-35 | keeps exactly the languages whose code is not listed; the order is stated by LanguagesWithoutKeepsOrder |
| LanguageDetection.LanguagesWithoutKeepsOrder | src/composables/useExistingLanguageDetection.ts:31-35 | the filter distributes over concatenation, and keeps a single language exactly when its code is not listed, so the configured order is kept |
| LanguageDetection.LanguagesWith | src/composables/useExistingLanguageDetection.ts:42-46 | keeps exactly the languages whose code is listed; the order is stated by LanguagesWithKeepsOrder |
| LanguageDetection.LanguagesWithKeepsOrder | src/composables/useExistingLanguageDetection.ts:42-46 | the filter distributes over concatenation, and keeps a single language exactly when its code is listed, so the configured order is kept |
| LanguageDetection.LanguagesPartition | src/composables/useExistingLanguageDetection.ts:31-46 | the two filters split the configured languages between them, counting repeats, and the two results interleave to the configured list, so each keeps its order |
| LanguageDetection.ExistingAndAvailablePartition | src/composables/useExistingLanguageDetection.ts:31-46 | each language is either existing or available for a base key, never both, nothing is lost, and the two lists interleave to the configured list in its order |
| LanguageDetection.AvailableLanguages | src/composables/useExistingLanguageDetection.ts:31-35 | the languages with no column for the base key; stated by ExistingAndAvailablePartition, LanguagesWithoutKeepsOrder and OneLanguageLeft |
| LanguageDetection.ExistingLanguages | src/composables/useExistingLanguageDetection.ts:42-46 | the languages with a column for the base key; stated by ExistingAndAvailablePartition, LanguagesWithKeepsOrder and OneLanguageLeft |
| LanguageDetection.IsTranslationField | src/composables/useExistingLanguageDetection.ts:53-55 | a key under `translations.`; stated by TranslationFieldBase |
| LanguageDetection.TranslationFieldBase | src/composables/useExistingLanguageDetection.ts:53-67 | a key is a translation column exactly when its base key is |
| LanguageDetection.BaseFieldKey | src/composables/useExistingLanguageDetection.ts:62-67 | the base key has no `:`, is a prefix of the key, and is the whole key when that has no `:` |
| LanguageDetection.CanAddMoreLanguages | src/composables/useExistingLanguageDetection.ts:74-76 | true exactly when some configured language has no column for the base key |
| LanguageDetection.SuffixedKeyRoundTrip | src/composables/useExistingLanguageDetection.ts:17-24 | `base:rest` is read back as the base key and the code before any further `:` |
| LanguageDetection.DetectSuffixedColumn | tests/unit/composables/useExistingLanguageDetection.test.ts:37-65 | a column added for a code is detected as exactly that code, and `base:` contributes nothing |
| LanguageDetection.BaseFieldKeyIdempotent | tests/unit/composables/useExistingLanguageDetection.test.ts:162-172 | taking the base key twice changes nothing |
| LanguageDetection.TranslationBaseKeys | src/composables/useExistingLanguageDetection.ts:81-91 | holds exactly the base keys of the translation columns |
| LanguageDetection.TranslationFieldsStatusFacts | src/composables/useExistingLanguageDetection.ts:81-91 | one status per distinct translation base key and nothing else, in the order of each key's first column; `canAddMore` holds exactly when a language is still available; existing plus available is the configured list |
| LanguageDetection.TranslationFieldsStatus | src/composables/useExistingLanguageDetection.ts:81-91 | one entry per distinct translation base key; stated by TranslationFieldsStatusFacts |
| LanguageDetection.FirstColumn | src/composables/useExistingLanguageDetection.ts:81-91 | the position of the first column of a translation base key: such a column, with none before it |
| LanguageDetection.FirstColumnOrder | src/composables/useExistingLanguageDetection.ts:81-91 | a base key listed earlier among the translation keys has an earlier first column |
| LanguageDetection.StatusKeysInColumnOrder | src/composables/useExistingLanguageDetection.ts:81-91 | the distinct translation base keys are translation bases, in the order of their first columns |
| Strings.DedupKeepsFirstOrder | src/composables/useExistingLanguageDetection.ts:83 | removing repeats keeps the kept keys in the order of their first appearance |
| LanguageDetection.OneLanguageLeft | tests/unit/composables/useExistingLanguageDetection.test.ts:126-158 | with two languages configured and a column for one, only the other is available, and more can be added |
| TableSort.DashedBeforeFirst | src/composables/useTableSort.ts:29-48 | cutting `-field:rest` after the marker keeps the marker in front of the cut field |
| TableSort.CleanSortEntry | src/composables/useTableSort.ts:29-48 | an entry is cut before its first `:`, and a descending marker survives the cut |
| TableSort.CleanSort | src/composables/useTableSort.ts:13-48 | every entry is cleaned, and the length is kept |
| TableSort.Sort | src/composables/useTableSort.ts:13-28 | the getter returns one entry per stored entry, none when no sort is stored, and no entry keeps a `:` suffix |
| TableSort.CleanSortIdempotent | src/composables/useTableSort.ts:13-48 | cleaning twice is cleaning once |
| TableSort.SetSort | src/composables/useTableSort.ts:29-48 | the setter stores the cleaned sort and keeps every other query key |
| TableSort.SortAfterSet | src/composables/useTableSort.ts:13-48 | the getter returns what the setter stored |
| TableSort.TableSortOf | src/composables/useTableSort.ts:52-67 | no sort for an empty list or an empty first entry; otherwise descending exactly when the entry starts with `-`, and the entry is the marker followed by the column |
| TableSort.SortForChange | src/composables/useTableSort.ts:69-93 | clearing gives an empty sort; otherwise one entry, the marker followed by the column cut at `:` |
| TableSort.OnSortChange | src/composables/useTableSort.ts:69-93 | the handler stores that sort and keeps the other query keys |
| TableSort.SortChangeRoundTrip | src/composables/useTableSort.ts:52-93 | after choosing a column and direction, the table reports that column and direction |
| TablePagination.Page | src/composables/useTablePagination.ts:5-15 | the stored page, or 1 when it is missing or zero |
| TablePagination.Limit | src/composables/useTablePagination.ts:17-28 | the stored limit, or 100 when it is missing or zero |
| TablePagination.SetPage | src/composables/useTablePagination.ts:5-15 | stores the page and keeps the other query keys |
| TablePagination.SetLimit | src/composables/useTablePagination.ts:17-28 | stores the limit, resets the page to 1, and keeps the other query keys |
| TablePagination.LimitChangeResetsPage | src/composables/useTablePagination.ts:17-28 | after a limit change the limit reads back, the page is 1, and sort, fields and other keys are untouched |
| TablePagination.PageSizeOptionsFacts | src/composables/useTablePagination.ts:31-38 | the options run from 10 to 500 in increasing order, each labelled by its decimal value, and include the default limit |
| FilterPresets.AllPresets | src/composables/useFilterPresets.ts:43-50 | the stored presets, or `[]` when the options hold none |
| FilterPresets.ActivePresetIds | src/composables/useFilterPresets.ts:53-63 | at most one id; there is one exactly when the stored active id is set and non-empty, and it is that id |
| FilterPresets.PresetsWithIds | src/composables/useFilterPresets.ts:138-158 | keeps exactly the presets whose id is active |
| FilterPresets.Filters | src/composables/useFilterPresets.ts:138-158 | the filters of the presets, in order |
| FilterPresets.QuickFilterCases | src/composables/useFilterPresets.ts:138-158 | no active preset gives an empty quick filter; otherwise it is the active presets' filters, with one used directly and several joined by `_and` |
| FilterPresets.NoneWithIds | src/composables/useFilterPresets.ts:144-146 | no preset is picked when none has a listed id |
| FilterPresets.QuickFilterFor | src/composables/useFilterPresets.ts:138-158 | the quick filter the active presets give; stated by QuickFilterCases |
| FilterPresets.MergedFilters | src/composables/useFilterPresets.ts:101-123 | nothing when both filters are empty, one filter when the other is empty, and otherwise both under `_and` or `_or` as the logic says |
| FilterPresets.FindPreset | src/composables/useFilterPresets.ts:65-78 | a found preset has the id and no earlier preset has it, and nothing found means no preset has it |
| FilterPresets.QuickFilterChips | src/composables/useFilterPresets.ts:65-78 | at most one chip; there is one exactly when a preset matches the active id, and it is that preset's chip |
| FilterPresets.ConditionChips | src/composables/useFilterPresets.ts:80-99 | one chip per operator of a field, in order, with id `field-operator` |
| FilterPresets.ManualFilterChips | src/composables/useFilterPresets.ts:80-99 | the nested loops compute the chips of every field and operator, in order |
| FilterPresets.ConditionChipsSnoc | src/composables/useFilterPresets.ts:85-96 | one more operator entry adds its chip after the earlier ones |
| FilterPresets.AppendFieldChips | src/composables/useFilterPresets.ts:85-96 | the inner loop appends exactly one field's chips |
| FilterPresets.ManualChipsShape | src/composables/useFilterPresets.ts:80-99 | every manual chip comes from the manual source, carries a field and an operator, and has id `field-operator` |
| FilterPresets.ManualChips | src/composables/useFilterPresets.ts:80-99 | the chips of a manual filter; stated by ManualChipsShape and ManualFilterChips |
| FilterPresets.SingleConditionChip | src/composables/useFilterPresets.ts:80-99 | one condition gives exactly one chip |
| FilterPresets.ChipIdRoundTrip | src/composables/useFilterPresets.ts:238-251 | a chip id splits back into its field and operator when neither contains `-` |
| FilterPresets.ChipField | src/composables/useFilterPresets.ts:239 | the part of the chip id before its first `-`, which holds no `-`; the whole id when it has none |
| FilterPresets.ChipOperator | src/composables/useFilterPresets.ts:239 | the second `-`-separated piece of the chip id, which holds no `-`; `""` when the id has no `-` |
| FilterPresets.HyphenatedFieldMisread | src/composables/useFilterPresets.ts:238-251 | the chip for field `first-name` and `_eq` is read back as field `first` and operator `name` |
| FilterPresets.HyphenatedConditionKept | src/composables/useFilterPresets.ts:238-251 | removing that chip by its id leaves the manual filter unchanged |
| FilterPresets.WithoutCondition | src/composables/useFilterPresets.ts:238-251 | removal keeps the kind of the filter, and a non-object filter is unchanged |
| FilterPresets.WithoutConditionFacts | src/composables/useFilterPresets.ts:238-251 | keys stay distinct and other fields are unchanged; the field loses the operator and is dropped when empty; nothing changes when the condition is absent |
| FilterPresets.Capitalize | src/composables/useFilterPresets.ts:346-349 | the first letter is upper-cased and the rest is kept |
| FilterPresets.CapitalizeAll | src/composables/useFilterPresets.ts:346-349 | every word is capitalized |
| FilterPresets.ByCharOneWord | src/composables/useFilterPresets.ts:346-349 | a word without `_` is title-cased by capitalizing it |
| FilterPresets.ByCharSplit | src/composables/useFilterPresets.ts:346-349 | title-casing `head_rest` is the capitalized head, a space, and the title-cased rest |
| FilterPresets.TitleCaseCons | src/composables/useFilterPresets.ts:346-349 | for `head_rest` with no `_` in `head`, the title case is the capitalised head, a space and the title case of `rest` |
| FilterPresets.TitleCaseIsByChar | src/composables/useFilterPresets.ts:346-349 | splitting at `_`, capitalizing and joining with spaces equals the one-pass definition |
| FilterPresets.TitleCase | src/composables/useFilterPresets.ts:346-349 | the field as the label shows it; stated by TitleCaseIsByChar |
| FilterPresets.OperatorLabel | src/composables/useFilterPresets.ts:310-331 | only operators starting with `_` have a wording, and every wording is non-empty |
| FilterPresets.FormatValue | src/composables/useFilterPresets.ts:333-343 | `$NOW` and any value starting with it read `now` followed by the rest, `$CURRENT_USER` reads `current user`, other strings are shown as they are, and `true` reads `yes` and `false` reads `no` |
| FilterPresets.FormatValueRendersOthers | src/composables/useFilterPresets.ts:334-343 | a value that is neither a string nor a boolean is shown as a template literal renders it |
| FilterPresets.FormatFilterLabel | src/composables/useFilterPresets.ts:309-356 | the label is the title-cased field and the operator's wording (or the operator itself); it is followed by the formatted value unless the operator takes no value |
| FilterPresets.DateCreatedTitle | src/composables/useFilterPresets.ts:346-349 | `date_created` is shown as `Date Created` |
| FilterPresets.LabelExample | src/composables/useFilterPresets.ts:309-356 | `date_created _eq $NOW` is labelled `Date Created equals now` |
| FilterPresets.FindIndex | src/composables/useFilterPresets.ts:259-299 | the first index whose preset has the id, or nothing when none has it |
| FilterPresets.Moved | src/composables/useFilterPresets.ts:259-281 | a move keeps the number of presets |
| FilterPresets.MovedFacts | src/composables/useFilterPresets.ts:259-281 | no move for an unknown id or an out-of-range target; otherwise the preset and the one at its index plus the direction swap places, each stamped with its new position, and nothing else changes |
| FilterPresets.Ids | src/composables/useFilterPresets.ts:259-281 | the preset ids in order |
| FilterPresets.MoveAndBack | src/composables/useFilterPresets.ts:259-281 | with distinct ids, moving a preset one way and then back restores the order |
| FilterPresets.WithoutId | src/composables/useFilterPresets.ts:200-217 | keeps exactly the presets with another id |
| FilterPresets.WithoutIdKeepsOrder | src/composables/useFilterPresets.ts:200-217 | deleting keeps the other presets in their order, and a list without the id is unchanged |
| FilterPresets.FilterState.constructor | src/composables/useFilterPresets.ts:38-40 | empty quick and manual filters, with `and` logic |
| FilterPresets.FilterState.RebuildQuickFilters | src/composables/useFilterPresets.ts:138-158 | the quick filter is rebuilt from the active presets and nothing else changes |
| FilterPresets.FilterState.LoadPresets | src/composables/useFilterPresets.ts:160-164 | only re-synchronises the quick filter |
| FilterPresets.FilterState.UpdateLayoutOptions | src/composables/useFilterPresets.ts:126-136 | stores the new layout options, and the watch re-synchronises the quick filter |
| FilterPresets.FilterState.SetActivePresetIds | src/composables/useFilterPresets.ts:53-63 | stores the first id, or none, as the active preset |
| FilterPresets.FilterState.SavePreset | src/composables/useFilterPresets.ts:166-198 | appends the preset under id `filter-<time>` and makes it active when it is pinned; a pinned preset is then stored and is the active one. Each layout update is applied before the next is built |
| FilterPresets.FilterState.DeletePreset | src/composables/useFilterPresets.ts:200-217 | removes every preset with the id, and deactivates it and clears the quick filter when it was active; afterwards no preset has the id and it is not active. Each layout update is applied before the next is built |
| FilterPresets.DeferredDelete | src/composables/useFilterPresets.ts:200-217 | the options kept when both emits spread the options from before the call: the active preset is only deactivated, any other is removed |
| FilterPresets.DeferredDeleteKeepsActivePreset | src/composables/useFilterPresets.ts:200-217 | with deferred options, deleting the active preset leaves the preset list unchanged and no preset active |
| FilterPresets.DeferredSave | src/composables/useFilterPresets.ts:166-182 | the options kept when both emits spread the options from before the call: a pinned preset's id is made active without the preset, an unpinned one is appended |
| FilterPresets.DeferredPinnedSaveLosesPreset | src/composables/useFilterPresets.ts:166-182 | with deferred options, saving a pinned preset under a new id leaves the preset list unchanged and the active id naming no preset, so no quick filter applies |
| FilterPresets.FilterState.TogglePreset | src/composables/useFilterPresets.ts:219-231 | deactivates an active preset and otherwise makes it the only active one |
| FilterPresets.FilterState.RemoveQuickFilter | src/composables/useFilterPresets.ts:233-236 | drops the chip's id from the active ids |
| FilterPresets.FilterState.RemoveManualFilter | src/composables/useFilterPresets.ts:238-251 | removes the condition named by splitting the chip id at `-`, as written |
| FilterPresets.FilterState.RemoveManualCondition | src/composables/useFilterPresets.ts:238-251 | removes the condition named by the chip's own field and operator |
| FilterPresets.FilterState.ClearAllFilters | src/composables/useFilterPresets.ts:253-257 | clears both filters and the active preset |
| FilterPresets.FilterState.MovePreset | src/composables/useFilterPresets.ts:259-281 | stores the moved list, or leaves everything unchanged when no move is possible |
| FilterPresets.FilterState.UpdatePreset | src/composables/useFilterPresets.ts:283-299 | applies the update to the first preset with the id, or changes nothing when there is none |
| FilterPresets.ApplyUpdate | src/composables/useFilterPresets.ts:290-293 | `{...preset, ...updates}`: each key the update sets replaces the preset's; stated by ApplyUpdateFacts and UpdatePreset |
| FilterPresets.ApplyUpdateFacts | src/composables/useFilterPresets.ts:290-293 | applying the same update twice is applying it once, and an update setting no key changes nothing |
| FilterPresets.FilterState.UpdateManualFilters | src/composables/useFilterPresets.ts:301-307 | stores the filter, or an empty one for nothing or an empty filter |
| TableEdits.ItemEdits | src/composables/useTableEdits.ts:17-29 | an item's pending edits form a well-formed record |
| TableEdits.WithEdit | src/composables/useTableEdits.ts:17-29 | the buffer stays well formed, and a new item is appended to the item order |
| TableTypes.IsTranslationEdit | src/composables/useTableEdits.ts:51 | an edit is routed to the translations relation exactly when its value is an object whose `isTranslation` member is truthy; stated by TranslationEditByValue |
| TableTypes.UpdateOf | src/composables/useTableEdits.ts:51-81 | the update an edit describes: its own, or the language, field and value read off a plain object, flagged when the edit is routed |
| TableTypes.TranslationEditByValue | src/composables/useTableEdits.ts:51 | a recorded translation update is routed exactly when its flag is set, and its update is itself |
| TableTypes.PlainUpdateReadsBack | src/composables/useTableEdits.ts:51-81 | a translation update written as a plain object is routed exactly when its flag is set, and reads back as the same update |
| TableEdits.LastWriteWins | src/composables/useTableEdits.ts:17-29 | after an edit the cell holds the new value, and every other cell keeps its pending value |
| TableEdits.AfterFlush | src/composables/useTableEdits.ts:105-116 | the buffer stays well formed after a flush |
| TableEdits.FlushRemovesOnlyLastItem | src/composables/useTableEdits.ts:34-39 | a successful flush drops exactly the last item with edits, and other items keep theirs; a failed one changes nothing |
| TableEdits.RemoveKeyOfLast | src/composables/useTableEdits.ts:105 | deleting the last key leaves the earlier keys in order |
| TableEdits.FindItem | src/composables/useTableEdits.ts:53 | a found item matches the id, and nothing found means no item matches; FindItemFirst states it is the first match |
| TableEdits.FindItemFirst | src/composables/useTableEdits.ts:53 | the item found is the first that matches: no earlier item matches |
| TableEdits.MatchesId | src/composables/useTableEdits.ts:53 | `i[pk] == itemId` for string and numeric ids; stated by MatchesOneId |
| TableEdits.MatchesOneId | src/composables/useTableEdits.ts:53 | an item matches at most one id |
| TableEdits.ExistingRows | src/composables/useTableEdits.ts:56-59 | no stored translations gives no rows; otherwise the stored array of rows; an array holding `null` makes the walk throw |
| TableEdits.UpdateRowFacts | src/composables/useTableEdits.ts:61-81 | updating a row keeps which language it is for, sets the field on the matching row, leaves other rows alone, and is idempotent |
| TableEdits.SetFieldFacts | src/composables/useTableEdits.ts:61-81 | setting a field keeps the row's language and stores the value |
| TableEdits.NewRowFacts | src/composables/useTableEdits.ts:61-81 | a new row is for the language and holds the value |
| TableEdits.UpsertFacts | src/composables/useTableEdits.ts:61-81 | rows for the language get the value and other rows are kept; when none exists, a new row is appended |
| TableEdits.Upsert | src/composables/useTableEdits.ts:61-81 | the translation rows after one edit; stated by UpsertFacts, UpsertExisting, UpsertNew and UpsertIdempotent |
| TableEdits.UpsertExisting | src/composables/useTableEdits.ts:61-74 | with a row for the language, the rows are updated in place and their count is kept |
| TableEdits.UpsertNew | src/composables/useTableEdits.ts:75-81 | without one, the old rows are kept and a new row is appended |
| TableEdits.UpsertHasRow | src/composables/useTableEdits.ts:61-81 | after an upsert there is a row for the language |
| TableEdits.UpsertRowStable | src/composables/useTableEdits.ts:61-81 | updating any row of an upserted list again changes nothing |
| TableEdits.UpsertIdempotent | src/composables/useTableEdits.ts:61-81 | applying the same translation edit twice is applying it once |
| TableEdits.EntriesOf | src/composables/useTableEdits.ts:50 | the edits of an item, in their order |
| TableEdits.PayloadStepFacts | src/composables/useTableEdits.ts:50-87 | one pass of the loop: a thrown pass stays thrown, a regular edit is written under its field, a translation edit is skipped for a missing item, throws exactly when the item's rows cannot be read and otherwise writes the upserted rows under `translations`, and no other key changes |
| TableEdits.ThrownStaysThrown | src/composables/useTableEdits.ts:50-87 | once building the payload throws, the whole payload fails |
| TableEdits.Copied | src/composables/useTableEdits.ts:83-86 | each edit copied as its value |
| TableEdits.RegularPayload | src/composables/useTableEdits.ts:83-86 | without translation edits, the payload is the edits copied in order |
| TableEdits.WritesFieldSnoc | src/composables/useTableEdits.ts:50-87 | the fields written after one more edit are the earlier ones plus that edit's field |
| TableEdits.MissingItemPayload | src/composables/useTableEdits.ts:51-82 | with no item found, building never throws, and a field appears exactly when some edit writes it |
| TableEdits.LastTranslationWins | src/composables/useTableEdits.ts:51-82 | the translation rows sent are built from the item's stored rows and the last translation edit alone |
| TableEdits.SecondTranslationEditDropsFirst | src/composables/useTableEdits.ts:51-82 | with two translation edits on one item, only the second reaches the payload |
| TableEdits.AddToPayload | src/composables/useTableEdits.ts:50-87 | one loop pass is one payload step |
| TableEdits.BuildPayload | src/composables/useTableEdits.ts:50-87 | the loop builds the payload specification |
| TableEdits.Request | src/composables/useTableEdits.ts:90-102 | the call for one payload entry goes to the item's collection and id under the entry's field; `translations` is sent as an object with `isFullTranslations` true and the rows under `translations`, every other field as its value |
| TableEdits.Requests | src/composables/useTableEdits.ts:90-102 | one update request per payload field, in order |
| TableEdits.PlanUpdates | src/composables/useTableEdits.ts:48-102 | reports whether the payload was built, and makes the update calls for it only then |
| TableEdits.CallsMade | src/composables/useTableEdits.ts:89-102 | the calls made are a prefix of the planned ones: all of them when none throws, otherwise those up to and including the one that throws |
| TableEdits.PayloadOf | src/composables/useTableEdits.ts:48-87 | the payload the loop builds, none when it throws; stated by BuildPayload, RegularPayload, MissingItemPayload and LastTranslationWins |
| TableEdits.PayloadStepByValue | src/composables/useTableEdits.ts:51 | a translation update is handled the same whether it was recorded as one or as the plain object it is |
| TableEdits.PlainTranslationObjectRouted | src/composables/useTableEdits.ts:51-82 | a plain object with a truthy `isTranslation` becomes a `translations` entry built from the item's rows, and nothing under its own field |
| TableEdits.CellKeysMembers | src/composables/useTableEdits.ts:42-44 | the marked cells are exactly the `id_field` keys of the item's edited cells |
| TableEdits.PendingEdits.constructor | src/composables/useTableEdits.ts:13-15 | no edits and no cells being saved |
| TableEdits.PendingEdits.HasEdits | src/composables/useTableEdits.ts:14 | true exactly when some cell has a pending value |
| TableEdits.PendingEdits.UpdateFieldValue | src/composables/useTableEdits.ts:17-29 | records the value for the cell |
| TableEdits.PendingEdits.ResetEdits | src/composables/useTableEdits.ts:119-121 | discards every pending edit |
| TableEdits.PendingEdits.AutoSaveEdits | src/composables/useTableEdits.ts:31-117 | does nothing without edits; otherwise it marks the last item's cells, makes the planned update calls in order up to and including one that throws, drops that item's edits exactly when the payload was built and every update call went through (a failed reload still drops them), and unmarks the cells at the end |
| TableFields.FindField | src/composables/useTableFields.ts:37 | a found field has the key and no earlier field has it, and nothing found means none has it |
| TableFields.LastSegment | src/composables/useTableFields.ts:41-44 | the last segment has no dot, and is the whole key when that has no dot |
| TableFields.GetFieldName | src/composables/useTableFields.ts:28-52 | a non-empty custom name wins; otherwise a key without `:` shows the field's name or the key |
| TableFields.SuffixedColumnName | src/composables/useTableFields.ts:35-47 | `base:code` is shown as the base's name (or last segment) followed by the code in brackets |
| TableFields.TranslationSegment | src/composables/useTableFields.ts:41-44 | the last segment of `translations.sub` is `sub` |
| TableFields.TranslationColumnName | src/composables/useTableFields.ts:35-47 | an unlisted translation column such as `translations.title:de` is shown as `title (de)` |
| TableFields.OriginalName | src/composables/useTableFields.ts:99-100 | the field's stored name when the metadata has one, otherwise the formatted key |
| TableFields.TranslationMetaUsed | src/composables/useTableFields.ts:55-104 | for a translation column the store does not list, the metadata comes from the translations collection |
| TableFields.TranslationFieldMetadata | src/composables/useTableFields.ts:55-77 | the metadata of a translation column from the translations collection; stated by TranslationMetaUsed |
| TableFields.RenameMeta | src/composables/useTableFields.ts:80-101 | the metadata the rename dialog settles on; stated by TranslationMetaUsed |
| TableFields.LookupRenameMeta | src/composables/useTableFields.ts:80-104 | the lookup computes the rename metadata |
| TableFields.WithLanguageColumns | src/composables/useTableFields.ts:153-170 | the old columns stay first, every chosen language gets a column, only such columns are added, and no repeats appear |
| TableFields.PresentColumnsAddNothing | src/composables/useTableFields.ts:153-170 | when every chosen column is already shown, nothing changes |
| TableFields.AppendLanguageColumns | src/composables/useTableFields.ts:153-170 | the loop computes those columns |
| Strings.Without | src/composables/useTableFields.ts:173-192 | keeps exactly the other columns (the toggled-off preset ids are filtered the same way) |
| Strings.WithoutKeepsOrder | src/composables/useTableFields.ts:173-192 | removal keeps the other columns in order, and a list without the key is unchanged |
| TableFields.RenamedNames | src/composables/useTableFields.ts:113-131 | a new name is stored, a name equal to the original is forgotten, other names are kept, and an empty key or value changes nothing |
| TableFields.RenameShowsName | src/composables/useTableFields.ts:28-32 | after a rename the column shows the new name, a reset column falls back, and other columns are unaffected |
| TableFields.ToggleAbsentTwice | src/composables/useTableFields.ts:173-186 | toggling a hidden column shows it, and toggling again hides it |
| TableFields.FieldsState.constructor | src/composables/useTableFields.ts:14-25 | custom names come from the layout options, and both dialogs are closed |
| TableFields.FieldsState.RenameField | src/composables/useTableFields.ts:80-107 | opens the dialog for the key, with the original name and the current name filled in |
| TableFields.FieldsState.ResetToOriginal | src/composables/useTableFields.ts:109-111 | puts the original name in the input |
| TableFields.FieldsState.CancelRename | src/composables/useTableFields.ts:133-138 | closes and clears the rename dialog |
| TableFields.FieldsState.ConfirmRename | src/composables/useTableFields.ts:113-131 | stores the renamed names, writes a copy into the layout options unless nothing was entered, and closes the dialog |
| TableFields.FieldsState.ShowLanguageSelectionForField | src/composables/useTableFields.ts:141-145 | opens the language dialog for the field with nothing selected |
| TableFields.FieldsState.CancelLanguageSelection | src/composables/useTableFields.ts:147-151 | closes and clears the language dialog |
| TableFields.FieldsState.ConfirmLanguageSelection | src/composables/useTableFields.ts:153-170 | adds the chosen language columns when a field is pending and languages are chosen, then closes the dialog |
| TableFields.FieldsState.ToggleField | src/composables/useTableFields.ts:173-186 | hides a shown column and forgets its custom name, or appends a hidden one |
| TableFields.FieldsState.RemoveField | src/composables/useTableFields.ts:188-192 | hides the column and forgets its custom name |

## Left out

- The HTTP client (`src/composables/api.ts`) and the language selector composable are not
  part of this model. Their results arrive as parameters: the outcome of the update and
  refresh calls, and the configured languages.
- `FilterPresets.FilterState.SavePreset`: the API call that stores a preset and the user
  store are left out. The layout options are the only store.
- `FilterPresets.FilterState.UpdatePreset`: an update carries only the keys a stored quick
  filter has. The `collection`, `isPersonal`, `isSystem` and other `FilterPreset` keys that
  `{...preset, ...updates}` would also merge into the stored preset are not modelled. For
  the same reason `FilterPresets.AllPresets` does not add `collection` and `isPersonal`.
- `FilterPresets.FilterState.SavePreset` and `FilterPresets.FilterState.DeletePreset`:
  the model applies each layout update before the next one is built. When the options
  passed in keep their old value until the call returns, the source's second emit spreads
  the old options and undoes the first. A pinned preset is then lost, and a deleted active
  preset is only deactivated. `FilterPresets.DeferredSave` and
  `FilterPresets.DeferredDelete` model that reading; see Findings.
- Vue's reactivity: the watch on the active ids runs after every layout update. The
  component's in-place mutation of a manual filter object shared with its caller, and the
  preset objects reused by `movePreset`, are not modelled as aliasing.
- A preset whose filter is `null` is not modelled. Preset filters are JSON values.
- `FilterPresets.WithoutCondition`: a manual filter or condition that is not a plain object
  is left unchanged; how JavaScript would index such a value is not modelled.
- `TableEdits.MatchesId`: weaker than JavaScript loose equality. It matches a string id,
  or a number whose decimal form is the id; loose equality between other kinds of value is
  not modelled.
- A missing or `null` item in the list of items is not modelled, and neither is the
  console logging of errors.
- `TableFields.FieldsState.RenameField`: the fields store, the relations store and
  `formatTitle` are parameters.
- `TableFields.FieldsState.ShowLanguageSelectionForField`: the pending translation field
  object is reduced to its key, which is all `confirmLanguageSelection` reads of it.
- `TableTypes.UpdateOf`: a `language` or `translationField` member that is not a string is
  read as the empty string, and a missing `value` as `null`. JavaScript would compare or
  use such a member as it is, and would store `undefined`.
- Custom column names are a copy of the layout's record, not an alias of it.
- The language dialog's selection is written by the dialog's UI; the model takes it as a
  field.
- Case mapping is ASCII only.
- Keys inherited from `Object.prototype` are not modelled, and neither is how JavaScript
  orders integer-like object keys.
- Numbers are integers; floating point is not modelled.
- Concurrency between overlapping auto-saves is not modelled.
- `src/constants/languages.ts` is a list of settings and is not part of this model.

## Findings

| source | as written | input that shows it | evidently intended | confidence | as-written member | corrected member |
|---|---|---|---|---|---|---|
| src/composables/useFilterPresets.ts:238-251 | the chip id `field-operator` is split at every `-`, and the first two pieces are read as the field and the operator of the condition to remove | a manual filter on field `first-name` with operator `_eq`: its chip id `first-name-_eq` is read as field `first`, operator `name`, so removing the chip leaves the filter unchanged | remove the condition the chip was built from | not executed | FilterPresets.FilterState.RemoveManualFilter (with FilterPresets.HyphenatedFieldMisread and FilterPresets.HyphenatedConditionKept) | FilterPresets.FilterState.RemoveManualCondition (with FilterPresets.WithoutConditionFacts) |
| src/composables/useFilterPresets.ts:200-217 | `deletePreset` emits the options without the preset, then, for the active preset, emits again with the active id cleared; each emit spreads `layoutOptions.value` as read at that moment | options whose new value reaches the composable only after the call returns, with preset `a` active: deleting `a` leaves `a` stored and only deactivates it | the preset is removed and deactivated | not executed; plausible, since how the parent passes the options back is not part of this model | FilterPresets.DeferredDelete (with FilterPresets.DeferredDeleteKeepsActivePreset) | FilterPresets.FilterState.DeletePreset |
| src/composables/useFilterPresets.ts:166-182 | `savePreset` emits the options with the preset appended, then, for a pinned preset, emits again with its id active; each emit spreads `layoutOptions.value` as read at that moment | the same deferred options and a pinned preset saved under a new id: the preset is not stored, and the active id names no preset | the preset is stored and active | not executed; plausible, for the same reason | FilterPresets.DeferredSave (with FilterPresets.DeferredPinnedSaveLosesPreset) | FilterPresets.FilterState.SavePreset |
