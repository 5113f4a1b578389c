# go-crud configuration loading and request rules, in Dafny

go-crud is a small web CRUD generator. Each entity is described in a YAML
document. The document lists the entity's fields, a list view, a detail form
("fiche") made of groups of field definitions, and standalone lookup forms
("vision" forms). An optional form code holds validation rules. This project
models two parts of the program and proves properties of them:

- **Entity configuration assembly** (`internal/entity/loader.go`). After the
  document is decoded, `LoadEntityConfig` does the following:
  - copies the declared fields and indexes them by name;
  - dispatches each form on its kind;
  - merges list and detail forms with the default templates (`mergeWithDefaults`);
  - indexes the detail form's fields;
  - applies the page-size and sort fallbacks.

  The flat field list `GetAllFields` and the scalar-or-mapping decoding of a
  field definition are modelled too.
- **Request-time rules** (`internal/crud/routes.go`):
  - back-end validation;
  - form binding and type coercion;
  - the list page's parameters, search predicate, offset, page count,
    highlighting and number formatting;
  - the page `create` redirects to;
  - the thousands grouping of `formatNumber`;
  - combo options;
  - the edit form's display preparation;
  - the row re-displayed after a failed validation;
  - vision-form parameter binding and paging;
  - the search for a field's vision picker.

The database, the HTTP context, the YAML decoder, floating point and the clock
are inputs:
- A query string or a submitted form is a `map<string, string>`, and an absent
  key reads as `""`. `c.DefaultQuery` falls back only when the key is absent.
- A fetched row is a `map<string, Value>` over a closed `Value` type.
- Query results and row counts are parameters.
- Float parsing and formatting, time parsing and formatting, and the printing
  of floats and times are uninterpreted functions of a `Runtime` value.
- Go's `strconv.Atoi` is modelled exactly, including the value it returns
  alongside an error (`page, _ :=` uses it).

Where the code acts in place, the model is imperative:
- the validation loop;
- the nested binding loops;
- the right-to-left fill of the grouping buffer;
- the in-place highlight and formatting passes over the fetched rows (an `array`);
- the load loops.

Each of these methods is proved equal to a specification function, and the
properties are lemmas about those functions.

Module layout:
- `wrappers.dfy`: Option and Result.
- `goint.dfy`: 64-bit int wrap-around and truncating division.
- `strconv.dfy`: `Atoi` and `Itoa`.
- `strings.dfy`: `Split`, `Join`, `TrimSpace`, byte length.
- `values.dfy`: request maps, rows, runtime.
- `formcodes.dfy`: form code records.
- `entity.dfy`: configuration records.
- `loader.dfy`: merge and load.
- `validation.dfy`, `binding.dfy`, `listing.dfy`, `numberformat.dfy`,
  `combo.dfy`, `editing.dfy` and `vision.dfy`: the handler rules.

Where the code and its comments disagree, the model follows the code:
- An empty date or datetime submission binds to nil, not to the current time.
  The test for an empty value runs first (routes.go:402), so the "now"
  branches at routes.go:430-431 and 436-437 can never run.
- A value that fails to parse is stored as nil under its key, not left out
  (routes.go:453).
- A field definition written as a bare scalar has only its name set, and its
  type is `""` (loader.go:132-134).
- Go's reflective zero check treats a nil slice or map as unset and an empty
  non-nil one as set. Slices and maps of the configuration records are
  `Option` values: `None` is nil.
- The list page and the edit form format numbers with `formatNumber` as
  written (`NumberFormat.FormatNumberAsWritten`), so a negative number has its
  sign grouped like a digit (second Finding). `NumberFormat.FormatNumber` is
  the corrected routine, with its property proved beside it.
- The loader merges map fields with the intended merge
  (`EntityLoader.MergedMap`). The code as written panics when a default key
  is missing from the specific map (first Finding), and the model does not
  carry that panic into the load.

## Model

| member | source | states |
|---|---|---|
| Entity.GetAllFields | internal/entity/loader.go:172-178 | the flat list is the groups' field lists concatenated in group order, and its length is the sum of the group sizes |
| Entity.AllFieldsMembers | internal/entity/loader.go:172-178 | a field definition is in the flat list exactly when some group holds it |
| Entity.AllFieldsLength | internal/entity/loader.go:172-178 | the flat list is as long as all groups together |
| Entity.LastByKey | internal/entity/loader.go:307-311 | a name index holds exactly the names that occur, each mapped to its last occurrence |
| Entity.IndexByKey | internal/entity/loader.go:307-311 | the indexing loop yields the last-wins name index |
| Entity.UnmarshalFieldDef | internal/entity/loader.go:129-143 | a scalar node gives a definition with only the name set (type `""`, no combo or vision picker); a mapping gives its decoding, error included; a sequence is an error |
| EntityLoader.MergedMap | internal/entity/loader.go:267-278 | a nil specific map becomes the default map; otherwise the result holds every key of either map, non-empty specific values are kept, specific keys without default are kept, and default keys whose specific value is missing or `""` take the default's value |
| EntityLoader.FillMissingKeys | internal/entity/loader.go:271-276 | the key-filling loop computes the merged map |
| EntityLoader.MapMergePanicsOnAbsentKey | internal/entity/loader.go:271-276 | with a default key absent from the specific map, the code as written panics, where the intended merge adds the key |
| EntityLoader.AsWrittenAgreesWithoutPanic | internal/entity/loader.go:267-278 | when the code as written does not panic it gives the intended merge, and that happens only when every default key is already in the specific map |
| EntityLoader.MergedMapIdempotent | internal/entity/loader.go:258-286 | merging a map twice with the same defaults equals merging once |
| EntityLoader.MergedListFields | internal/entity/loader.go:281-284 | for every one of the nineteen list fields, both ways: a non-zero value (non-empty string, non-zero int, non-nil slice, even an empty one) is kept, and a zero one takes the default's value |
| EntityLoader.MergedList | internal/entity/loader.go:258-286 | `mergeWithDefaults` on a list configuration, field by field; its content is stated by `MergedListFields` and `MergedListIdempotent` |
| EntityLoader.MergedFicheFields | internal/entity/loader.go:258-286 | for every field of a detail form: the name and the string fields are kept when non-empty and take the default when `""`, the groups are kept when non-nil and take the default when nil, and the titles and button labels are merged key by key as `MergedMap` states |
| EntityLoader.MergedFiche | internal/entity/loader.go:258-286 | `mergeWithDefaults` on a detail form, the map fields through `MergedMap`; its content is stated by `MergedFicheFields` and `MergedFicheIdempotent` |
| EntityLoader.MergedListIdempotent | internal/entity/loader.go:258-286 | merging a list configuration twice with the same defaults equals merging once |
| EntityLoader.MergedFicheIdempotent | internal/entity/loader.go:258-286 | merging a detail form twice with the same defaults equals merging once |
| EntityLoader.MergeFiche | internal/entity/loader.go:258-286 | the field-by-field merge of a detail form computes the merged detail form |
| EntityLoader.FormNameSurvivesMerge | internal/entity/loader.go:320-340 | a non-empty form name set before the merge survives it; a vision form gets the entry's name and kind |
| EntityLoader.ApplyForm | internal/entity/loader.go:313-342 | one dispatch step fails exactly when the form is of a handled kind and does not decode as that kind |
| EntityLoader.ApplyFormsFails | internal/entity/loader.go:313-342 | the form loop fails exactly when some list, detail or vision form does not decode |
| EntityLoader.ApplyFormsList | internal/entity/loader.go:315-323 | after the loop the list is that of the last "list" form, named after it and merged, or unchanged if there is none |
| EntityLoader.ApplyFormsFiche | internal/entity/loader.go:324-332 | after the loop the detail form is that of the last "fiche" form, named after it and merged, or unchanged if there is none |
| EntityLoader.ApplyFormsVisions | internal/entity/loader.go:333-340 | after the loop there is one vision form per vision-form name, the last of that name, unmerged, with name and kind set |
| EntityLoader.WithFallbacks | internal/entity/loader.go:352-364 | a zero page size becomes the entity's default page size, else 10, and a non-zero one is kept; an empty sort order becomes "asc" and a set one is kept; an empty sort field becomes the first declared field's name, stays `""` when no field is declared, and a set one is kept; every other list field is unchanged |
| EntityLoader.BuildFields | internal/entity/loader.go:301-311 | the fields keep document order and length, and the name index maps each name to its last field |
| EntityLoader.RunForms | internal/entity/loader.go:313-342 | the form loop computes the dispatch over all forms, stopping at the first decode error |
| EntityLoader.IndexFicheFields | internal/entity/loader.go:345-349 | the detail-form index maps every field name of every group to its last definition |
| EntityLoader.LoadFails | internal/entity/loader.go:289-342 | loading fails exactly when the document cannot be read or one of its handled forms does not decode |
| EntityLoader.LoadResult | internal/entity/loader.go:289-375 | a loaded entity has the fields in order with the last-wins index, the last list form merged and then completed by the fallbacks, the last detail form with its fields indexed, one vision form per name, and the form code found |
| EntityLoader.LoadEntityConfig | internal/entity/loader.go:289-375 | the loading method computes the load function |
| EntityLoader.Load | internal/entity/loader.go:289-375 | the load as a function of the decoded document, the defaults and the form code; its outcome is stated by `LoadFails` and `LoadResult` |
| Validation.Errors | internal/crud/routes.go:356-378 | no form code gives no errors; error keys are rule keys; a required field submitted empty gets exactly its required message; an optional empty field gets none; for a non-empty value the max message wins over the min message, each applying only when its bound is positive and the byte length is beyond it; otherwise there is no error |
| Validation.Validate | internal/crud/routes.go:356-378 | the loop over the rules computes exactly the error map |
| Binding.BoundRowColumns | internal/crud/routes.go:386-399 | the bound keys are exactly the detail-form field names that are declared, are not "id" and are not read-only, each holding the coercion of its submitted text under its last definition, nil included |
| Binding.BindGroup | internal/crud/routes.go:392-454 | the inner loop extends the bound row by one group's fields |
| Binding.BindAndConvertForm | internal/crud/routes.go:382-457 | the nested loops compute the bound row of all detail-form fields against the declared-field index |
| Binding.Coerce | internal/crud/routes.go:400-453 | the value one submitted text becomes: an empty text gives false for a boolean and nil otherwise; a combo or vision field keeps the text; int and uint parse with `Atoi`, number with commas read as points, boolean by truthiness, date in the date layout, datetime from its display format to the storage layout (kept as text without a display format), and any other type as text; a failed parse gives nil; its properties are stated by `EmptySubmission`, `FailedParseIsNil`, `IntegerRoundTrip`, `CommaIsDecimalPoint` and `BoundRowColumns` |
| Binding.EmptySubmission | internal/crud/routes.go:402-407 | an empty submission binds to false for a boolean and to nil for every other type, date and datetime included |
| Binding.IntegerRoundTrip | internal/crud/routes.go:414-417 | an int or uint field submitted as the decimal text of an int64 binds to that integer |
| Binding.FailedParseIsNil | internal/crud/routes.go:409-445 | a non-empty submission that does not parse binds nil for int and uint (`Atoi`), number (after commas become points), date (date layout) and a datetime with a display format; a combo or vision field, and a datetime without a display format, keep the submitted text |
| Binding.CommaIsDecimalPoint | internal/crud/routes.go:418-422 | a number field reads commas as decimal points |
| Binding.FicheReadOnlyIgnored | internal/crud/routes.go:393-397 | the read-only flag of a detail-form definition has no effect; only the declared field's flag counts |
| Listing.ListParamsDefaults | internal/crud/routes.go:119-132 | page 1 and highlight 0 when absent; the page size from the query when it parses, else the configured one; the sort and order from the query when present (no whitelist), else the configured ones; the search term trimmed of white space at both ends |
| Listing.ReadListParams | internal/crud/routes.go:119-132 | the parameters `list` reads from the query string; their defaults and precedences are stated by `ListParamsDefaults` |
| Listing.LikeClauses | internal/crud/routes.go:140-143 | one `f LIKE ?` clause per searchable field, in order |
| Listing.SearchPredicate | internal/crud/routes.go:137-147 | the search condition and its arguments, absent unless both the term and the field list are non-empty; `BuildSearch` and `PlaceholdersMatchArguments` state its shape |
| Listing.BuildSearch | internal/crud/routes.go:137-147 | there is a predicate exactly when the trimmed term and the field list are both non-empty, with one `%term%` argument per field |
| Listing.PlaceholdersMatchArguments | internal/crud/routes.go:140-144 | the joined condition holds exactly as many placeholders as there are searchable fields, and so as many as there are arguments |
| Listing.ListQueries | internal/crud/routes.go:134-153 | the data and count queries share the table and the search predicate; the data query selects the configured columns and is limited to the page size |
| Listing.TotalPages | internal/crud/routes.go:183-188 | the page count is the ceiling of total over page size when the page size is positive, and 0 otherwise |
| Listing.MarkHighlight | internal/crud/routes.go:155-162 | every fetched row is replaced by its highlighted form, in place |
| Listing.Highlighted | internal/crud/routes.go:156-160 | one row as the highlight pass leaves it; `HighlightIntegerId` and `HighlightOnlyFlags` state its effect |
| Listing.HighlightIntegerId | internal/crud/routes.go:156-160 | a row with an integer id gets the highlight flag exactly when the id equals the parameter |
| Listing.HighlightOnlyFlags | internal/crud/routes.go:156-162 | the highlight pass adds the `_highlight` flag on matching rows and changes nothing else |
| Listing.FormatRowOnlyNumbers | internal/crud/routes.go:164-177 | number formatting keeps a row's keys and changes no column that has no number field of its name |
| Listing.NumberCell | internal/crud/routes.go:166-176 | one declared field's formatting of one row, with `formatNumber` as written; stated by `FormatRowNumberColumn` and `NumberCellGroupsSign` |
| Listing.FormatRow | internal/crud/routes.go:166-176 | the number formatting of one row, field after field; stated by `FormatRowOnlyNumbers` and `FormatRowNumberColumn` |
| Listing.FormatRowNumberColumn | internal/crud/routes.go:166-176 | the column of a number field declared once becomes the as-written formatting of its value when the detail form gives the field a decimal separator and the value reads as a float, and is unchanged otherwise |
| Listing.NumberCellGroupsSign | internal/crud/routes.go:171 | the list page shows a value that formats as "-123.50" under "," and "." as "-.123,50" |
| Listing.FormatField | internal/crud/routes.go:167-175 | one turn of the number loop computes that field's formatting of the row |
| Listing.FormatRowFields | internal/crud/routes.go:166-176 | the loop over the declared fields formats one row with `formatNumber` as written |
| Listing.FormatNumbers | internal/crud/routes.go:164-177 | every fetched row is replaced in place by its number formatting with `formatNumber` as written, the columns as `FormatRowOnlyNumbers` and `FormatRowNumberColumn` state |
| Listing.DecorateRows | internal/crud/routes.go:155-177 | the fetched rows are highlighted and then number-formatted with `formatNumber` as written, row by row, in place |
| Listing.BuildListPage | internal/crud/routes.go:119-188 | the queries and the page count are built as the handler builds them |
| Listing.List | internal/crud/routes.go:119-203 | the list handler yields the list page, and the fetched rows are highlighted and number-formatted in place with `formatNumber` as written |
| Listing.PageOfPosition | internal/crud/routes.go:250 | for the row at position k, the redirect page lies between 1 and k+1, and k falls inside that page's offset window |
| Listing.CountAtMostRank | internal/crud/routes.go:249 | with ids in increasing order, the number of ids at most the k-th is k+1 |
| Listing.CreatePage | internal/crud/routes.go:250 | the page `create` redirects to, by truncating division; its range is stated by `PageOfPosition`, `PageWithinTotal` and `CreatedRowOnItsPage` |
| Listing.PageWithinTotal | internal/crud/routes.go:250 | the redirect page is never past the last page of the list |
| Listing.CreatedRowOnItsPage | internal/crud/routes.go:246-250 | with ids in increasing order, the page `create` redirects to is one of the list's pages, and the new row lies within its offset and limit |
| NumberFormat.GroupedLength | internal/crud/routes.go:555-560 | an integer part of n digits grouped has length n + (n-1)/3 |
| NumberFormat.Grouped | internal/crud/routes.go:555-571 | the digits with a separator between groups of three counted from the right; stated by `GroupedLength`, `GroupedShape` and `UngroupGrouped` |
| NumberFormat.GroupedShape | internal/crud/routes.go:563-570 | a separator sits exactly at every fourth position from the right, and nowhere else |
| NumberFormat.UngroupGrouped | internal/crud/routes.go:555-571 | deleting the separators from the grouped digits gives back the digits |
| NumberFormat.GroupDigits | internal/crud/routes.go:556-571 | the right-to-left fill of the buffer yields the grouped digits |
| NumberFormat.SeparatorsOnlyWhereDue | internal/crud/routes.go:547-577 | with an empty thousands separator, or an integer part short enough not to group, the integer part is kept as it is and the decimal separator is added only in front of a non-empty fraction: for the formatter as written, "short enough" means at most three characters counting a leading sign; for the corrected formatter, at most three digits after the sign; without a '.' the corrected formatter is just the signed grouping |
| NumberFormat.FormatNumberAsWritten | internal/crud/routes.go:543-578 | the routine as written: split at the first '.', the whole integer part grouped, sign included, and the fraction appended after the decimal separator |
| NumberFormat.SignGroupedAsDigit | internal/crud/routes.go:555-570 | as written, "-123.50" with "," and "." becomes "-.123,50"; the corrected routine gives "-123,50" |
| NumberFormat.FormatNumber | internal/crud/routes.go:543-578 | the corrected routine groups only the digits after a leading sign |
| NumberFormat.SignedGrouping | internal/crud/routes.go:555-571 | the corrected grouping keeps the sign in front, never puts a separator right after it, and deleting the separators gives back the integer part |
| NumberFormat.UnsignedAgrees | internal/crud/routes.go:543-578 | without a sign the corrected and the as-written routines agree |
| Combo.LabelParts | internal/crud/routes.go:469-472 | one printed value per display column, in order, with a missing column printed as nil |
| Combo.Options | internal/crud/routes.go:467-478 | one option per fetched row, in order, holding the row's key value and its label |
| Combo.ComboDataEntries | internal/crud/routes.go:460-484 | the combo data has exactly one entry per name of a combo field with a configuration, holding the options of the last such field of that name |
| Combo.ComboData | internal/crud/routes.go:460-484 | the options of every combo field of the detail form, by name, a later field winning; stated by `ComboDataEntries` |
| Combo.BuildLabel | internal/crud/routes.go:469-473 | the label loop gives the printed display columns joined with the separator |
| Combo.BuildOptions | internal/crud/routes.go:467-478 | the option loop gives one option per row |
| Combo.PrepareComboData | internal/crud/routes.go:460-484 | the nested loops compute the combo data of all detail-form fields |
| Combo.TwoColumnLabel | internal/crud/routes.go:470-473 | with two display columns the label is the two printed values around the separator |
| Editing.EditRowColumns | internal/crud/routes.go:272-307 | preparing the stored row keeps its keys, never turns a non-nil value into nil, and leaves a boolean value in every non-nil column of a boolean field that no later declared field of the same name but another type overrides |
| Editing.EditRowUndeclared | internal/crud/routes.go:272-307 | preparing keeps every column, and a column that no declared field names is unchanged |
| Editing.EditRowValues | internal/crud/routes.go:272-307 | the column of a field declared once is its preparation of the stored value: a datetime that reads in the storage layout is shown in the display format, a number with the detail form's separators (as written) when the form gives it a decimal separator and it reads as a float, a non-nil boolean as the normalised `Bool`, and anything else unchanged |
| Editing.EditCellPrepared | internal/crud/routes.go:273-306 | one declared field prepares its own column as `EditRowValues` describes, keeps the keys and leaves every other column as it was |
| Editing.NormalizeBool | internal/crud/routes.go:291-305 | a stored boolean read from an integer (non-zero), a boolean, or the text "true", "1" or "on"; anything else is false; used by `EditRowValues` and `BindThenNormalize` |
| Editing.EditCell | internal/crud/routes.go:273-306 | one turn of the edit loop as a function; stated by `EditCellPrepared` |
| Editing.EditRow | internal/crud/routes.go:272-307 | the edit loop as a function; stated by `EditRowUndeclared`, `EditRowValues` and `EditRowColumns` |
| Editing.BindThenNormalize | internal/crud/routes.go:291-305 | the submitted text of a boolean field binds to the value the edit form would show for it |
| Editing.EditField | internal/crud/routes.go:273-306 | one turn of the edit loop: the row keeps its keys and every other column, and the field's own column is its preparation, the datetime reformatted, the number formatted as written, the boolean normalised from an integer, a boolean or text |
| Editing.PrepareEditRow | internal/crud/routes.go:272-307 | the edit loop computes the prepared row, whose columns `EditRowUndeclared` and `EditRowValues` state |
| Editing.RepopulateFormOnError | internal/crud/routes.go:487-497 | the re-displayed row has exactly the detail-form field names, plus "id" in edit mode; each holds the submitted text, and "id" holds the path's id |
| Vision.BindVisionParams | internal/crud/routes.go:55-65 | one named argument per configured parameter, in order: a "context" parameter takes the request value of its context field, a "literal" one its value, any other source "" |
| Vision.VisionPageSize | internal/crud/routes.go:67-74 | the page size of a vision page is never 0, and is positive for a non-negative configured size |
| Vision.PageSizeRequestHonoured | internal/crud/routes.go:69-71 | a positive page size in the request always wins |
| Vision.PageSizeFallback | internal/crud/routes.go:68-74 | without a page size in the request the configured one is used, with 10 in place of 0 |
| Vision.VisionPageShape | internal/crud/routes.go:47-115 | a vision page exists exactly for configured forms and is one page of all the rows; it is in return mode exactly when a return target is given; its page size is never 0; without page, sort or order parameters it starts on page 1 with the configured sort; selection is allowed unless configured otherwise |
| Vision.VisionPage | internal/crud/routes.go:47-115 | the page the vision handler renders, None for an unknown form; its shape is stated by `VisionPageShape` |
| Vision.FirstVisionIsFirst | internal/crud/routes.go:517-525 | the search finds nothing exactly when no field has the name and a picker, and otherwise finds the picker of a matching field with no match before it |
| Vision.FirstVisionInFlattened | internal/crud/routes.go:517-525 | searching group by group is searching the flat field list |
| Vision.FindVisionConfig | internal/crud/routes.go:514-530 | the nested loops with their breaks find the first picker in the flat field list |
| Vision.FoundPickerBelongsToField | internal/crud/routes.go:517-530 | the picker found belongs to a detail-form field of the requested name, and a 404 happens exactly when no field has one |
| Strconv.AtoiItoa | internal/crud/routes.go:158 | the decimal text of every int64 parses back to it without error |
| Strconv.Atoi | internal/crud/routes.go:120-132 | Go's `strconv.Atoi`: an optional sign and decimal digits, the int64 bound on overflow and 0 on a syntax error, both with an error; `AtoiItoa` states its round trip |
| Strings.Split | internal/crud/routes.go:547-552 | the pieces joined with the separator give back the text, and none holds the separator |
| Strings.TrimSpace | internal/crud/routes.go:131 | the trimmed term is a contiguous infix of the text with only white space before and after it; it is empty exactly when the text is all white space, and otherwise starts and ends with a non-space |
| Strings.ByteLen | internal/crud/routes.go:369-372 | the byte length is at least the number of characters, and equal to it for ASCII text |

## Left out

- Database access through gorm (find, count, create, update, delete, raw
  queries) is not modelled. Fetched rows, row counts and query results are
  inputs, and queries are data.
- HTTP plumbing is not modelled: the gin context, HTML and JSON rendering, the
  404 and 400 responses, and the redirect URLs of `create` and `update`. The
  handlers `newForm` (including its prepopulation), `create`, `update` and
  `delete` are modelled only through the rules they call.
- Floating-point parsing and formatting, time parsing and formatting with Go
  layouts, and `fmt.Sprint` of floats and times are uninterpreted functions.
- YAML decoding and file reading are not modelled. A decoded form carries the
  outcome of decoding its config as each kind. This covers the form-code
  loading at internal/entity/loader.go:366-372 and the default templates read
  at startup (internal/entity/loader.go:46-56).
- main.go and internal/admin/handlers.go are not part of this model: startup,
  routing, shutdown, and admin configuration editing are I/O.
- Listing.TotalPages: the int64 arithmetic of the count is not modelled, so
  overflow near the int64 bound is not captured.
- Listing.List: the data and count queries are taken from `ListPageOf`, which
  `Listing.BuildListPage` is proved to build, rather than built a second time
  inside the method.
- Listing.CreatePage: it requires a non-zero page size. Go would panic on 0,
  and the loader's fallbacks rule 0 out for a loaded entity.
- NumberFormat.GroupDigits: it inserts the first character of the thousands
  separator. Go inserts the separator's first byte, so a non-ASCII separator
  differs.
- Binding.Coerce: the dead "now" branches for an empty date or datetime are
  not modelled, because they cannot be reached.
- Vision.VisionPage: a failed vision query is given as an empty row sequence,
  which is what the handler shows (a nil slice).

## Findings

| source | as written | input that shows it | evidently intended | confidence | as-written member | corrected member |
|---|---|---|---|---|---|---|
| internal/entity/loader.go:271-276 | `specField.MapIndex(key).IsZero()` is called on the result of looking up a default key in the specific map; for a key absent there, `MapIndex` returns the invalid `reflect.Value`, on which `IsZero` panics | specific titles `{"edit": "Modifier"}`, default titles `{"edit": "Edit", "new": "Nouveau"}` | a default key missing from the specific map is added, as the comment above the test says | high, not executed | EntityLoader.MapMergePanicsOnAbsentKey | EntityLoader.MergedMap |
| internal/crud/routes.go:555-570 | the whole integer part, a leading '-' included, is counted and grouped as digits | "-123.50" formatted with decimal separator "," and thousands separator "." gives "-.123,50" | "-123,50": the sign stays in front and only digits are grouped | high, not executed | NumberFormat.SignGroupedAsDigit | NumberFormat.SignedGrouping |
