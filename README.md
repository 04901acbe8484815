# Bucket sort lab: verified model

This project models rps2, a small bucket-sort application with three parts:

* **Python bucket sort.** There are two copies: the Django backend's
  `bucket/sorting.py` and the console program's `src/sorting_module.py`.
  Both sort a list of integers in place. Items are spread over `n` buckets
  by `n * (item - min) // (max - min + 1)`. A bucket of at most 32 items is
  insertion-sorted; a larger one is bucket-sorted again. The buckets are
  then written back into the list.
* **Server and console.** The backend's `sort_view` sorts a stored array
  with 5 buckets and marks it sorted. The console program keeps its files
  as one integer per line, and `main.py` has a save-name rule and an
  overwrite gate.
* **React client.** It has a create page with four input forms:
  keyboard, random, file and database. The sorted output comes back
  through a shared context. There is also a collection page with a table,
  pagination, search and an edit modal. Everything goes through the
  request helpers in `api.js`.

## How the model is laid out

* **Sorting.** A Python list is the class `Lists.IntList`, whose field
  `items` the methods reassign.
  - `BucketSorting` holds `bucket_sort`, `insertion_sort` and
    `get_min_max` as methods with loops. Recursion on large buckets is
    proved to terminate: a bucket's spread (max − min) is strictly smaller
    than its parent's.
  - The methods are proved against the specification `Lists.SortedOf`
    (sorted insertion). It is shown to be the unique sorted permutation of
    its input.
* **Server.** The store behind `sort_view` is a class over a `map` from
  id to record.
* **Request helpers.** Each request's remote outcome is a parameter of
  type `Outcome<T>`: `Ok(status, body)`, `HttpError(status)` or
  `NetworkError`.
  - The helpers become functions that return what they give back, whether
    they called `onSuccess`, and the message they reported.
  - When no `onError` sink is passed, `handleFetchError` calls `undefined`
    and throws. This is the `Threw` outcome.
* **React components.** Each stateful component is a class whose fields
  are its `useState` values.
  - Every class keeps a log `sent` of the requests it has issued, so a
    contract can say which calls were made and in what order.
  - The effect that runs `fetchDataCallback` fetches the listing on
    mount. That first run is a call of the component's fetch method,
    `Refetch` or `Fetch`, right after its constructor. Its later runs, on
    a changed page or search id, are part of `SetPage` and `SetSearchId`.
  - A handler of an input form requires its own fill method to be the
    current one. This is how the model renders exactly the form keyed by
    the method.
* **Shared text rules.** The token rule the three textareas copy is one
  function, `Tokens.ParseText`. JavaScript `parseInt` and `Number`, and
  Python `int` and `str.strip`, are written out in `Decimal` and `Text`.

## Model

| member | source | states |
|---|---|---|
| BucketSorting.BucketSort | lab-2-web/backend/bucket/sorting.py:2-49 | sorts in place and returns the same list; the new contents are sorted, a permutation of the old, and equal to SortedOf(old); a list whose min equals its max is left unchanged; needs n ≥ 2 |
| BucketSorting.Distribute | lab-2-web/backend/bucket/sorting.py:28-34 | n fresh distinct buckets; every item lands in the bucket its index names; together the buckets are a permutation of the list |
| BucketSorting.SortBuckets | lab-2-web/backend/bucket/sorting.py:39-43 | each bucket is left sorted and a permutation of what it held; only the in-place effect is used, since the recursive call's return value is dropped |
| BucketSorting.BucketIndex | lab-2-web/backend/bucket/sorting.py:34 | for lo ≤ item ≤ hi and lo < hi, the index n*(item−lo)//(hi−lo+1) lies in [0, n) |
| BucketSorting.BucketIndexMonotone | lab-2-web/backend/bucket/sorting.py:34 | a smaller item never goes to a later bucket, so the concatenated buckets are in order |
| BucketSorting.ExtremesSplit | lab-2-web/backend/bucket/sorting.py:33-34 | with n ≥ 2 the minimum goes to bucket 0 and the maximum to a later one, so no bucket receives both |
| BucketSorting.BucketSpreadShrinks | lab-2-web/backend/bucket/sorting.py:39-43 | every bucket's max−min is strictly below the parent's, which is why the recursion ends |
| BucketSorting.FlattenSorted | lab-2-web/backend/bucket/sorting.py:46 | sorted buckets whose items are ordered bucket to bucket concatenate to a sorted list |
| BucketSorting.FlattenPermuteAll | lab-2-web/backend/bucket/sorting.py:39-46 | replacing each bucket by a permutation of itself permutes the concatenation |
| BucketSorting.InsertionSort | lab-2-web/backend/bucket/sorting.py:53-82 | sorts in place and returns the same list; the result is sorted and a permutation; the outer loop keeps the prefix [0..i) sorted |
| BucketSorting.ShiftInsert | lab-2-web/backend/bucket/sorting.py:69-80 | one outer step: everything greater than element i moves up one place, the element lands at position p, and the items before p and after i are untouched |
| BucketSorting.InsertStep | lab-2-web/backend/bucket/sorting.py:67-80 | that step extends the sorted prefix to [0..i] and permutes the list |
| BucketSorting.GetMinMax | lab-2-web/backend/bucket/sorting.py:86-115 | (None, None) for an empty list; otherwise two elements of the list bounding every element |
| CliSorting.BucketSort | lab-2-main/src/sorting_module.py:1-34 | a missing or empty list gives a fresh empty list; any other list is sorted in place to SortedOf(old) and returned |
| Lists.IntList.Append | lab-2-web/backend/bucket/sorting.py:34 | `list.append`: the item goes at the end |
| Lists.Min | lab-2-web/backend/bucket/sorting.py:105-113 | the reference minimum: an element bounding every element from below |
| Lists.Max | lab-2-web/backend/bucket/sorting.py:105-113 | the reference maximum: an element bounding every element from above |
| Lists.SortedOfSpec | lab-2-main/src/sorting_module.py:1-34 | the reference sort (`sorted(input)`) gives a sorted permutation of its input |
| Lists.SortedUnique | lab-2-main/src/sorting_module.py:1-34 | two sorted permutations of the same list are equal |
| Lists.SortedPermutationIsSortedOf | lab-2-main/src/sorting_module.py:1-34 | any sorted permutation of a list is SortedOf it, so bucket sort equals `sorted` |
| Lists.ZeroSpreadSorted | lab-2-web/backend/bucket/sorting.py:24-25 | a list whose min equals its max is already sorted, so returning it unchanged is right |
| Lists.SortedOfIdempotent | lab-2-web/backend/bucket/views.py:76 | sorting a sorted list changes nothing |
| Lists.InsertSpec | lab-2-web/backend/bucket/sorting.py:75-80 | inserting into a sorted list keeps it sorted and adds exactly that element |
| SortView.ArrayStore.SortView | lab-2-web/backend/bucket/views.py:33-94 | malformed JSON gives 400 and a body that is not an object gives 500, with the store unchanged; a missing or unknown id gives 404, store unchanged; a record whose data holds a null gives 500, store unchanged, since `get_min_max` compares it with `<` (sorting.py:109); otherwise only that record changes: its data becomes its 5-bucket sort, it is marked sorted and its update date becomes the time of saving; the response carries the stored data and the measured time |
| SortView.ArrayStore.constructor | lab-2-web/backend/bucket/views.py:67 | the store holds the given records |
| SortView.SortedRecord | lab-2-web/backend/bucket/views.py:76-88 | for integer data, the saved record's data is integers forming a sorted permutation of the old; it is marked sorted; its creation date is kept and its update date is the time of saving |
| SortView.SortTwice | lab-2-web/backend/bucket/views.py:76-85 | for integer data, sorting an already sorted record again leaves its data as it was |
| FileCodec.Lines | lab-2-main/src/file_module.py:13-14 | the lines a file opened in text mode yields, after "\r\n" and a lone "\r" are read as "\n": no line holds a line feed or a carriage return; an empty file has none |
| FileCodec.Newlines | lab-2-main/src/file_module.py:13 | universal newlines: the translated text holds no carriage return, and it is empty exactly when the file is |
| FileCodec.NewlinesPlain | lab-2-main/src/file_module.py:13 | a text without carriage returns is read unchanged |
| FileCodec.NewlinesPrefix | lab-2-main/src/file_module.py:13 | translation works left to right: a prefix without carriage returns is kept and the rest is translated on its own |
| FileCodec.SplitLines | lab-2-main/src/file_module.py:14 | the text cut at each "\n", without a final empty line: no line holds a line feed, every line is a piece of the split, none for the empty text |
| FileCodec.ParseLines | lab-2-main/src/file_module.py:14-15 | all or nothing: Some exactly when every stripped line is an integer; then one value per line, each the line's integer |
| FileCodec.InputFile | lab-2-main/src/file_module.py:1-29 | a missing or unreadable file gives None; otherwise, over the lines of the translated text, Some exactly when every stripped line is an integer, with one value per line; an empty file gives the empty list |
| FileCodec.SavedText | lab-2-main/src/file_module.py:32-48 | each element's decimal form followed by "\n"; a non-empty list's text ends in a line feed |
| FileCodec.SaveThenLoad | lab-2-main/src/file_module.py:14-15 | loading what save_to_file wrote gives the same list back |
| FileCodec.JoinedThenLoad | lab-2-main/src/file_module.py:14-15 | a list written one number per line without a final line feed loads back too |
| FileCodec.FirstLineNotInteger | lab-2-main/src/file_module.py:13-25 | a first line, without line breaks, that is not an integer once stripped (a blank or a word) makes loading give None, whatever follows |
| FileCodec.WordsFileIsNone | lab-2-main/src/file_module.py:20-25 | the test file of words loads as None |
| FileCodec.CarriageReturnsEndLines | lab-2-main/src/file_module.py:13-15 | "1\r2\r" and "1\r\n2\r\n" both load as [1, 2] |
| FileCodec.LoadTranslated | lab-2-main/src/file_module.py:13-15 | any text that translates to what save_to_file writes loads as the saved list |
| CliMain.NormalizeName | lab-2-main/main.py:37-38 | ".txt" is appended exactly when the name lacks it; the result always ends with ".txt" and starts with the name |
| CliMain.NormalizeIdempotent | lab-2-main/main.py:37-38 | normalising twice equals normalising once |
| CliMain.OverwriteAnswers | lab-2-main/main.py:41-44 | exactly the answers "y" and "Y" confirm an overwrite |
| CliMain.StartRound | lab-2-main/main.py:14-51 | a None from filling skips the round; otherwise the list is sorted with 5 buckets, and a file is written exactly when saving was chosen and the normalised name is new or the overwrite was confirmed; the file holds the saved form of the sorted list |
| Text.TrimStart | lab-2-web/frontend/src/components/form/input/FileArrayForm.js:80 | a suffix of the input; everything dropped is whitespace; a non-empty result does not start with whitespace |
| Text.TrimEnd | lab-2-web/frontend/src/components/form/input/FileArrayForm.js:80 | a prefix of the input; everything dropped is whitespace; a non-empty result does not end with whitespace |
| Text.StripSpec | lab-2-main/src/file_module.py:14 | `strip`/`trim` gives the middle slice of the text; the parts cut off on both sides are whitespace; a non-empty result has no whitespace at either end |
| Text.Split | lab-2-web/frontend/src/components/form/input/FileArrayForm.js:78 | `split(sep)` gives one piece more than there are separators, and no piece contains the separator |
| Text.JoinSplit | lab-2-web/frontend/src/components/form/input/FileArrayForm.js:78 | joining the pieces with the separator gives back the text |
| Text.SplitJoin | lab-2-web/frontend/src/components/form/input/KeyboardArrayForm.js:58 | splitting a join of separator-free pieces gives back the pieces |
| Text.SplitConcat | lab-2-web/frontend/src/components/form/input/FileArrayForm.js:78 | a text cut at one separator splits as the part before it followed by the part after it |
| Text.SplitAvoids | lab-2-main/src/file_module.py:14 | a character the text does not hold appears in none of its pieces |
| Text.Lower | lab-2-main/main.py:43 | `lower()` on ASCII: keeps the length, maps each ASCII capital letter to its small letter and keeps every other character |
| Decimal.NatToString | lab-2-main/src/file_module.py:42 | a non-empty string of digits with no leading zero whose value is n |
| Decimal.IntToString | lab-2-main/src/file_module.py:42 | `str(i)`: a minus sign exactly for negatives, then the digits of the absolute value |
| Decimal.ParseInteger | lab-2-main/src/file_module.py:15 | `int(text)`: Some exactly on integer text; the sign of the result follows the text's sign |
| Decimal.ParseIntToString | lab-2-main/src/file_module.py:15 | `int(str(x)) == x` |
| Decimal.JsParseInt | lab-2-web/frontend/src/components/form/input/RandomArrayForm.js:50-52 | `parseInt`: a number exactly when the text, after leading whitespace, starts with an optionally signed digit |
| Decimal.JsParseIntOfIntegerText | lab-2-web/frontend/src/components/form/input/RandomArrayForm.js:50-52 | on integer text, `parseInt` agrees with `int` |
| Decimal.JsParseIntPrefix | lab-2-web/frontend/src/components/form/input/FileArrayForm.js:80 | `parseInt` reads the leading integer and ignores whatever follows a non-digit |
| Tokens.ParseToken | lab-2-web/frontend/src/components/form/input/KeyboardArrayForm.js:58-62 | "" and "-" stay as they are; integer text reads as its value; anything else reads as 0 |
| Tokens.ParseText | lab-2-web/frontend/src/components/form/input/KeyboardArrayForm.js:58-62 | one value per space-separated piece, in order, so the length is the number of spaces plus one |
| Tokens.ReparseJoined | lab-2-web/frontend/src/components/form/input/DatabaseArrayForm.js:93-97 | values the rule could produce, joined by single spaces, parse back to themselves |
| Tokens.ReparseDisplayed | lab-2-web/frontend/src/components/form/input/KeyboardArrayForm.js:58-64 | parsing the displayed text of a parse gives the same values: parse(join(parse(s))) = parse(s) |
| Tokens.ToNumber | lab-2-web/frontend/src/components/form/CreateArrayForm.js:54-58 | `Number(x)`: a number stays itself, "" is 0, "-" is not an integer, and other text is an integer exactly when it is integer text |
| Tokens.ToNumbers | lab-2-web/frontend/src/components/form/CreateArrayForm.js:54-58 | `map(Number)` keeps the length and coerces each element |
| Tokens.ToNumberOfDecimal | lab-2-web/frontend/src/components/form/input/RandomArrayForm.js:78 | a decimal string coerces to the integer it spells |
| Api.FetchUrl | lab-2-web/frontend/src/api/api.js:46-48 | a truthy searchId selects the single-record URL and ignores the page; otherwise the page URL is used |
| Api.FetchData | lab-2-web/frontend/src/api/api.js:36-74 | one GET of FetchUrl; a 200 gives one record with the count untouched (search) or the results and their count (listing); a 404 gives [] and no error; any other failure gives the default message and leaves the list and count alone |
| Api.Settle | lab-2-web/frontend/src/api/api.js:13-19 | the shared shape of the request helpers: a failure without an onError sink throws; with one it reports the default message; success means the expected status |
| Api.CreateArray | lab-2-web/frontend/src/api/api.js:89-103 | a record comes back exactly on 201, and it is the reply's body |
| Api.EditArray | lab-2-web/frontend/src/api/api.js:120-140 | nothing comes back; success exactly on 200 |
| Api.DeleteArray | lab-2-web/frontend/src/api/api.js:156-166 | nothing comes back; success exactly on 204 |
| Api.SortArray | lab-2-web/frontend/src/api/api.js:181-193 | the body comes back exactly on 200 |
| Api.OtherSuccessStatusIsSilent | lab-2-web/frontend/src/api/api.js:95-99 | a reply with another success status calls neither callback and returns nothing |
| SortedArrayForm.PerformBucketSort | lab-2-web/frontend/src/components/form/output/SortedArrayForm.js:18-36 | posts a sort of the given id; rejects exactly when the request failed, having no onError; a 200 body sets the sorted array and the execution time; otherwise the outputs do not change; the time line (line 61) is shown after a 200 and otherwise stays as it was |
| SortedArrayForm.ArrayContext.constructor | lab-2-web/frontend/src/components/form/output/SortedArrayForm.js:45 | no sorted array and no execution time at first, so the time line (line 61) is hidden |
| SortedArrayForm.ArrayContext.SortedText | lab-2-web/frontend/src/components/form/output/SortedArrayForm.js:57 | the output text is empty exactly when there is no sorted array; cut at each "," it has one piece per sorted value, and piece i, trimmed, is value i's decimal form and reads back as value i |
| CreateArrayForm.Draft.Length | lab-2-web/frontend/src/components/form/CreateArrayForm.js:33 | `array.length`: the element count of an array draft; undefined for the whole-array object |
| CreateArrayForm.Coerce | lab-2-web/frontend/src/components/form/CreateArrayForm.js:52-58 | in whole-array mode Number is mapped over the draft's data, otherwise over the draft, keeping the length; a draft of the wrong shape throws |
| CreateArrayForm.CreateForm.constructor | lab-2-web/frontend/src/components/form/CreateArrayForm.js:24-35 | method keyboard, count "10", min "1", max "100", an empty draft, not saving, no error and no info |
| CreateArrayForm.CreateForm.HandleSubmit | lab-2-web/frontend/src/components/form/CreateArrayForm.js:47-76 | clears error and info first; the save path sends exactly one create, sets "added" only when a record came back, and resets isSaving; the sort path goes through HandleSort; the draft and the other fields are kept |
| CreateArrayForm.CreateForm.HandleSort | lab-2-web/frontend/src/components/form/CreateArrayForm.js:86-104 | one create; a sort of the new record's id only when a record came back; "added and sorted" only when that sort did not reject; the output changes only on a 201 then a 200 |
| CreateArrayForm.CreateForm.HandleFillMethodChange | lab-2-web/frontend/src/components/form/CreateArrayForm.js:113-122 | switches the method, empties the draft, clears info and error, sets the file valid and leaves whole-array input; the count, min, max, current element, selection and isSaving are kept |
| KeyboardArrayForm.HandleWholeArrayInputChange | lab-2-web/frontend/src/components/form/input/KeyboardArrayForm.js:43-46 | flips whole-array input and empties the draft |
| KeyboardArrayForm.HandleInputChange | lab-2-web/frontend/src/components/form/input/KeyboardArrayForm.js:55-65 | the draft's data becomes the parse of the text, with one value per space-separated piece |
| KeyboardArrayForm.WholeText | lab-2-web/frontend/src/components/form/input/KeyboardArrayForm.js:109 | an array draft shows as "" in the whole-array textarea; for a non-empty object draft whose values the token rule could produce, the text parses back to exactly those values |
| KeyboardArrayForm.HandleCurrentElementChange | lab-2-web/frontend/src/components/form/input/KeyboardArrayForm.js:130 | the typed text becomes the current element |
| KeyboardArrayForm.HandleInputBlur | lab-2-web/frontend/src/components/form/input/KeyboardArrayForm.js:73-78 | a non-empty current element is appended to the end of the draft and cleared; an empty one changes nothing |
| KeyboardArrayForm.ButtonsDisabledIffEmpty | lab-2-web/frontend/src/components/form/input/KeyboardArrayForm.js:145-153 | both submit buttons are disabled exactly for the empty array draft |
| KeyboardArrayForm.TypedElementIsSent | lab-2-web/frontend/src/components/form/input/KeyboardArrayForm.js:73-78 | an element typed as a number is sent as that integer after the earlier ones |
| RandomArrayForm.Check | lab-2-web/frontend/src/components/form/input/RandomArrayForm.js:54-72 | the intended validation: a non-number min, max or count is rejected first, then count ≤ 0, then count ≥ 3,000,000, then min ≥ max; otherwise accepted with the parsed values |
| RandomArrayForm.CheckAsWritten | lab-2-web/frontend/src/components/form/input/RandomArrayForm.js:54-72 | the validation as written, first failure winning: the NaN message exactly when min or count is NaN; the count messages exactly when min and count are numbers and count ≤ 0, or count ≥ 3000000; the min-max message exactly when the counts pass, max is a number and min ≥ max; an accepted verdict holds the values read, a count in (0, 3000000) and, when max is a number, min < max |
| RandomArrayForm.ChecksAgreeOnNumericMax | lab-2-web/frontend/src/components/form/input/RandomArrayForm.js:54-72 | when max reads as a number the two validations agree |
| RandomArrayForm.Pick | lab-2-web/frontend/src/components/form/input/RandomArrayForm.js:75-77 | floor(draw·(max−min+1)+min) lies in [min, max] for a draw in [0, 1) |
| RandomArrayForm.Generated | lab-2-web/frontend/src/components/form/input/RandomArrayForm.js:74-79 | exactly count elements: decimal strings of integers in [min, max] when max is a number, the string "NaN" when it is not |
| RandomArrayForm.HandleAddRandomArray | lab-2-web/frontend/src/components/form/input/RandomArrayForm.js:49-83 | the handler as written, on the as-written checks: a rejection sets its message and leaves the draft; acceptance sets the generated draft of between 1 and 2999999 cells (count copies of "NaN" when max is not a number) and clears the error |
| RandomArrayForm.CountCheckedDespiteNaNMax | lab-2-web/frontend/src/components/form/input/RandomArrayForm.js:54-62 | with min "1", an empty max and count "0", the checks as written still reject with the count message |
| RandomArrayForm.HandleAddRandomArrayChecked | lab-2-web/frontend/src/components/form/input/RandomArrayForm.js:49-83 | the same handler on the intended checks: a rejection sets its message and leaves the draft; acceptance sets a draft of count integers in [min, max] and clears the error |
| RandomArrayForm.RandomDraftIsSent | lab-2-web/frontend/src/components/form/input/RandomArrayForm.js:74-82 | a generated draft coerces to count integers in [min, max] |
| RandomArrayForm.MaxNotANumberSlipsThrough | lab-2-web/frontend/src/components/form/input/RandomArrayForm.js:54-57 | with min "1", an empty max and count "10", the code as written accepts and fills the draft with "NaN", which is not an integer; the intended check rejects |
| FileArrayForm.LineValues | lab-2-web/frontend/src/components/form/input/FileArrayForm.js:79-82 | one `parseInt(line.trim())` per line, in order |
| FileArrayForm.Present | lab-2-web/frontend/src/components/form/input/FileArrayForm.js:83 | drops the NaN lines: no longer than its input, every kept value read from some line, and empty exactly when every line is NaN |
| FileArrayForm.PresentAppend | lab-2-web/frontend/src/components/form/input/FileArrayForm.js:83 | filtering keeps order: filtering a concatenation is filtering each part and concatenating |
| FileArrayForm.PresentSingle | lab-2-web/frontend/src/components/form/input/FileArrayForm.js:83 | a single value is kept exactly when it is a number, and a NaN is dropped |
| FileArrayForm.ParseFileContent | lab-2-web/frontend/src/components/form/input/FileArrayForm.js:76-84 | at most one value per line, each the value `parseInt` reads from some trimmed line |
| FileArrayForm.ParseFileContentConcat | lab-2-web/frontend/src/components/form/input/FileArrayForm.js:76-84 | the text before a line feed and the text after it are read separately, and their numbers follow each other in file order |
| FileArrayForm.ParseFileContentLine | lab-2-web/frontend/src/components/form/input/FileArrayForm.js:76-84 | a single line gives [n] when `parseInt` reads n from it trimmed, and nothing when it reads NaN |
| FileArrayForm.SavedFileLoads | lab-2-web/frontend/src/components/form/input/FileArrayForm.js:76-84 | a file in the console program's saved format parses to exactly its list |
| FileArrayForm.LeadingIntegerKept | lab-2-web/frontend/src/components/form/input/FileArrayForm.js:80-81 | a line with an integer followed by a non-digit keeps that leading integer ("12abc" gives 12) |
| FileArrayForm.HandleFileLoad | lab-2-web/frontend/src/components/form/input/FileArrayForm.js:56-67 | a non-empty parse replaces the draft and sets the file valid; an empty one sets the error and invalid, leaving the draft |
| FileArrayForm.HandleFileError | lab-2-web/frontend/src/components/form/input/FileArrayForm.js:92-95 | sets the read-error message and invalid, leaving the draft |
| FileArrayForm.HandleFileChange | lab-2-web/frontend/src/components/form/input/FileArrayForm.js:104-118 | clears the error; starts a read exactly for a chosen ".txt" file; another name sets the error and invalid |
| FileArrayForm.ChooseFile | lab-2-web/frontend/src/components/form/input/FileArrayForm.js:42-47 | choosing a file and its read ending, as one step: only a ".txt" file that was read changes the draft, as HandleFileLoad says; the sort button (`disabled={!isFileValid || array.length === 0}`, line 159) is enabled after a read file exactly when it held a number, and disabled after a wrong name or a read error |
| FileArrayForm.LoadedFileSortable | lab-2-web/frontend/src/components/form/input/FileArrayForm.js:151-159 | after a non-empty load the sort button is enabled |
| DatabaseArrayForm.Listing.constructor | lab-2-web/frontend/src/components/form/input/DatabaseArrayForm.js:34-36 | page 1, a count of 0 and no listed arrays |
| DatabaseArrayForm.Listing.Fetch | lab-2-web/frontend/src/components/form/input/DatabaseArrayForm.js:49-70 | fetches the current page with no search; a 200 lists its results and count; a 404 empties the list; other failures set the error; the table and pagination (line 119) are shown after a 200 exactly when it listed records, hidden after a 404, and unchanged after a failure |
| DatabaseArrayForm.Listing.SetPage | lab-2-web/frontend/src/components/form/input/DatabaseArrayForm.js:68-70 | a page change fetches the new page; the same page fetches nothing |
| DatabaseArrayForm.HandleArraySelect | lab-2-web/frontend/src/components/form/input/DatabaseArrayForm.js:79-81 | the draft becomes the chosen record's data |
| DatabaseArrayForm.HandleInputChange | lab-2-web/frontend/src/components/form/input/DatabaseArrayForm.js:90-104 | the draft becomes the parse of the text by the shared token rule |
| DatabaseArrayForm.SelectedRecordRoundTrip | lab-2-web/frontend/src/components/form/input/DatabaseArrayForm.js:139 | a selected list of numbers, shown joined by spaces and parsed back, is unchanged |
| DatabaseArrayForm.SelectedRecordSubmittable | lab-2-web/frontend/src/components/form/input/DatabaseArrayForm.js:142-160 | the buttons are disabled exactly for at most one element, and the field exactly for none |
| ArraysPage.PageState.constructor | lab-2-web/frontend/src/pages/ArraysPage.jsx:23-29 | page 1, no search, no arrays, no count, no error, modal closed, nothing sent |
| ArraysPage.PageState.Refetch | lab-2-web/frontend/src/pages/ArraysPage.jsx:31-40 | one GET for the current search and page; list, count and error become what FetchData gives; with no search id the total (line 146) is shown exactly when the listing request did not fail, and after a 200 it is the count the server gave |
| ArraysPage.PageState.SetPage | lab-2-web/frontend/src/pages/ArraysPage.jsx:50-52 | a page change refetches; the same page does not |
| ArraysPage.PageState.SetSearchId | lab-2-web/frontend/src/pages/ArraysPage.jsx:50-52 | a search change refetches; the same search does not |
| ArraysPage.PageState.HandleSave | lab-2-web/frontend/src/pages/ArraysPage.jsx:63-73 | sends the coerced data, unsorted; refetches only on 200; rejects exactly on a failed request |
| ArraysPage.PageState.HandleSort | lab-2-web/frontend/src/pages/ArraysPage.jsx:84-100 | updates as unsorted first; sorts only after a 200 update; refetches only after a 200 sort |
| ArraysPage.PageState.HandleDelete | lab-2-web/frontend/src/pages/ArraysPage.jsx:111-117 | deletes by id; refetches only on 204 |
| ArraysPage.PageState.HandleEdit | lab-2-web/frontend/src/pages/ArraysPage.jsx:127-130 | stores the record and opens the modal |
| ArraysPage.PageState.CloseModal | lab-2-web/frontend/src/pages/ArraysPage.jsx:168 | closes the modal and changes nothing else |
| ArraysPage.PageState.CurrentView | lab-2-web/frontend/src/pages/ArraysPage.jsx:149-155 | the error if there is one; otherwise the table exactly for a non-empty list, else "not found" |
| ArraysPage.TotalShownWithListing | lab-2-web/frontend/src/pages/ArraysPage.jsx:146 | the total is shown exactly when there is no search id and no error message; the list is then the one fetched by page |
| EditArrayModal.EditModal.constructor | lab-2-web/frontend/src/components/modal/EditArrayModal.js:28 | the edited copy starts as the record |
| EditArrayModal.EditModal.Resync | lab-2-web/frontend/src/components/modal/EditArrayModal.js:40-42 | a new record resets the edited copy to it |
| EditArrayModal.EditModal.HandleInputChange | lab-2-web/frontend/src/components/modal/EditArrayModal.js:51-61 | only the copy's data changes, to the parse of the text; the text shown then reads back as that data |
| EditArrayModal.EditModal.Text | lab-2-web/frontend/src/components/modal/EditArrayModal.js:119 | the textarea shows the data joined by spaces; data the parsing rule could produce (non-empty, each a number, "" or "-") reads back from it unchanged |
| EditArrayModal.EditModal.SaveChangesEdit | lab-2-web/frontend/src/components/modal/EditArrayModal.js:69-72 | the page PUTs the edited data under the original's id, unsorted; a 200 refetches the listing and shows its effect, anything else leaves the list, count and error alone; the modal closes either way |
| EditArrayModal.EditModal.SaveChangesSort | lab-2-web/frontend/src/components/modal/EditArrayModal.js:91-94 | the page PUTs the edited data under the original's id; only a 200 to it sends the sort; only a 200 to the sort refetches; the modal closes either way |
| EditArrayModal.EditModal.SaveChangesDelete | lab-2-web/frontend/src/components/modal/EditArrayModal.js:80-83 | the page DELETEs the original's id, whatever was edited; a 204 refetches the listing, anything else leaves the list, count and error alone; the modal closes either way |
| ArrayPagination.LastPage | lab-2-web/frontend/src/components/pagination/ArrayPagination.js:31 | ceil(numArrays / 50): the first page p with numArrays ≤ 50·p |
| ArrayPagination.Target | lab-2-web/frontend/src/components/pagination/ArrayPagination.js:20-33 | First goes to 1, Prev to page−1, Next to page+1, Last to the last page |
| ArrayPagination.LastPageOf120 | lab-2-web/frontend/src/components/pagination/ArrayPagination.js:30-31 | 120 arrays make 3 pages |
| ArrayPagination.EnabledBackwardsStaysOnPages | lab-2-web/frontend/src/components/pagination/ArrayPagination.js:20-24 | an enabled First or Prev never targets a page below 1 |
| ArrayPagination.ShownLastPageBeyondFirst | lab-2-web/frontend/src/components/pagination/ArrayPagination.js:18-33 | when the controls are shown there is more than one page |
| ArrayPagination.ControlsShownIffSeveralPages | lab-2-web/frontend/src/components/pagination/ArrayPagination.js:18 | the controls (`numArrays > 50`) are shown exactly when there are at least two pages; an undefined count shows none |
| ArrayPagination.PageLength | lab-2-web/frontend/src/components/pagination/ArrayPagination.js:26-32 | a page of a listing holds at most 50 records; it is full exactly when the arrays reach its end, and empty exactly when they end before it |
| ArrayPagination.ForwardEnabledIffFullPage | lab-2-web/frontend/src/components/pagination/ArrayPagination.js:26-32 | Next and Last (`disabled={arraysLength < 50}`) are enabled exactly when the arrays reach the end of the page shown |
| ArrayPagination.FullLastPageLeavesNextEnabled | lab-2-web/frontend/src/components/pagination/ArrayPagination.js:26-32 | with 100 arrays page 2 is full, so Next stays enabled and asks for page 3, beyond the last page |
| SearchForm.Shown | lab-2-web/frontend/src/components/form/SearchForm.js:20 | no searchId shows as ""; a searchId shows as itself |
| SearchForm.Entered | lab-2-web/frontend/src/components/form/SearchForm.js:21 | empty text gives no searchId; other text passes through verbatim |
| SearchForm.ShownEntered | lab-2-web/frontend/src/components/form/SearchForm.js:20-21 | entering text and showing it gives the text back |
| SearchForm.EnteredShown | lab-2-web/frontend/src/components/form/SearchForm.js:20-21 | showing a searchId and entering it again gives the same searchId |
| ArrayTable.Preview | lab-2-web/frontend/src/components/table/ArrayTable.js:40-42 | more than 30 elements: the first 30 joined by ", " and then "..."; otherwise all of them joined by ", " |
| ArrayTable.Rows | lab-2-web/frontend/src/components/table/ArrayTable.js:30-42 | one row per record, in order, with its id, preview and sorted mark |
| ArrayTable.EllipsisIffCut | lab-2-web/frontend/src/components/table/ArrayTable.js:40-42 | a preview of numbers ends with "..." exactly when the data has more than 30 elements |
| ArrayTable.PreviewReadsBack | lab-2-web/frontend/src/components/table/ArrayTable.js:40-42 | the shown numbers are the first ones: the preview without its "..." cut at each "," has one piece per shown element (at most 30), and piece i, trimmed, reads as element i |

## Left out

- Console menus, `print`, `input`, file opening and `fill_array` are left out. They become parameters: the filled list, the menu choice, a test for whether a file exists and the user's answer. `FileCodec.InputFile` takes the file's text, or the way reading failed.
- The clock is left out. `SortView.ArrayStore.SortView` takes the time of saving and the execution time as parameters. The millisecond rounding at views.py:91 is not modelled.
- Database, HTTP, JSON decoding and axios are left out. A request body arrives already decoded as `SortRequest`. A reply arrives as `Outcome<T>`. Non-integer record ids are not modelled.
- Concurrency is left out. Handlers run to completion one at a time, and each awaited reply is given up front. The promise that `performBucketSort` and `fetchData` leave floating, and the order in which overlapping replies land, are not modelled.
- React rendering, markup, dates and icons are left out. Date formatting in the table is kept as the record's text. The requirement that each input-form handler runs under its own fill method stands for "exactly one input form is rendered".
- `BucketSorting.BucketSort` and `CliSorting.BucketSort` require n ≥ 2. With n ≤ 0 the code fails on an index. With n = 1 a bucket of more than 32 items recurses forever. Both callers pass 5.
- `Decimal.ParseInteger` accepts ASCII digits with an optional sign and no underscores. Python's `int` also accepts digit separators and non-ASCII digits.
- `Text.StripSpec`, `Text.TrimStart` and `Text.TrimEnd` take as whitespace exactly six characters: space, tab, line feed, vertical tab, form feed and carriage return. Python's `str.strip` also removes the separators U+001C to U+001F, U+0085, U+00A0 and the other Unicode spaces. JavaScript's `trim` also removes U+00A0, U+FEFF, U+2028, U+2029 and the other Unicode space separators. Text holding those at either end is trimmed less in the model.
- `SortView.ArrayStore.SortView` takes stored elements to be integers or null. A stored float, such as 1.5 typed into a number field, is not modelled. With it `bucket_sort` computes a float bucket index at sorting.py:34 and the view answers 500, unless every element is equal and the early return at sorting.py:24-25 keeps the data as it is.
- `Decimal.JsParseInt` does not read the "0x" hexadecimal prefix. `Tokens.ToNumber` treats any non-integer text, including fractions, exponents and hexadecimal, as not an integer. JavaScript's number precision (integers beyond 2^53) is not modelled.
- `RandomArrayForm.Pick` takes the random draw as a real in [0, 1) given by a parameter. Floating-point rounding of `Math.random() * range + min` is not modelled.
- The Save button's `setIsSaving(true)` click is not a separate step. It appears as the `isSaving` field already being set when `CreateArrayForm.CreateForm.HandleSubmit` runs.
- The `useEffect` that refetches on an `apiUrl` change is left out. The API base URL is not part of the model.
- `Text.Lower` lowercases ASCII letters only. Python's `str.lower` also lowercases other letters, and a few of them become two characters. The one use, the overwrite answer compared with "y" at main.py:43-44, decides the same either way: no other character lowercases to "y".
- `FileCodec.InputFile` takes the file's decoded text. The bytes and their decoding with the locale's encoding are left out. A decoding error is a `ValueError` and gives None, like the `ReadFailed` outcome.
- `ArrayPagination.PageLength` uses pages of 50 records, as the controls assume. The server's page size comes from the Django settings, which are not part of this model.
- `FileArrayForm.ParseFileContent`: its own contract does not state "empty exactly when every line is NaN". That property is stated and proved on `FileArrayForm.Present`, which ParseFileContent applies to the line values.

## Findings

| source | as written | input that shows it | evidently intended | confidence | as-written member | corrected member |
|---|---|---|---|---|---|---|
| lab-2-web/frontend/src/components/form/input/RandomArrayForm.js:54-57 | only min and count are checked for NaN, though the message names min and max; a NaN max passes `minVal >= maxVal` (false) and the draft is filled with the string "NaN" | min "1", max "" (empty field), count "10" | reject a max that does not read as a number with the "min and max must be numbers" message | not executed | RandomArrayForm.MaxNotANumberSlipsThrough | RandomArrayForm.Check, RandomArrayForm.HandleAddRandomArrayChecked |
