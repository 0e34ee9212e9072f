# Document verifier: a Dafny model of its core

The document verifier has two parts:

- a web client where a user uploads a PDF of a legal document (sale, gift, rental or power of authority) and types in the values they expect it to contain;
- a server that extracts the text of the PDF and compares it, field by field, with those values.

This project models the logic at the centre of both parts and proves properties of it.

**Server (`server/server.js`).**

- *Page text* (module `Layout`): text items are grouped into lines by their rounded vertical position. Lines are read top to bottom and the items of a line left to right. `GroupByLine` fills a map of lines, `SortLineByX` sorts one line in place in an `array` by insertion, and `ReconstructPage` builds the page text.
- *String helpers* (`JsStrings`, `Helpers`): the JavaScript built-ins the server relies on (`trim`, `split`, `join`, the whitespace-collapsing replaces, `toLowerCase`), plus `normalizeForComparison` and `extractValue`.
- *Regular expressions* (`Patterns`): every pattern of the core is a dedicated backtracking matcher. Alternatives are tried in order and greedy or lazy repetition is followed, as in ECMA-262. `exec` reports the leftmost match.
- *Extraction* (`Extraction`): `extractName` tries three strategies in order (a label, the "between … and …" phrase, then a fuzzy match against the user's hint). `extractLocation` looks for the first address-like line, then falls back to a "Flat …" clause.
- *Comparison* (`Verification`):
  - `pushResult` is a method of a `Report` class whose `details` field it extends.
  - `compareRentalFields` pushes the six rental fields and decides between "Original" and "Fake".
  - `generateAnalysis` writes the narrative.
  - The request handler checks that page images exist and that the PDF has a text layer, then joins the page texts.

**Client (`client/src/Components/Uploads/Uploads.jsx`, module `Uploads`).**

- The per-type form state is a map from document type to an ordered list of (field, value) pairs. It is ordered because a JavaScript object keeps keys that are not integers, such as these field names, in insertion order, and that order decides the order of the request body.
- `handleChange` and `handleDateChange` update one field.
- `formatDateForSubmission` turns `yyyy-mm-dd` into `dd-mm-yyyy`.
- `mapSelectedTypeToKey` maps a document-type label to its key.
- `handleSubmit` validates the input, reformats the date fields of a copy of the form (`FormatDates`) and appends every field to the request body in a loop.

**Similarity.** `compareTwoStrings` of the string-similarity library is a parameter `sim` of the model, and its thresholds (0.7 and 0.5) are strict, as in the code. `findBestMatch` is modelled as the first target with the highest rating.

**The "between" pattern.** It is written `([A-Za-z.\s]{4,40?})`. Under the JavaScript grammar for web browsers, `{4,40?}` is not a quantifier. It is read as one character of the class followed by the literal text `{4,4`, an optional `0` and `}`. The model follows the code, so a name found by this strategy ends in `{4,4}` or `{4,40}` (`Extraction.IsBetweenName`), not in a run of 4 to 40 letters.

## Model

| member | source | states |
|---|---|---|
| Layout.Round | server/server.js:58 | the rounded vertical position is the integer nearest the item's position, halves rounding up |
| Layout.OnLineSpec | server/server.js:55-61 | the tokens grouped under a line key are exactly the input tokens with that rounded position; the group is empty iff no token has it |
| Layout.KeysSpec | server/server.js:59-64 | the line keys are distinct, and a key is present iff some token lies on that line |
| Layout.InsertDescendingSpec | server/server.js:65 | inserting a new key into a strictly descending key list keeps it strictly descending and adds exactly that key |
| Layout.SortDescendingSpec | server/server.js:63-65 | the sorted keys are a permutation of the keys and, when distinct, strictly descending |
| Layout.DescendingPairs | server/server.js:65 | in the sorted keys every earlier line key is larger than every later one |
| Layout.InsertByXSorted | server/server.js:70 | one insertion step keeps a line ordered by horizontal position |
| Layout.InsertByXPermutes | server/server.js:70 | one insertion step adds exactly the inserted token |
| Layout.InsertByXStable | server/server.js:70 | one insertion step keeps tokens with equal horizontal position in input order |
| Layout.SortByXSpec | server/server.js:70 | the sorted line is ordered by horizontal position and is a permutation of the line |
| Layout.SortByXStable | server/server.js:70 | the sort is stable: tokens at the same horizontal position keep their input order |
| Layout.InsertInPlace | server/server.js:70 | moving the element at `i` left into the sorted prefix leaves the array equal to the prefix with that element inserted, followed by the untouched rest |
| Layout.SortLineByX | server/server.js:70 | sorting a line in place leaves the array equal to the stable sort of its old contents |
| Layout.LinesShape | server/server.js:63-67 | there is one line per distinct rounded position, the lines come in strictly descending position order, and every token's position is among them |
| Layout.LineShape | server/server.js:67-72 | every line is non-empty, holds only tokens of its position, is ordered by horizontal position, and is a permutation of those tokens in stable order |
| Layout.PageTextLines | server/server.js:67-74 | a page without items gives the empty text; otherwise splitting the page text at newlines gives back the line texts, and there is one newline fewer than there are distinct positions |
| Layout.GroupByLine | server/server.js:54-61 | the dictionary of lines built item by item maps each line key to the tokens on that line in input order, and its key list holds each line key once |
| Layout.SortedLineText | server/server.js:69-72 | a line's text is its words, sorted by horizontal position, joined with single spaces |
| Layout.ReconstructPage | server/server.js:53-74 | the text built line by line equals the specified page text |
| Layout.ExtractPages | server/server.js:49-92 | the page loop produces the page text of every page, in page order |
| JsStrings.TrimSpec | server/server.js:112 | `trim` removes exactly the leading and trailing whitespace and keeps the middle |
| JsStrings.TrimKeepsText | server/server.js:112 | `trim` keeps every character that is not whitespace, in order |
| JsStrings.CollapseSpacesWord | server/server.js:123 | `replace(/\s+/g, " ")` copies a stretch without whitespace unchanged and goes on with the rest |
| JsStrings.CollapseSpacesGap | server/server.js:123 | `replace(/\s+/g, " ")` turns a whole whitespace run into exactly one space; with the previous row this fixes the result for every input |
| JsStrings.CollapseSpacesKeepsText | server/server.js:123 | `replace(/\s+/g, " ")` keeps every character that is not whitespace, in order |
| JsStrings.CollapseNewlinesWord | server/server.js:217 | `replace(/\n+/g, " ")` copies a stretch without newlines unchanged |
| JsStrings.CollapseNewlinesGap | server/server.js:217 | `replace(/\n+/g, " ")` turns a whole run of newlines into exactly one space; with the previous row this fixes the result for every input |
| JsStrings.SquashRuns | server/server.js:160 | after `replace(/\s{2,}/g, " ")` no two whitespace characters are adjacent, and the first and last characters stay whitespace or not as they were |
| JsStrings.SquashRunsWord | server/server.js:160 | `replace(/\s{2,}/g, " ")` copies a stretch without whitespace unchanged |
| JsStrings.SquashRunsGap | server/server.js:160 | `replace(/\s{2,}/g, " ")` turns a whole run of two or more whitespace characters into one space and keeps a single one; with the previous row this fixes the result for every input |
| JsStrings.SquashRunsKeepsText | server/server.js:160 | `replace(/\s{2,}/g, " ")` keeps every character that is not whitespace, in order |
| JsStrings.SplitRunsWord | server/server.js:198 | `split(/\n+/)` puts the characters before the first newline into the first part |
| JsStrings.SplitRunsGap | server/server.js:198 | `split(/\n+/)` ends a part at a whole run of newlines; with the previous row this fixes the result for every input |
| JsStrings.SplitRunsJoin | server/server.js:198 | `split(/\n+/)` gives back the parts joined with newlines when no part holds a newline and only the first and last may be empty |
| JsStrings.Split | client/src/Components/Uploads/Uploads.jsx:58 | `split` at a character yields at least one part, none containing the separator |
| JsStrings.SplitJoin | server/server.js:74 | joining parts free of the separator and splitting again gives the parts back |
| JsStrings.SplitCount | server/server.js:74 | splitting gives one more part than there are separators |
| JsStrings.JoinSnoc | server/server.js:341 | joining one more part appends the separator and that part |
| Helpers.NormalizeForComparison | server/server.js:103-108 | a null or empty value normalises to the empty string; the result contains only lower-case ASCII letters, digits and `_` |
| Helpers.NormalizeIsWordChars | server/server.js:103-108 | normalising is keeping the word characters of the lower-cased value (the whitespace step is subsumed) |
| Helpers.NormalizeIdempotent | server/server.js:103-108 | normalising a normalised value changes nothing |
| Helpers.NormalizeIgnoresNonWord | server/server.js:103-108 | inserting a space or punctuation character anywhere does not change the normalised value |
| Helpers.NormalizeIgnoresCase | server/server.js:103-108 | capitalising a letter anywhere does not change the normalised value |
| Helpers.LowerCaseHasNoCapitals | server/server.js:105 | `toLowerCase` leaves no ASCII capital |
| Helpers.TidyKeepsText | server/server.js:160 | tidying (`trim`, then `replace(/\s{2,}/g, " ")`) keeps every character that is not whitespace, in order |
| Helpers.TidyIdempotent | server/server.js:160 | tidying twice is tidying once |
| Helpers.TidyWithoutSpaces | server/server.js:160 | a value without whitespace is left unchanged |
| Helpers.ExtractValue | server/server.js:110-113 | the result is null exactly when the pattern matches nowhere; otherwise it is the capture tidied: trimmed, without whitespace runs, and holding the capture's non-whitespace characters in order |
| Patterns.DateAt | server/server.js:243-264 | a date match at a position spans a text of the date shape; none exists iff no length fits |
| Patterns.DateLength | server/server.js:245 | a date is 8 to 10 characters and begins and ends with a digit |
| Patterns.MatchCaptures | server/server.js:111 | whenever a pattern matches, the capture has the shape of the pattern's capture group |
| Patterns.FirstTrue | server/server.js:111 | the first position that succeeds is reported, and none before it succeeds |
| Patterns.ExecLeftmost | server/server.js:111 | `exec` reports a match at the leftmost position where the pattern matches, or none when it matches nowhere |
| Patterns.Search | server/server.js:111 | the capture is missing iff the pattern matches nowhere, and otherwise has the capture group's shape |
| Patterns.LabelAfter | server/server.js:126-130 | a label capture is a name capture |
| Patterns.CandidateShape | server/server.js:144 | each potential name is two or more capitalised words separated by whitespace |
| Patterns.ChainEnd | server/server.js:144 | the repeated `\s+[A-Z][a-z']+` group ends where it began or just after a small letter or apostrophe of a word |
| Patterns.CandidatesShape | server/server.js:144 | every candidate found by the global match has that shape |
| Extraction.BestIndex | server/server.js:146 | the best match is one of the candidates |
| Extraction.BestIndexIsFirstMaximum | server/server.js:146 | the best match has the highest rating, and every earlier candidate rates strictly lower |
| Extraction.LabelStrategy | server/server.js:123-131 | a label result is 1 to 40 letters, dots and single spaces, trimmed |
| Extraction.BetweenStrategy | server/server.js:133-139 | the result is null iff the between pattern matches nowhere in the one-line text; otherwise it has the between-capture shape |
| Extraction.HintStrategySpec | server/server.js:141-152 | a fuzzy result needs a truthy hint and is a potential name rated above 0.5 and no lower than any other; without one, every candidate rates at most 0.5 |
| Extraction.ExtractName | server/server.js:122-155 | a truthy label result wins; failing that, a between result wins; failing both, the fuzzy result is returned; a result is never empty; the result is null iff all three strategies fail |
| Extraction.ExtractNameShape | server/server.js:122-155 | a found name is a label name, a between name, or a potential name rated above 0.5 against a truthy hint |
| Extraction.NonEmptyAppend | server/server.js:200 | `.filter(Boolean)` of a concatenation is the concatenation of the filtered sides |
| Extraction.NonEmptyOfFull | server/server.js:200 | `.filter(Boolean)` keeps a list without empty strings as it is |
| Extraction.LinesOfSplit | server/server.js:197-200 | the lines are the parts of splitting the text at each newline, each trimmed, with the empty ones dropped, in order |
| Extraction.LinesOfJoin | server/server.js:197-200 | non-empty trimmed lines without newlines, joined with newlines, come back as the lines of that text |
| Extraction.CommaTestIsRegex | server/server.js:211 | the line-continuation test holds iff the line ends in a comma, optional colons and optional whitespace |
| Extraction.AddressFromFirst | server/server.js:203-214 | the scan returns the first address-like line (joined with the next one after a trailing comma), or none when no line is address-like |
| Extraction.FlatStrategy | server/server.js:216-222 | the fallback is null iff its pattern matches nowhere; otherwise it starts with "Flat", whitespace and a non-space, and is trimmed |
| Extraction.ExtractLocation | server/server.js:196-225 | the loop with early return computes the specified location |
| Extraction.LocationSpec | server/server.js:196-225 | the location is the first address-like line, or, when there is none, the "Flat" fallback, or null when both fail |
| Verification.DocumentValue | server/server.js:160 | a missing value is shown as `-`; a present one is shown tidied: trimmed, without whitespace runs, and with the value's non-whitespace characters in order |
| Verification.ScoreMeaning | server/server.js:161-182 | Not Found iff the document value is `-`, Found iff it is present and the user gave nothing, Match iff the similarity of the normalised values exceeds 0.7, Mismatch otherwise |
| Verification.FailureMeaning | server/server.js:192 | a field fails exactly when the user gave a value and the document's value was not found or did not match |
| Verification.StatusTextInjective | server/server.js:161-180 | the four status labels differ, so a row's label tells its status |
| Verification.FailedRowLabel | server/server.js:161-192 | a field fails exactly when the user gave a value and its row's label starts with the cross mark |
| Verification.ScoreIgnoresFormatting | server/server.js:166-172 | user values that normalise alike get the same status |
| Verification.Report.constructor | server/server.js:229 | the report starts without rows |
| Verification.Report.PushResult | server/server.js:159-193 | exactly one row is appended and earlier rows are kept; the result is true iff the field passes |
| Verification.CompareRentalFields | server/server.js:228-284 | the rows are the six fields in order, each scored against the value extracted for it, and the status is Original iff every field passes |
| Verification.RowsShow | server/server.js:234-281 | the rows carry the six field names in order, each with the document value extracted for it |
| Verification.RowsPass | server/server.js:239-283 | all rows pass iff each of the six pushes passes |
| Verification.RentValue | server/server.js:236 | an extracted rent is 3 to 7 ASCII digits |
| Verification.DateValue | server/server.js:243-264 | an extracted date has the date shape |
| Verification.ReportValues | server/server.js:234-266 | in a comparison the rent shown is `-` or 3 to 7 digits, and each date shown is `-` or a date of the date shape |
| Verification.NotFoundOnlyForBlank | server/server.js:290 | a missing value is shown as `-`, never as `[not found]`; `[not found]` appears only for a value that tidies to nothing or to that very text |
| Verification.GetDetailOfSix | server/server.js:289-296 | in the six rows of a comparison, looking up a field finds its own row |
| Verification.RentText | server/server.js:298 | the rent text is "[not specified]" iff the rent is empty or `-`, and is otherwise the rent behind a rupee sign |
| Verification.GenerateAnalysis | server/server.js:287-304 | any type other than rental gets the fixed "not implemented" sentence |
| Verification.AnalysisOfSix | server/server.js:288-300 | for six rows in field order the narrative names the landlord, tenant, start date, location and rent text of those rows |
| Verification.AnalysisOfComparison | server/server.js:287-304 | the narrative of a comparison shows the values extracted from the document |
| Verification.FullTextSnoc | server/server.js:341 | each further page adds a newline and that page's text to the full text |
| Verification.VerifyDocument | server/server.js:307-344 | no file gives a 400 response; no images, or no text on any page, fail the request with their own messages; otherwise the result compares the joined page text, in page order, and the analysis is built from its rows |
| Uploads.FormatDateForSubmission | client/src/Components/Uploads/Uploads.jsx:53-63 | an empty value stays empty; a `yyyy-mm-dd` value becomes a `dd-mm-yyyy` value that reorders back to the input; any other value is returned unchanged |
| Uploads.FormatOfToIso | client/src/Components/Uploads/Uploads.jsx:57-60 | a `dd-mm-yyyy` value, reordered to `yyyy-mm-dd` and formatted, comes back unchanged |
| Uploads.FormatIdempotent | client/src/Components/Uploads/Uploads.jsx:53-63 | formatting twice is formatting once |
| Uploads.FormatKeepsNonEmpty | client/src/Components/Uploads/Uploads.jsx:53-63 | the formatted value is empty iff the input is |
| Uploads.MapSelectedTypeToKey | client/src/Components/Uploads/Uploads.jsx:65-78 | exactly the four labels map to a key, and the key is one of the four document types |
| Uploads.MapSelectedTypeToKeyInverse | client/src/Components/Uploads/Uploads.jsx:65-78 | a label maps to a key iff that key's label is that label |
| Uploads.MapSelectedTypeToKeyInjective | client/src/Components/Uploads/Uploads.jsx:65-78 | different labels never map to the same key |
| Uploads.Find | client/src/Components/Uploads/Uploads.jsx:33-47 | the lookup finds the first field of that name, or reports none |
| Uploads.PutSpec | client/src/Components/Uploads/Uploads.jsx:33-36 | after setting a field it has the new value, every other field is unchanged, the field order is kept (a new field goes last), and field names stay distinct |
| Uploads.HandleChange | client/src/Components/Uploads/Uploads.jsx:30-50 | the document types of the form are kept, plus the one updated |
| Uploads.HandleChangeFrame | client/src/Components/Uploads/Uploads.jsx:30-50 | only the updated field of the updated type changes; every other document type is unchanged; a well-formed form stays well-formed |
| Uploads.InitialFormWellFormed | client/src/Components/Uploads/Uploads.jsx:14-19 | the initial form has the four document types, each with distinct field names |
| Uploads.FormattedFor | client/src/Components/Uploads/Uploads.jsx:97-104 | reformatting keeps the fields and their order |
| Uploads.FormatStep | client/src/Components/Uploads/Uploads.jsx:100-104 | one conditional reformatting of a truthy date field extends the set of date fields already formatted |
| Uploads.FormattedIdempotent | client/src/Components/Uploads/Uploads.jsx:97-104 | reformatting the date fields twice is reformatting them once |
| Uploads.FormatDates | client/src/Components/Uploads/Uploads.jsx:97-104 | the five guarded updates of the copied fields reformat exactly the truthy date fields |
| Uploads.HandleSubmit | client/src/Components/Uploads/Uploads.jsx:80-111 | a missing file or type is refused with the first message, an unknown type with the second, and otherwise the body holds the document, its type key and every field of that type with dates reformatted, in field order |

## Left out

- PDF loading through pdfjs-dist and rasterisation through pdf-poppler (server/server.js:20-51): external libraries and I/O. A page is given as its list of text items, and the image conversion as its count of images (`imageCount`). A failed conversion returns `[]`, which is `Some(0)`; `None` stands for a value that is not an array, which the handler rejects in the same way.
- The HTML wrapper of each page (server/server.js:76-90): presentation only; a page keeps its number and text.
- The string-similarity library: `compareTwoStrings` is the parameter `sim`, and `findBestMatch` is the first candidate with the highest rating. Nothing else is assumed about it.
- Layout.Round: positions are `real` rather than IEEE doubles, and `Math.round` is modelled as rounding half up.
- Express and multer routing, temporary directories, file reads, base64 encoding, `crypto.randomUUID` and the JSON response's transport (server/server.js:307-363): plumbing around the pure checks. A request is given as whether a file came, the document type, the form values and the outputs of the two extraction steps.
- Layout.GroupByLine: the key list is kept in first-seen order, while `Object.keys` lists integer keys in ascending order. The keys are sorted right after, and the sorted order of distinct keys is unique (Layout.SortDescendingSpec), so the page text is the same.
- `Promise.all` (server/server.js:321): the two extractions share no state and are treated as sequential.
- Verification.VerifyDocument: the request body is given as the six rental fields, so fields of other document types that the client sends are not modelled; they are never read by the comparison.
- Helpers.LowerChar: `toLowerCase` is modelled for ASCII and the two characters whose lower case contains ASCII letters. Every other non-ASCII character is kept as is, which normalisation removes either way.
- The client's `fetch`, `navigate`, `setIsLoading`, `setError` and the other React state hooks (client/src/Components/Uploads/Uploads.jsx:7-12, 93-94, 113-140): user interface and network. `HandleSubmit` returns the error message or the request body instead.
- Uploads.HandleSubmit: the uploaded file is represented by whether one was chosen. The body holds a placeholder part for the file.
- Uploads.HandleSubmit: requires a well-formed form, with distinct field names in each document type. A JavaScript object cannot hold a key twice.
- `handleFileChange` and the presentational components (pages, navigation bar, hero, about and program sections): no logic beyond setting state and display.
