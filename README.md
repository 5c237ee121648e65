# IndiaMART listing extraction and cleaning, in Dafny

This project models the text-to-record normalisation core of an IndiaMART product scraper. It has three parts.

- **Field parsers** (`src/scraper/utils.py`):
  - the price parser `clean_price_text` and the unit extractor `extract_price_unit` with its synonym table;
  - the location parser `normalize_location`;
  - `extract_keywords_from_title`;
  - the Jaccard similarity `calculate_text_similarity`;
  - the near-duplicate flagger `detect_duplicate_products`;
  - the record validator `validate_scraped_data`.
- **The batch cleaner** `DataCleaner` (`src/data_processing/cleaner.py`): text normalisation, price outlier flags and unit mapping, state extraction, first-occurrence deduplication, the count parts of the quality report, and the stage order of `clean_dataset`.
- **The listing extractor** `IndiaMartScraper` (`src/scraper/indiamart_scraper.py`):
  - `clean_text` and `extract_price`;
  - the first-selector-wins probing of `extract_product_data` and `extract_single_product`;
  - relative-URL resolution;
  - link collection in `get_product_urls`;
  - search-URL generation in `search_products`.

Layout, one module per concern:

| file | module | what it holds |
|---|---|---|
| `wrappers.dfy` | `Wrappers` | `Option` (None / a null cell) and `Result` (a value or the exception the source raises) |
| `seqs.dfy` | `Seqs` | subsequence, distinctness, `pd.Series.unique` |
| `text.dfy` | `Text` | `isspace`, `\w`, `lower()`, `strip()`, `split()`, `title()`, `re.sub(r'\s+', ' ', …)`, `str(n)` |
| `numerals.dfy` | `Numerals` | the number token `\d+(?:,\d+)*(?:\.\d+)?` and its exact value |
| `patterns.dfy` | `Patterns` | every regex of the price/unit parsers as a scanner, plus `re.search` |
| `prices.dfy` | `Prices` | `clean_price_text`, `extract_price_unit` |
| `locations.dfy` | `Locations` | `normalize_location` |
| `keywords.dfy` | `Keywords` | `extract_keywords_from_title` |
| `similarity.dfy` | `Similarity` | `calculate_text_similarity` |
| `frame.dfy` | `Frames` | the DataFrame: a `class Frame` with a column set and a row sequence |
| `duplicates.dfy` | `Duplicates` | `detect_duplicate_products` |
| `validation.dfy` | `Validation` | `validate_scraped_data` |
| `cleaner.dfy` | `Cleaner` | the `DataCleaner` stages and `clean_dataset` |
| `soup.dfy` | `Soup` | the parsed page and `urllib.parse`, as function-valued records |
| `scraper.dfy` | `Scraper`, `IndiaMart` | `clean_text` … `search_products`; the class `IndiaMart.IndiaMartScraper` |

How the code is modelled:

- **Pure code becomes functions.** The price and unit parsers, `clean_text`, `extract_price`, keyword extraction, similarity and `extract_state` are functions.
- **Regexes become scanners.** Each regex is a deterministic scanner `MatchAt(pattern, s, p)` plus a leftmost search. None of these patterns gains from backtracking: the character after a shortened greedy run can never continue the pattern. So a match at a position is unique, and it is the one the scanner computes.
- **State changed in place becomes methods with `modifies`.**
  - The cleaner stages are methods that update a `Frame` object, the class `DataCleaner` having no state of its own.
  - The duplicate flagger copies the frame and keeps its flags in an `array<bool>`. Its nested loops read and write that array exactly as the source reads and writes `df.loc[...,'is_duplicate']`.
  - The list-building loops of the scraper are methods with loop invariants.
- **Every method is proved against a specification function.** Examples are `TextStage`, `PriceStage`, `LocationStage`, `DedupStage`, `DetectSpec`, `ValidateSpec`, `SingleProduct`, `Collected` and `SelectorHrefs`. Lemmas then state what those functions guarantee.
- **Prices and similarities are exact `real`s.** Where the source compares floats with a decimal constant (`k > n * 0.1`), the model uses the equivalent exact comparison on integers. That equivalence holds at every count a list can have.

## Behaviour of the code worth noting

These are easy to misread in the source; in every case below the model follows the code.

- **Range separator.** A price range is separated by the one-character class `[-to]` (`src/scraper/utils.py:35`), so the word "to" does not separate a range. `Prices.WordToIsNotASeparator` proves `"<a> to <b>"` is priced at `a`.
- **Title probe.** Each field of a listing takes the text of the first selector that finds an element, even when that text is blank (`src/scraper/indiamart_scraper.py:88-92`). It does not take the first non-empty text.
- **Exceptions.** An exception while reading a listing skips the whole listing (`src/scraper/indiamart_scraper.py:72-78`). It does not only blank that field.
- **Links.** Link collection reads all four selectors, with no first-match break (`src/scraper/indiamart_scraper.py:179-186`).
- **Cleaner tables.** The cleaner's unit table and state set (`src/data_processing/cleaner.py:64-84`, `97-106`) differ from the parser's tables.
  - The state set is unordered, and the stage returns the title-cased key (`'Mumbai'`, `'Up'`), not a canonical state name.
  - The mapped unit goes to a new `standardized_unit` column (`src/data_processing/cleaner.py:87`).
- **State lookup.** `normalize_location` matches keys as plain substrings in the dictionary's written order. It does not use longest-key-first or word boundaries.
- **City without a comma.** With no comma, the city is the whole stripped text, because `^([^,]+)` takes everything.
- **Empty table.** `validate_data_quality` on an empty table just reports zeros; nothing fails.
- **Scraper price prefix.** As the text of `src/scraper/indiamart_scraper.py:29` reads, the price pattern starts with the characters U+00E2 U+201A followed by an optional U+00B9. These are the UTF-8 bytes of "₹" read as Windows-1252. So the scraper reads no price from text with a real "₹" (`Scraper.RupeeSignNotRead`), or from text without that prefix (`Scraper.PriceNeedsPrefix`).

## Model

| member | source | states |
|---|---|---|
| Seqs.Unique | src/scraper/utils.py:294 | `df['supplier_name'].unique()`: duplicate-free and holding exactly the values that occur |
| Text.Lower | src/scraper/utils.py:77 | `lower()` keeps the length and lower-cases each character on its own |
| Text.LowerIdempotent | src/scraper/utils.py:77 | lower-casing twice is lower-casing once |
| Text.LowerKeepsSpaces | src/scraper/utils.py:264 | lower-casing keeps every whitespace position, so word boundaries are unchanged |
| Text.TrimLeft | src/scraper/utils.py:32 | the result is a suffix of the input, starts with a non-space, and only whitespace was removed |
| Text.TrimRight | src/scraper/utils.py:32 | the result is a prefix of the input, ends with a non-space, and only whitespace was removed |
| Text.Strip | src/scraper/utils.py:32 | `strip()` leaves no whitespace at either edge |
| Text.StripFixed | src/scraper/utils.py:32 | text without edge whitespace is its own `strip()` |
| Text.StripOfAllSpaces | src/scraper/utils.py:32 | `strip()` gives "" exactly for whitespace-only text |
| Text.CollapseSingleSpaced | src/scraper/indiamart_scraper.py:19 | after `re.sub(r'\s+', ' ', …)` every whitespace character is a plain space and no two are adjacent |
| Text.CollapseFirst | src/scraper/indiamart_scraper.py:19 | the substitution output is empty exactly when its input is, and starts with whitespace exactly when its input does |
| Text.CollapseLast | src/scraper/indiamart_scraper.py:19 | the substitution output ends with whitespace exactly when its input does |
| Text.CollapseFixed | src/scraper/indiamart_scraper.py:19 | single-spaced text is unchanged by the substitution |
| Text.SquashShape | src/data_processing/cleaner.py:38-39 | strip then collapse gives stripped, single-spaced text, empty exactly for whitespace-only input |
| Text.SquashFixed | src/data_processing/cleaner.py:38-39 | stripped single-spaced text is unchanged by strip-then-collapse |
| Text.SquashIdempotent | src/data_processing/cleaner.py:38-39 | strip-then-collapse is idempotent |
| Text.TakeWord | src/scraper/utils.py:232 | the first word is the longest whitespace-free prefix, non-empty when the text starts with a non-space |
| Text.SplitWords | src/scraper/utils.py:232 | every token of `split()` is a non-empty run of non-whitespace characters |
| Text.SplitChars | src/scraper/utils.py:232 | every character of every `split()` token occurs in the input |
| Text.SplitEmpty | src/scraper/utils.py:264 | `split()` gives no token exactly for whitespace-only text |
| Text.SkipSpaces | src/scraper/utils.py:35 | greedy `\s*` reaches the first non-whitespace position |
| Text.WordEnd | src/scraper/utils.py:72-74 | greedy `\w+` ends at the first non-word character |
| Text.NatToStringRoundTrip | src/scraper/indiamart_scraper.py:198 | reading back the digits of `str(page)` gives `page` |
| Text.NatToStringInjective | src/scraper/indiamart_scraper.py:198 | different page numbers print differently |
| Text.RemoveCommas | src/scraper/utils.py:37 | `replace(',', '')` leaves no comma, no new character, and is no longer than its input |
| Numerals.DigitRunEnd | src/scraper/utils.py:35 | `\d+` from a position ends at the first non-digit |
| Numerals.GroupsEnd | src/scraper/utils.py:35 | greedy `(?:,\d+)*` stops where no comma-and-digit follows, and never ends on a comma |
| Numerals.FractionEnd | src/scraper/utils.py:35 | `(?:\.\d+)?` is taken only as a dot followed by at least one digit |
| Numerals.NumberValue | src/scraper/utils.py:37-38 | `float(token.replace(',', ''))` of a matched token is non-negative |
| Numerals.PlainDigitsToken | src/scraper/utils.py:55 | a digit run not followed by a digit, comma or dot is the whole token, valued as its digits |
| Patterns.MatchAt | src/scraper/utils.py:35 | a match of a number pattern has digit groups, and a match of a word pattern has word-character groups |
| Patterns.MatchMask | src/scraper/utils.py:52 | the mask holds `true` exactly at the start positions where the pattern matches |
| Patterns.SearchIsLeftmost | src/scraper/utils.py:52 | `re.search` returns a matching position with no match before it, or none when nothing matches |
| Patterns.SearchFirstAt | src/scraper/utils.py:52 | the first matching position is the one `re.search` finds, with its groups |
| Patterns.SearchNone | src/scraper/utils.py:52 | a pattern matching nowhere is not found |
| Patterns.FindWord | src/scraper/utils.py:80-82 | a found `(\w+)` group is a non-empty run of word characters |
| Patterns.FirstDigit | src/scraper/utils.py:52 | the first digit of the text: a digit, with none before it |
| Patterns.NumberAfterRupeeIsNextDigit | src/scraper/utils.py:52 | wherever `₹?\s*` reaches a digit, it is the next digit of the text |
| Patterns.SinglePriceIsFirstNumber | src/scraper/utils.py:52-55 | the single-price pattern reads the number that starts at the first digit, and nothing when there is no digit |
| Prices.MapUnit | src/scraper/utils.py:84-94 | `unit_mapping.get(unit, unit)`: a table key is replaced by its label, any other token is kept |
| Prices.MapUnitIdempotent | src/scraper/utils.py:84-94 | every label maps to itself, so mapping twice is mapping once |
| Prices.UnitToken | src/scraper/utils.py:71-82 | the token from `per <word>`, then `/<word>`, then the trailing word, is a non-empty word run |
| Prices.ExtractPriceUnit | src/scraper/utils.py:65-96 | "" for ""; otherwise "" exactly when no unit pattern matches, else the mapped token |
| Prices.CleanPriceText | src/scraper/utils.py:13-63 | empty input gives the default record; otherwise the raw price is the stripped text and the unit is from the stripped text; a range match gives min, max and their mean; otherwise the first number or None, with no min/max; the currency is always "INR" |
| Prices.RangeOfTwoNumbers | src/scraper/utils.py:35-49 | `"<a> - <b>"` is a range from `a` to `b` priced at its mean |
| Prices.RangeAtStart | src/scraper/utils.py:35 | a number, space, dash, space and a digit make the range pattern match at the start, with its two groups there |
| Prices.WordToIsNotASeparator | src/scraper/utils.py:35 | `"<a> to <b>"` is no range, priced at `a` |
| Prices.NoRangeAfterSeparator | src/scraper/utils.py:35 | a separator followed by a letter starts no range |
| Prices.NoRangeAtLastNumber | src/scraper/utils.py:35 | the number that ends the text starts no range |
| Prices.RupeeAndDigits | src/scraper/utils.py:52-61 | `"₹<d>"` is priced at `d` alone, and its unit is the trailing word `d` |
| Prices.RupeeUnit | src/scraper/utils.py:74 | the trailing-word fallback reads the digits after "₹" as the unit, unmapped |
| Prices.UnitKeysStartWithLetter | src/scraper/utils.py:84-93 | every unit-table key starts with a lower-case letter |
| Locations.BeforeComma | src/scraper/utils.py:162 | the text before the first comma: a comma-free prefix ending at a comma or the end |
| Locations.CityMatch | src/scraper/utils.py:162 | `re.match(r'^([^,]+)')` fails exactly on "" or a leading comma, otherwise takes the comma-free prefix |
| Locations.CityIsBeforeFirstComma | src/scraper/utils.py:162-163 | the city is the stripped text before the first comma, in both branches |
| Locations.LookupState | src/scraper/utils.py:155-159 | the for/break loop gives the state of the first key, in table order, occurring in the text, or "" |
| Locations.NormalizeLocation | src/scraper/utils.py:98-170 | empty input gives all "", otherwise raw is the stripped text, the city is as above, the state is the first key's, and normalized is "city, state" exactly when both are non-empty, else the stripped text |
| Keywords.ExtractKeywords | src/scraper/utils.py:216-247 | `extract_keywords`: [] for an empty title, otherwise the filtered words of the lower-cased, punctuation-free title; what it returns is stated by `Keywords.ExtractKeywordsSpec` and `Keywords.ExtractKeywordsShape` |
| Keywords.ReplacePunctuation | src/scraper/utils.py:231 | `re.sub(r'[^\w\s]', ' ', …)` keeps the length |
| Keywords.ReplacePunctuationKeeps | src/scraper/utils.py:231 | only word characters and whitespace remain, and those stay in place |
| Keywords.KeepKeywordsSound | src/scraper/utils.py:242-245 | every kept word is long enough and not a stop word |
| Keywords.KeepKeywordsIsSubsequence | src/scraper/utils.py:242-245 | the kept words are an order-preserving subsequence |
| Keywords.KeepKeywordsCounts | src/scraper/utils.py:242-245 | a passing word is kept as often as it occurs, a failing word never |
| Keywords.ExtractKeywordsSpec | src/scraper/utils.py:227-247 | an empty title gives []; otherwise the keywords are exactly the passing words of the cleaned title, in order and with multiplicity |
| Keywords.TitleWordShape | src/scraper/utils.py:231-232 | a word of the cleaned title is a non-empty run of lower-case word characters |
| Keywords.ExtractKeywordsShape | src/scraper/utils.py:231-245 | every keyword passes the filter and is a non-empty run of lower-case word characters |
| Similarity.Jaccard | src/scraper/utils.py:268-271 | intersection over union lies in [0, 1] |
| Similarity.TextSimilarity | src/scraper/utils.py:249-271 | the similarity lies in [0, 1] and is 0 when either text is empty |
| Similarity.JaccardSymmetric | src/scraper/utils.py:268-271 | the index is symmetric |
| Similarity.TextSimilaritySymmetric | src/scraper/utils.py:260-271 | the similarity is symmetric |
| Similarity.JaccardSelf | src/scraper/utils.py:268-271 | a non-empty set is fully similar to itself |
| Similarity.SelfSimilarity | src/scraper/utils.py:260-271 | a text with at least one word has similarity 1 with itself |
| Similarity.WordSetEmpty | src/scraper/utils.py:264-265 | a text has no words exactly when it is whitespace only |
| Similarity.WhitespaceOnlySimilarity | src/scraper/utils.py:269-271 | a whitespace-only text has similarity 0 with anything, in either order |
| Duplicates.PriceSimilarity | src/scraper/utils.py:317-326 | the price similarity lies in [0, 1] |
| Duplicates.PriceSimilaritySymmetric | src/scraper/utils.py:317-326 | the price similarity is symmetric |
| Duplicates.PriceSimilarityEqual | src/scraper/utils.py:317-326 | two equal positive prices are fully similar |
| Duplicates.Score | src/scraper/utils.py:328-329 | `0.8·title_sim + 0.2·price_sim` lies in [0, 1] |
| Duplicates.Flagged | src/scraper/utils.py:304-332 | row j ends flagged exactly when some earlier row flags it, `FlaggedBy` |
| Duplicates.FlaggedBy | src/scraper/utils.py:304-332 | row i flags row j when they share a non-null supplier, i is not itself flagged (the `continue` at line 305-306) and their score reaches the threshold (line 331-332) |
| Duplicates.FirstFlagger | src/scraper/utils.py:304-332 | the earliest row that flags a flagged row flags it, and no earlier row does |
| Duplicates.GroupOf | src/scraper/utils.py:298 | `df[df['supplier_name'] == supplier]`: exactly the row positions of that supplier, ascending |
| Duplicates.DetectSpec | src/scraper/utils.py:286-336 | a successful run gives one flag per row |
| Duplicates.FlaggedHasEarlierPartner | src/scraper/utils.py:304-310 | a flagged row has an earlier row of the same supplier |
| Duplicates.NeverFlagged | src/scraper/utils.py:286-301 | rows with no supplier, the first row of each supplier, and all rows of a table with fewer than two rows are never flagged |
| Duplicates.FlaggedHasWitness | src/scraper/utils.py:304-332 | a flagged row is flagged by an earlier unflagged row of its supplier scoring at least the threshold |
| Duplicates.UnflaggedPairsAreDissimilar | src/scraper/utils.py:304-332 | two unflagged rows of one supplier score below the threshold |
| Duplicates.SmallTable | src/scraper/utils.py:286-288 | fewer than two rows: all flags false |
| Duplicates.TwoIdenticalRows | src/scraper/utils.py:304-332 | two identical rows with a supplier, a title with a word and a positive price: with a threshold of at most 1, exactly the second row is flagged |
| Duplicates.FlagGroup | src/scraper/utils.py:298-332 | one supplier's pass sets exactly the specified flags of that supplier and touches no other row, or raises one of the source's exceptions |
| Duplicates.CompareLater | src/scraper/utils.py:308-332 | the inner loop over an unflagged row keeps the walk's flag invariant and changes no other supplier's flags |
| Duplicates.DuplicateFlags | src/scraper/utils.py:290-332 | the supplier walk over the flags array computes `DetectSpec` |
| Duplicates.DetectDuplicateProducts | src/scraper/utils.py:273-336 | fewer than two rows: the input frame gains an all-false column and is returned; otherwise the input is unchanged and a fresh copy carries the specified flags, or the specified exception |
| Validation.QualityScore | src/scraper/utils.py:401 | `max(0, 100 − 10·errors − 2·warnings)`, in [0, 100] and 100 with neither |
| Validation.ValidateSpec | src/scraper/utils.py:366-413 | what `validate_scraped_data` returns: the no-data report for [], the `AttributeError` of a `None` title, otherwise the errors, warnings, score and summary; its properties are stated by `Validation.ReportShape`, `Validation.SpecialCases` and `Validation.IssuesExact` |
| Validation.ValidateScrapedData | src/scraper/utils.py:366-413 | the loops compute `ValidateSpec` |
| Validation.RecordIssuesExact | src/scraper/utils.py:384-387 | one error per required field a record lacks |
| Validation.IssuesExact | src/scraper/utils.py:382-387 | an error names a record and a missing required field, and every missing field has its error |
| Validation.ValidIffAllFieldsPresent | src/scraper/utils.py:404 | a non-empty list is valid exactly when every record has a non-empty title and supplier name |
| Validation.CountsBounded | src/scraper/utils.py:390-392 | the counts are at most the record count, at most two errors per record, and at least one supplier value |
| Validation.SupplierKeysExact | src/scraper/utils.py:412 | the supplier set holds exactly the values of `get('supplier_name', '')` |
| Validation.WarningsShape | src/scraper/utils.py:394-398 | each warning is raised exactly when its count is over its share of the records |
| Validation.ReportShape | src/scraper/utils.py:389-413 | the report of a non-empty list without a null title, field by field |
| Validation.SpecialCases | src/scraper/utils.py:376-390 | empty data gives the "No data provided" report, and a `None` title raises |
| Cleaner.CleanCell | src/data_processing/cleaner.py:37-40 | one text cell: `astype(str)` turns null into "nan", then strip and collapse, and "nan", "None" and "" become null; stated by `Cleaner.CleanCellShape`, `Cleaner.CleanCellNull` and `Cleaner.CleanCellIdempotent` |
| Cleaner.CleanCellShape | src/data_processing/cleaner.py:37-40 | a cell that stays present is stripped, single-spaced and not "nan", "None" or "" |
| Cleaner.CleanCellNull | src/data_processing/cleaner.py:37-40 | a null cell stays null (through "nan") |
| Cleaner.CleanCellIdempotent | src/data_processing/cleaner.py:37-40 | cleaning a cleaned cell changes nothing |
| Cleaner.CleanTextColumns | src/data_processing/cleaner.py:31-42 | the frame's rows become `TextStage` of its old rows, and its columns are unchanged |
| Cleaner.CleanColumnsInRows | src/data_processing/cleaner.py:35-40 | the loop over columns acts on each row on its own |
| Cleaner.TextStageCells | src/data_processing/cleaner.py:31-42 | row count kept; each present text column cell cleaned, absent columns and other fields untouched |
| Cleaner.TextStageShape | src/data_processing/cleaner.py:37-40 | every text cell the stage writes is null or a stripped, single-spaced non-sentinel string |
| Cleaner.TextStageIdempotent | src/data_processing/cleaner.py:31-42 | cleaning the text columns twice is cleaning them once |
| Cleaner.StandardUnitIdempotent | src/data_processing/cleaner.py:64-87 | standardising a unit twice is standardising once, and a table key yields one of the eight labels |
| Cleaner.PriceRows | src/data_processing/cleaner.py:57-87 | one output row per input row |
| Cleaner.StandardizePrices | src/data_processing/cleaner.py:44-89 | the frame becomes `PriceStage` of its old columns and rows |
| Cleaner.PriceStageRows | src/data_processing/cleaner.py:46-87 | no-op without a price column; otherwise row count kept, the outlier flag is true exactly for a present price outside [q1, q99], the unit is lower-cased and mapped, and nothing else changes |
| Cleaner.ExtractState | src/data_processing/cleaner.py:108-116 | `extract_state` on one cell, given the set's iteration order; stated by `Cleaner.ExtractStateSpec` |
| Cleaner.FirstContained | src/data_processing/cleaner.py:113-116 | the first key in iteration order contained in the text, or none when no key is |
| Cleaner.ExtractStateSpec | src/data_processing/cleaner.py:108-116 | null for a null location; otherwise null exactly when no key occurs, else the title case of some key that occurs |
| Cleaner.StandardizeLocations | src/data_processing/cleaner.py:91-120 | the frame becomes `LocationStage` of its old columns and rows |
| Cleaner.DedupKeyOf | src/data_processing/cleaner.py:127-130 | the key: lower-cased title and supplier, nulls as "", joined by "_"; `Cleaner.DedupKeys` and `Cleaner.DedupKeepsFirst` state what the stage does with it |
| Cleaner.ClearKeys | src/data_processing/cleaner.py:136 | dropping the key column keeps every row |
| Cleaner.RemoveDuplicates | src/data_processing/cleaner.py:122-141 | the input frame gains the key column, and a fresh frame holds `DedupStage`; a missing column raises with the input unchanged |
| Cleaner.DedupIsSubsequence | src/data_processing/cleaner.py:133 | the kept rows are an order-preserving subsequence, no longer than the input |
| Cleaner.DedupKeys | src/data_processing/cleaner.py:133 | kept keys are pairwise distinct and new, and every input key is kept or was seen |
| Cleaner.DedupKeepsFirst | src/data_processing/cleaner.py:133 | the first row of each key is kept |
| Cleaner.DedupOfDistinct | src/data_processing/cleaner.py:133 | rows with pairwise distinct keys are all kept |
| Cleaner.DedupIdempotent | src/data_processing/cleaner.py:133 | deduplicating its own output changes nothing |
| Cleaner.DedupKeySet | src/data_processing/cleaner.py:133 | the output carries exactly the input's keys |
| Cleaner.ClearKeysSpec | src/data_processing/cleaner.py:136 | dropping the key column changes no key and leaves no key cell |
| Cleaner.DedupStageSpec | src/data_processing/cleaner.py:127-141 | the stage output is an order-preserving subsequence of the unkeyed input with pairwise distinct keys, every input key, and no key column |
| Cleaner.DedupStageKeepsFirst | src/data_processing/cleaner.py:133 | the stage keeps the first row of each key |
| Cleaner.MinOf | src/data_processing/cleaner.py:164 | the minimum is an element and below every element |
| Cleaner.MaxOf | src/data_processing/cleaner.py:165 | the maximum is an element and above every element |
| Cleaner.PriceStats | src/data_processing/cleaner.py:157-167 | present exactly when some price is present; the count plus the null count is the row count; min and max bound every price and occur |
| Cleaner.UniqueCount | src/data_processing/cleaner.py:170 | `nunique` plus the null count is at most the row count |
| Cleaner.CategoryDistribution | src/data_processing/cleaner.py:176 | `value_counts` has exactly the categories that occur, each with a positive count |
| Cleaner.MissingValues | src/data_processing/cleaner.py:148 | one null count per column, each at most the row count |
| Cleaner.ValidateDataQuality | src/data_processing/cleaner.py:143-178 | the total is the row count; each optional entry exists exactly when its column does (prices: and when some price is present); title and price counts plus null counts equal the row count |
| Cleaner.CountNullIsCardinality | src/data_processing/cleaner.py:148 | the null count is the number of rows whose cell is null |
| Cleaner.PresentPricesExact | src/data_processing/cleaner.py:158 | `dropna()` holds exactly the present prices, as many as the non-null count |
| Cleaner.NonNullValuesBounded | src/data_processing/cleaner.py:170-173 | `nunique` counts exactly the values that occur, at most the non-null cells |
| Cleaner.CategoryCounts | src/data_processing/cleaner.py:176 | each category count is positive and at most the row count |
| Cleaner.LocatedFrame | src/data_processing/cleaner.py:185-187 | the caller's frame after the text, price and location stages |
| Cleaner.PipelineSpec | src/data_processing/cleaner.py:180-195 | the four stages in order: `DedupStage` of `LocatedFrame`; stated by `Cleaner.PipelineDeduplicated` |
| Cleaner.CleanDataset | src/data_processing/cleaner.py:180-195 | text, prices, locations, then dedup on the same frame; the report is computed on the deduplicated fresh frame; the caller's frame is left holding `LocatedFrame`, plus the `dedup_key` column when the dedup succeeds |
| Cleaner.PipelineDeduplicated | src/data_processing/cleaner.py:185-188 | a cleaned dataset has pairwise distinct keys and no more rows than it started with |
| Scraper.CleanText | src/scraper/indiamart_scraper.py:15-19 | `clean_text`: "" for "", otherwise stripped and single-spaced; stated by `Scraper.CleanTextShape` and `Scraper.CleanTextIdempotent` |
| Scraper.CleanTextShape | src/scraper/indiamart_scraper.py:15-19 | the output has no edge whitespace and single spaces only; it is empty exactly for blank input |
| Scraper.CleanTextIdempotent | src/scraper/indiamart_scraper.py:15-19 | cleaning a cleaned text changes nothing |
| Scraper.ExtractPrice | src/scraper/indiamart_scraper.py:21-45 | empty input gives the default record; the raw price is the cleaned text, the currency "INR", and a unit is a word run |
| Scraper.PriceNeedsPrefix | src/scraper/indiamart_scraper.py:29-32 | a price is read only when U+00E2 U+201A occur in the cleaned text |
| Scraper.PrefixedDigits | src/scraper/indiamart_scraper.py:29-32 | digits right after the full prefix are read as the price |
| Scraper.RupeeSignNotRead | src/scraper/indiamart_scraper.py:29-38 | `"₹<d>"` gives no price and no unit, where `clean_price_text` reads both |
| Scraper.UnitNeedsMarker | src/scraper/indiamart_scraper.py:35-38 | the unit is empty exactly when no `per <word>` or `/<word>` match exists: no trailing-word fallback |
| Scraper.FirstFoundSpec | src/scraper/indiamart_scraper.py:88-92 | the probe stops at the first selector that finds an element |
| Scraper.FirstFoundNone | src/scraper/indiamart_scraper.py:88-92 | the probe finds nothing exactly when no selector finds an element |
| Scraper.ProbeText | src/scraper/indiamart_scraper.py:86-124 | each selector loop with break computes the field text of the first element found |
| Scraper.BlankFirstFoundIsEmpty | src/scraper/indiamart_scraper.py:88-92 | a blank first element gives an empty field, whatever later selectors would find |
| Scraper.Resolve | src/scraper/indiamart_scraper.py:131-132 | "" and URLs starting with "http" are kept; everything else is joined to the base URL |
| Scraper.ResolveDecision | src/scraper/indiamart_scraper.py:139-140 | a resolved URL is the URL or its join, the join whenever the URL is relative, and resolving an absolute URL again changes nothing |
| Scraper.ReadImageUrl | src/scraper/indiamart_scraper.py:126-132 | the image step computes `ImageUrl` |
| Scraper.ReadProductUrl | src/scraper/indiamart_scraper.py:134-140 | the link step computes `ProductUrl` |
| Scraper.ImageUrlSpec | src/scraper/indiamart_scraper.py:127-132 | `src`, else `data-src`, else "", resolved against the base URL |
| Scraper.SingleProduct | src/scraper/indiamart_scraper.py:82-165 | the record `extract_single_product` builds from the probes, or none for an empty title; stated by `Scraper.SingleProductSpec` |
| Scraper.SingleProductSpec | src/scraper/indiamart_scraper.py:86-165 | no record exactly when the title is empty (no element found, or a blank one); a record carries a cleaned non-empty title, the category, "IndiaMART", "INR" and the page URL |
| Scraper.FirstNonEmptySpec | src/scraper/indiamart_scraper.py:61-65 | the scan stops at the first selector with matches |
| Scraper.FirstNonEmptyNone | src/scraper/indiamart_scraper.py:61-65 | the scan finds nothing exactly when all selectors match nothing |
| Scraper.ProductElementsSpec | src/scraper/indiamart_scraper.py:52-69 | only the first selector with matches is used; the class-name fallback only when all five match nothing |
| Scraper.FindProductElements | src/scraper/indiamart_scraper.py:60-69 | the selector loop with its fallback computes `ProductElements` |
| Scraper.Collected | src/scraper/indiamart_scraper.py:71-78 | no more records than elements |
| Scraper.CollectedAppend | src/scraper/indiamart_scraper.py:71-78 | records follow element order: two runs of elements give their records in sequence |
| Scraper.CollectedSpec | src/scraper/indiamart_scraper.py:71-78 | every record comes from an element, and every element that gives a record contributes it |
| Scraper.PageRecords | src/scraper/indiamart_scraper.py:71-78 | every record of a page has a title, the scraper's category, "IndiaMART" and the page URL |
| Scraper.LinkHrefsSpec | src/scraper/indiamart_scraper.py:181-186 | a URL is gathered exactly when some link has a non-empty href resolving to it |
| Scraper.SelectorHrefsSpec | src/scraper/indiamart_scraper.py:179-186 | the gathered URLs are those of every selector, not just the first |
| Scraper.SearchUrlInjective | src/scraper/indiamart_scraper.py:198 | different pages give different search URLs |
| Scraper.SearchUrlsDistinct | src/scraper/indiamart_scraper.py:197-201 | the search URLs are pairwise different |
| IndiaMart.IndiaMartScraper.constructor | src/scraper/indiamart_scraper.py:11-13 | the scraper keeps its category |
| IndiaMart.IndiaMartScraper.ExtractSingleProduct | src/scraper/indiamart_scraper.py:82-165 | the successive selector loops compute `SingleProduct` |
| IndiaMart.IndiaMartScraper.ExtractProductData | src/scraper/indiamart_scraper.py:47-80 | the records of the product elements, in element order, skipping elements that give none or raise |
| IndiaMart.IndiaMartScraper.GetProductUrls | src/scraper/indiamart_scraper.py:167-188 | duplicate-free, holding exactly the resolved hrefs of all four selectors |
| IndiaMart.IndiaMartScraper.SearchProducts | src/scraper/indiamart_scraper.py:190-201 | exactly `max_pages` URLs (none below 1), the k-th for page k+1, in increasing page order |

## Left out

- HTTP fetching, retries, sleeps, user agents and file I/O (`base_scraper.py`, `load_data`, `save_cleaned_data`), `main.py`, `run_eda.py`, `config.py` and `src/analysis/eda.py`: these are I/O, console and plotting plumbing with no logic of their own, so they are not part of this model.
- `smart_sleep`: uses randomness and the clock.
- `generate_product_id`: its value is an MD5 digest, a foreign call.
- `validate_url`: a large regex plus `urlparse`. Its pattern, as written at `src/scraper/utils.py:193`, lacks its closing quote, so it does not parse.
- All logging calls, including the duplicate flagger's log line. Only the `TypeError` that line raises on a null title is modelled (`Duplicates.BadLog`).
- BeautifulSoup `select`, `select_one`, `find`, `find_all`, `get_text` and `get`, plus `urllib.parse.urljoin` and `quote`: uninterpreted functions held in `Soup.Dom` and `Soup.UrlLib`. Whether a parser call raises is one more such function (`raises`). Only the decisions the scraper makes on their answers are modelled.
- Character classes: `\w`, `\d`, `lower()` and `title()` are modelled on ASCII; `isspace()`/`\s` covers Python's full whitespace set. Non-ASCII letters and digits are not modelled.
- Floating point: prices, means and similarity scores are exact reals. Rounding of `float()` and of the division is not modelled. The 10% and 5% warning thresholds are exact integer comparisons, equal to the float ones at every list length.
- Cleaner.StandardizePrices: the 1st and 99th percentiles (pandas linear interpolation) are parameters `q1`/`q99`, not computed. `pd.to_numeric(errors='coerce')` is taken as already applied: a price cell is an `Option<real>`.
- Cleaner.ValidateDataQuality: the float mean, median and standard deviation of prices, `avg_title_length` and `data_types` are left out. Only the counts, the min and the max are modelled.
- Cleaner.ExtractStateSpec: Python fixes no iteration order for the state set, so the order is a parameter (any enumeration of the set) and the result is stated as "some matching key".
- IndiaMart.IndiaMartScraper.GetProductUrls: `list(set(urls))` has no defined order, so the contract states membership and distinctness, not an order.
- IndiaMart.IndiaMartScraper.SearchProducts: the default `max_pages = 5` is not modelled; the page count is always passed.
- Keywords.ExtractKeywords: the default `min_length = 3` is not modelled; the minimum length is always passed.
- Duplicates.DetectDuplicateProducts: the default `similarity_threshold = 0.7` is not modelled; the threshold is always passed.
- IndiaMart.IndiaMartScraper.ExtractProductData: an exception inside `extract_single_product` is the oracle `raises` on the element, and only its effect (the element is skipped) is modelled.
- Frames.Frame: DataFrame index labels are row positions; dtype coercion and any column the core never reads are not modelled.
- Prices.RangeOfTwoNumbers: the range reading is proved as a closed statement for `"<a> - <b>"` over plain digit runs. Other separators (`t`, `o`), thousands separators, fractions and `₹` signs are covered by the scanner definition of the range pattern, not by a separate lemma.
- Scraper.PrefixedDigits: the value of a prefixed price is proved for a plain digit run right after the full three-character prefix. Spaces, thousands separators and fractions after the prefix follow from the scanner definition, not from a separate lemma.
