# Tag extractor — a verified model

`TagExtractorGUI` is a small Swing program. The user picks a text document and a stop-word file. The program then counts how often each word of the document occurs, shows the counts, and can save them to a file. This project models the program's text-processing core and the three fields its buttons guard on, and proves what that core computes.

- **Stop words** (`loadStopWords`): every line of the stop-word file, lower-cased, goes into a set. A missing file shows an error and yields the empty set. Module `TagExtractor`: `LoadStopWords`, which is specified by `StopWordSet`.
- **Tokens** (`Scanner.next`): the maximal runs of non-whitespace characters, where whitespace is Java's `Character.isWhitespace`. Module `Text`: `Tokens`.
- **Normalisation** (`replaceAll("[^a-zA-Z]", "").toLowerCase()`): keep the ASCII letters, then lower-case them. Module `Text`: `KeepLetters`, `Lower`, `Normalize`.
- **Counting**: a `TreeMap<String, Integer>`. Each normalised token that is not a stop word is `put` with `getOrDefault(word, 0) + 1`.
  - Module `SortedMap` models the map as its in-order entry sequence, with `Find`, `GetOrDefault` and `Put`.
  - The loop is `TagExtractor.CountTags`. It is proved against the predicate `Tallies`: the table is sorted; every count is the number of tokens that normalise to that word; stop words are absent; every stored count is at least 1; and the counts add up to the number of tokens that are not stop words.
- **Output**: one `key: count` line per entry, in key order. This is used both for the text area and for the saved file. `FormatEntries` and `FormatTable` build the lines, `Decimal.DecimalString` plays the part of `Integer.toString`, and `Text.Render` plays the part of `println`.
- **The handlers**: `TagExtractor.TagExtractorGUI` is a class whose fields are `selectedFile`, `stopWords`, `tagFrequency` and the text area's lines. Its methods follow `selectFile`, `selectStopWords`, `extractTags` and `saveTags`, including each guard and each error branch.

Both directions are proved wherever the source implies them:

- a word is counted if and only if it occurs and is not a stop word;
- the saved file reads back, line by line, as the table (`SavedTableRoundTrip`);
- the table is unique (`TalliesUnique`);
- a token with no ASCII letter is counted under `""` exactly when `""` is not a stop word (`EmptyTagQuirk`).

`WorkedExample` passes the stop-word file "the\non\n" and the document "The Cat sat on the MAT. Cat!" through all four handlers and proves that the saved lines are `cat: 2`, `mat: 1`, `sat: 1`.

Three behaviours of the code deserve a note:

- A missing stop-word file does not leave the stop words unset. `loadStopWords` catches the exception and returns the empty set, so a later extraction counts every token (`SelectStopWords`).
- A missing document does not leave the previous table in place. `extractTags` assigns a fresh empty `TreeMap` before it opens the document, so a save that follows writes an empty file (`MissingDocumentThenSave`).
- A token with no ASCII letter is counted under the empty word `""` unless an empty line in the stop-word file made `""` a stop word (`EmptyTagQuirk`, `EmptyStopWord`).

## Model

| member | source | states |
|---|---|---|
| Text.Normalize | src/TagExtractorGUI.java:95 | the normal form of a token contains only `a`-`z`, is no longer than the token, and is empty exactly when the token contains no ASCII letter |
| Text.KeepLetters | src/TagExtractorGUI.java:95 | `replaceAll("[^a-zA-Z]", "")` keeps only letters, is no longer than its input, and is empty exactly when the input has no letter |
| Text.KeepLettersAppend | src/TagExtractorGUI.java:95 | the letter filter works character by character: filtering `a + b` is filtering `a` then `b` |
| Text.KeepLettersOfLetters | src/TagExtractorGUI.java:95 | a string of letters passes the filter unchanged |
| Text.KeepLettersOfWordThenMarks | src/TagExtractorGUI.java:95 | letters followed by non-letters filter to the letters |
| Text.Lower | src/TagExtractorGUI.java:77 | defined as `toLowerCase` on ASCII: each character mapped by itself, `A`-`Z` to `a`-`z` |
| Text.LowerSpec | src/TagExtractorGUI.java:77 | ASCII lower-casing keeps the length, maps each of `A`-`Z` to the letter 32 code points above it (`a`-`z`), changes no other character, leaves no `A`-`Z`, is idempotent, and maps only `""` to `""` |
| Text.NormalizeIdempotent | src/TagExtractorGUI.java:95 | normalising a normal form changes nothing |
| Text.NormalizeOnto | src/TagExtractorGUI.java:95 | a string is its own normal form exactly when it is a lower-case ASCII word, so the tags are exactly the lower-case words |
| Text.NormalizeAppend | src/TagExtractorGUI.java:95 | the normal form of `a + b` is the normal form of `a` followed by that of `b` |
| Text.Tokens | src/TagExtractorGUI.java:94 | defined as the tokens `Scanner.next` returns: the maximal runs of non-whitespace characters, in order |
| Text.WordLength | src/TagExtractorGUI.java:94-95 | the first token runs up to the first whitespace character or the end |
| Text.TokensAreWords | src/TagExtractorGUI.java:94-95 | `Scanner.next` never returns an empty token or one containing whitespace |
| Text.TokensSkipWhitespace | src/TagExtractorGUI.java:94-95 | leading whitespace does not change the tokens |
| Text.WordThenRest | src/TagExtractorGUI.java:94-95 | a word followed by whitespace is the first token, and the rest of the text is tokenised on its own |
| Text.TokensOfWord | src/TagExtractorGUI.java:94-95 | a word without whitespace is one token |
| Text.TokensOfJoinWords | src/TagExtractorGUI.java:94-95 | tokenising non-empty words joined by spaces gives the words back (inverse of joining) |
| Text.LineLength | src/TagExtractorGUI.java:76-77 | a stop-word line runs up to the first line terminator or the end |
| Text.Lines | src/TagExtractorGUI.java:76-77 | the lines `nextLine` returns contain no line terminator |
| Text.Render | src/TagExtractorGUI.java:125 | defined as what `println` writes: each line followed by the line separator |
| Text.LinesOfRender | src/TagExtractorGUI.java:124-125 | reading back, line by line, lines written with `println` (separator `\n` or `\r\n`) gives the written lines |
| Text.LineLengthOf | src/TagExtractorGUI.java:124-125 | a line with no terminator in it, followed by a terminator, is read as exactly that line |
| SortedMap.Less | src/TagExtractorGUI.java:92 | defined as the `compareTo` order of the `TreeMap` keys: character by character, with a proper prefix first |
| SortedMap.LessTransitive | src/TagExtractorGUI.java:92 | the key order is transitive |
| SortedMap.LessTotal | src/TagExtractorGUI.java:92 | any two different keys are ordered one way or the other |
| SortedMap.LessAsymmetric | src/TagExtractorGUI.java:92 | the key order is asymmetric |
| SortedMap.Find | src/TagExtractorGUI.java:97 | `get` finds a count exactly for the keys present, and the count it returns is stored under that key |
| SortedMap.GetOrDefault | src/TagExtractorGUI.java:97 | defined as `getOrDefault(k, d)`: the count stored under `k`, or `d` when there is none |
| SortedMap.FindEntry | src/TagExtractorGUI.java:97 | in a sorted map, `get` of any entry's key returns that entry's count |
| SortedMap.Put | src/TagExtractorGUI.java:97 | `put(k, v)` keeps the map sorted, makes `get(k)` return `v`, leaves every other key's lookup as it was, and adds no other entry |
| SortedMap.PutTotal | src/TagExtractorGUI.java:97 | `put(k, v)` changes the sum of the counts by `v` minus the count it replaces |
| SortedMap.SortedExtensional | src/TagExtractorGUI.java:92 | two sorted maps that agree on every lookup are the same sequence of entries |
| Decimal.DecimalString | src/TagExtractorGUI.java:107 | a count prints as a non-empty string of digits with no leading zero |
| Decimal.ParseDecimalString | src/TagExtractorGUI.java:125 | a printed count reads back as the same count |
| Decimal.DecimalStringInjective | src/TagExtractorGUI.java:125 | different counts print differently |
| TagExtractor.StopWordSet | src/TagExtractorGUI.java:74-78 | defined as the set of the file's lines, each lower-cased |
| TagExtractor.LoadStopWords | src/TagExtractorGUI.java:73-83 | a missing file yields the empty set; otherwise the set of the file's lines, each lower-cased (loop invariant: the set of the lines read so far) |
| TagExtractor.StopWordSetSpec | src/TagExtractorGUI.java:74-78 | a word is a stop word exactly when some line lower-cases to it; stop words contain no upper-case ASCII letter; there are no more stop words than lines |
| TagExtractor.EmptyStopWord | src/TagExtractorGUI.java:77 | `""` is a stop word exactly when the file has an empty line |
| TagExtractor.OccurrenceWitness | src/TagExtractorGUI.java:94-97 | a word that is counted is the normal form of some token |
| TagExtractor.OccurrenceOfToken | src/TagExtractorGUI.java:94-97 | the normal form of every token is counted at least once |
| TagExtractor.CountSnoc | src/TagExtractorGUI.java:94-98 | the defining equations of `Occurrences` and `Qualifying`, unfolded once for a token appended at the end |
| TagExtractor.OccurrencesForms | src/TagExtractorGUI.java:94-97 | a word's count is its multiplicity among the tokens' normal forms |
| TagExtractor.QualifyingFlags | src/TagExtractorGUI.java:94-96 | the number of tokens counted is the number that do not normalise to a stop word |
| TagExtractor.CountTags | src/TagExtractorGUI.java:92-98 | the counting loop produces the tag table of the tokens (`Tallies`: sorted, each word's count is its occurrences, stop words absent, all counts positive, counts sum to the non-stop tokens) |
| TagExtractor.TalliesSkipStopWord | src/TagExtractorGUI.java:96 | a token whose normal form is a stop word leaves the table as it is |
| TagExtractor.TalliesCountWord | src/TagExtractorGUI.java:96-97 | `put(word, getOrDefault(word, 0) + 1)` turns the table of the tokens so far into the table with one more token |
| TagExtractor.TalliesEntries | src/TagExtractorGUI.java:92-98 | every entry of the table is a lower-case word, is not a stop word, and holds its number of occurrences, which is at least 1 |
| TagExtractor.TalliesComplete | src/TagExtractorGUI.java:94-97 | every token whose normal form is not a stop word has its normal form in the table |
| TagExtractor.TalliesUnique | src/TagExtractorGUI.java:92-98 | two tables of the same tokens and stop words are equal, so the displayed and saved output is determined by the input |
| TagExtractor.PositiveFind | src/TagExtractorGUI.java:97 | in a map of positive counts, `get` is absent exactly where `getOrDefault(k, 0)` is 0 |
| TagExtractor.EmptyTagQuirk | src/TagExtractorGUI.java:95-97 | when some token has no letter, `""` is a tag exactly when `""` is not a stop word |
| TagExtractor.EntryLine | src/TagExtractorGUI.java:107 | defined as the line for one entry: `key + ": " + count` |
| TagExtractor.FormatTable | src/TagExtractorGUI.java:106-108 | defined as one `EntryLine` per entry, in the table's key order |
| TagExtractor.FormatEntries | src/TagExtractorGUI.java:106-108 | the loop over `entrySet()` yields one `key: count` line per entry, in table order |
| TagExtractor.ColonIndex | src/TagExtractorGUI.java:107 | the position of the first `:` in a line, or the line's length if there is none |
| TagExtractor.ColonIndexOf | src/TagExtractorGUI.java:107 | in `key + ": " + count` with a lower-case key, the first colon directly follows the key |
| TagExtractor.ParseEntryLine | src/TagExtractorGUI.java:125 | a written `key: count` line reads back as its entry |
| TagExtractor.ParseTable | src/TagExtractorGUI.java:124-126 | the written lines of a table read back as the table |
| TagExtractor.SavedTableRoundTrip | src/TagExtractorGUI.java:123-126 | the saved file, split into lines and read back, gives the table, with either line separator |
| TagExtractor.EntryLineOrder | src/TagExtractorGUI.java:124-125 | lines of keys in ascending order are themselves in ascending order |
| TagExtractor.TableLinesAscending | src/TagExtractorGUI.java:106-108 | the output lines of a table are strictly ascending, so no line repeats |
| TagExtractor.TagExtractorGUI.constructor | src/TagExtractorGUI.java:14-16 | at start no document, no stop words, no table and an empty text area |
| TagExtractor.TagExtractorGUI.SelectFile | src/TagExtractorGUI.java:50-59 | an approved choice becomes the document; a cancelled dialog changes nothing |
| TagExtractor.TagExtractorGUI.SelectStopWords | src/TagExtractorGUI.java:61-83 | an approved choice replaces the stop words with the loaded set and reports `StopWordsLoaded`; a missing file sets them to the empty set and reports `StopWordsNotFound` (the "Stop words file not found." dialog); a cancelled dialog changes nothing |
| TagExtractor.TagExtractorGUI.ExtractTags | src/TagExtractorGUI.java:85-109 | with an input missing, nothing changes; with the document missing, the table becomes empty; otherwise the table is the tag table of the document's tokens and the header and its lines are appended to the text area; the table always stays the tag table of what it was counted from (`Valid`) |
| TagExtractor.TagExtractorGUI.SaveTags | src/TagExtractorGUI.java:111-132 | no table means nothing is written; a cancelled dialog writes nothing; an output that cannot be created is an error; otherwise the file holds one `key: count` line per entry, in key order; the saved lines are strictly ascending, and the written file, with either line separator, reads back as the table on hand |
| TagExtractor.MissingDocumentThenSave | src/TagExtractorGUI.java:92-102 | extracting from a missing document and then saving writes an empty file, not an error |
| TagExtractor.ExampleTokens | src/TagExtractorGUI.java:94 | "The Cat sat on the MAT. Cat!" is the seven tokens `The`, `Cat`, `sat`, `on`, `the`, `MAT.`, `Cat!` |
| TagExtractor.ExampleStopWords | src/TagExtractorGUI.java:73-83 | the stop-word lines `the`, `on` load as the set {the, on} |
| TagExtractor.ExampleDocumentTable | src/TagExtractorGUI.java:92-98 | the table of that document under {the, on} is cat 2, mat 1, sat 1 |
| TagExtractor.ExampleLines | src/TagExtractorGUI.java:106-108 | that table is shown and saved as `cat: 2`, `mat: 1`, `sat: 1` |
| TagExtractor.WorkedExample | src/TagExtractorGUI.java:50-132 | choosing the document and the stop-word file, extracting and saving yields `Extracted`, and the saved lines are `cat: 2`, `mat: 1`, `sat: 1` |

## Left out

- The Swing user interface: the frame, the buttons, the layout, `main`, and the dialogs. An error dialog is modelled as the outcome value that names it.
- The "Selected file" and "Selected stop words file" messages appended to the text area.
- The file system is a parameter of the operations: a map from path to contents, where a path that is absent is a file that cannot be opened.
  - The file-chooser result is an `Option` parameter (`None` means the user cancelled).
  - Whether the output file can be created is a set-of-paths parameter.
  - The text written to disk is not modelled as a side effect. `SaveTags` returns the lines to write, and `Text.Render` gives the text `println` produces for a given line separator.
- Character decoding by `Scanner` (charset and malformed input). Documents and stop-word files are modelled as sequences of characters.
- TagExtractor.LoadStopWords: lower-cases ASCII letters only, where Java's `String.toLowerCase` follows the default locale and the whole of Unicode. Stop-word lines whose Java lower-case form differs from their ASCII lower-case form are not modelled. For example, a line holding U+212A KELVIN SIGN lower-cases to `k` in Java and suppresses the tag `k`, but not in this model.
- Text.Normalize: assumes a default locale that is not Turkic at line 95. Under a Turkish or Azerbaijani locale Java lower-cases `I` to U+0131 (dotless i), so the token `TITLE` becomes `tıtle` there, while `Normalize` gives `title`.
- TagExtractor.CountTags: counts are unbounded naturals. The `Integer` count in the source would wrap around after 2^31 − 1 occurrences of one word.
- TagExtractor.CountTags: the table is built as a value and then stored in the field. The source fills the field's `TreeMap` in place, and no other code can observe the half-filled map.
- SortedMap.Less: compares whole characters. Java compares UTF-16 code units, and the two orders differ only for characters outside the Basic Multilingual Plane, which are never keys because every key is a lower-case ASCII word.
- Text.IsWhitespace: follows current Java. Java 8 and earlier also counted U+180E as whitespace.
