/**
 * The text-processing core of `TagExtractorGUI`: loading stop words,
 * counting the normalised tokens of a document that are not stop words,
 * and formatting the counts as `key: count` lines in key order; and the
 * three fields the button handlers guard on.
 */
module TagExtractor {
  import opened Options
  import opened Text
  import opened SortedMap
  import opened Decimal

  /** The files the program can open for reading: path to contents; a path not in the map is not found. */
  type FileSystem = map<string, string>

  // ---------------------------------------------------------------------------
  // Stop words

  /** The set `loadStopWords` builds from the lines of a stop-word file. */
  function StopWordSet(lines: seq<string>): set<string> {
    set line | line in lines :: Lower(line)
  }

  /**
   * `loadStopWords`: every line of the file, lower-cased, in a set. A missing
   * file shows an error and yields the empty set, not null.
   */
  method LoadStopWords(fs: FileSystem, path: string) returns (words: set<string>, found: bool)
    ensures found <==> path in fs
    ensures words == if found then StopWordSet(Lines(fs[path])) else {}
  {
    words := {};
    found := path in fs;
    if found {
      var lines := Lines(fs[path]);
      var i := 0;
      while i < |lines|
        invariant 0 <= i <= |lines|
        invariant words == StopWordSet(lines[..i])
      {
        assert lines[..i + 1] == lines[..i] + [lines[i]];
        words := words + {Lower(lines[i])};
        i := i + 1;
      }
      assert lines[..|lines|] == lines;
    }
  }

  /**
   * A word is a stop word exactly when some line lower-cases to it; stop words
   * hold no upper-case ASCII letter; there are no more of them than lines.
   */
  lemma {:induction false} StopWordSetSpec(lines: seq<string>)
    ensures forall w :: w in StopWordSet(lines) <==> exists i :: 0 <= i < |lines| && Lower(lines[i]) == w
    ensures forall w :: w in StopWordSet(lines) ==> NoAsciiUpper(w) && Lower(w) == w
    ensures |StopWordSet(lines)| <= |lines|
  {
    forall w | w in StopWordSet(lines)
      ensures NoAsciiUpper(w) && Lower(w) == w
    {
      var line :| line in lines && Lower(line) == w;
      LowerSpec(line);
    }
    if lines != [] {
      StopWordSetSpec(lines[1..]);
      assert StopWordSet(lines) == {Lower(lines[0])} + StopWordSet(lines[1..]) by {
        assert forall line :: line in lines <==> line == lines[0] || line in lines[1..];
      }
    }
  }

  /** An empty line in the stop-word file, and only that, makes `""` a stop word. */
  lemma EmptyStopWord(lines: seq<string>)
    ensures "" in StopWordSet(lines) <==> "" in lines
  {
    forall line | line in lines
      ensures Lower(line) == "" <==> line == ""
    {
      LowerSpec(line);
    }
  }

  // ---------------------------------------------------------------------------
  // Counting

  /** How many of the tokens normalise to `w`. */
  function Occurrences(tokens: seq<string>, w: string): nat {
    if tokens == [] then 0
    else Occurrences(tokens[..|tokens| - 1], w) + (if Normalize(tokens[|tokens| - 1]) == w then 1 else 0)
  }

  /** How many of the tokens normalise to a word that is not a stop word. */
  function Qualifying(tokens: seq<string>, stop: set<string>): nat {
    if tokens == [] then 0
    else Qualifying(tokens[..|tokens| - 1], stop) + (if Normalize(tokens[|tokens| - 1]) in stop then 0 else 1)
  }

  /** A word that occurs is the normal form of one of the tokens. */
  lemma {:induction false} OccurrenceWitness(tokens: seq<string>, w: string)
    requires Occurrences(tokens, w) > 0
    ensures exists i :: 0 <= i < |tokens| && Normalize(tokens[i]) == w
  {
    var last := |tokens| - 1;
    if Normalize(tokens[last]) != w {
      OccurrenceWitness(tokens[..last], w);
      var i :| 0 <= i < last && Normalize(tokens[..last][i]) == w;
      assert tokens[i] == tokens[..last][i];
    }
  }

  /** Every token that normalises to `w` is counted. */
  lemma {:induction false} OccurrenceOfToken(tokens: seq<string>, i: nat)
    requires i < |tokens|
    ensures Occurrences(tokens, Normalize(tokens[i])) > 0
  {
    var last := |tokens| - 1;
    if i < last {
      OccurrenceOfToken(tokens[..last], i);
      assert tokens[..last][i] == tokens[i];
    }
  }

  /** Counting one more token, by the definitions of `Occurrences` and `Qualifying`. */
  lemma CountSnoc(tokens: seq<string>, t: string, w: string, stop: set<string>)
    ensures Occurrences(tokens + [t], w) == Occurrences(tokens, w) + (if Normalize(t) == w then 1 else 0)
    ensures Qualifying(tokens + [t], stop) == Qualifying(tokens, stop) + (if Normalize(t) in stop then 0 else 1)
  {
  }

  /** `Occurrences` counts a word among the normal forms of the tokens. */
  lemma {:induction false} OccurrencesForms(tokens: seq<string>, w: string, forms: seq<string>)
    requires |forms| == |tokens|
    requires forall i :: 0 <= i < |tokens| ==> forms[i] == Normalize(tokens[i])
    ensures Occurrences(tokens, w) == multiset(forms)[w]
  {
    if tokens != [] {
      OccurrencesForms(tokens[..|tokens| - 1], w, forms[..|forms| - 1]);
      assert forms == forms[..|forms| - 1] + [forms[|forms| - 1]];
    }
  }

  /** `Qualifying` counts the tokens flagged as not normalising to a stop word. */
  lemma {:induction false} QualifyingFlags(tokens: seq<string>, stop: set<string>, flags: seq<bool>)
    requires |flags| == |tokens|
    requires forall i :: 0 <= i < |tokens| ==> flags[i] == (Normalize(tokens[i]) !in stop)
    ensures Qualifying(tokens, stop) == multiset(flags)[true]
  {
    if tokens != [] {
      QualifyingFlags(tokens[..|tokens| - 1], stop, flags[..|flags| - 1]);
      assert flags == flags[..|flags| - 1] + [flags[|flags| - 1]];
    }
  }

  /**
   * `freq` is the tag table of `tokens` under `stop`: a sorted map whose count
   * for every word is the number of tokens normalising to it, zero (absent)
   * for stop words; every stored count is at least one; and the counts add up
   * to the number of tokens that are not stop words.
   */
  ghost predicate Tallies(freq: seq<Entry>, tokens: seq<string>, stop: set<string>) {
    && StrictlySorted(freq)
    && (forall x :: x in freq ==> x.count >= 1)
    && (forall w :: GetOrDefault(freq, w, 0) == if w in stop then 0 else Occurrences(tokens, w))
    && Total(freq) == Qualifying(tokens, stop)
  }

  /**
   * The counting loop of `extractTags`: each token is normalised and, unless
   * it is a stop word, `put(word, getOrDefault(word, 0) + 1)` into a map that
   * starts empty.
   */
  method CountTags(tokens: seq<string>, stop: set<string>) returns (freq: seq<Entry>)
    ensures Tallies(freq, tokens, stop)
  {
    freq := [];
    var i := 0;
    while i < |tokens|
      invariant 0 <= i <= |tokens|
      invariant Tallies(freq, tokens[..i], stop)
    {
      assert tokens[..i + 1] == tokens[..i] + [tokens[i]];
      var word := Normalize(tokens[i]);
      if word !in stop {
        TalliesCountWord(freq, tokens[..i], stop, tokens[i]);
        freq := Put(freq, word, GetOrDefault(freq, word, 0) + 1);
      } else {
        TalliesSkipStopWord(freq, tokens[..i], stop, tokens[i]);
      }
      i := i + 1;
    }
    assert tokens[..|tokens|] == tokens;
  }

  /** A token that normalises to a stop word leaves the table as it is. */
  lemma TalliesSkipStopWord(freq: seq<Entry>, tokens: seq<string>, stop: set<string>, t: string)
    requires Tallies(freq, tokens, stop)
    requires Normalize(t) in stop
    ensures Tallies(freq, tokens + [t], stop)
  {
    CountSnoc(tokens, t, "", stop);
    forall j
      ensures GetOrDefault(freq, j, 0) == if j in stop then 0 else Occurrences(tokens + [t], j)
    {
      CountSnoc(tokens, t, j, stop);
    }
  }

  /** Any other token raises the count of its normal form by one, starting from zero. */
  lemma TalliesCountWord(freq: seq<Entry>, tokens: seq<string>, stop: set<string>, t: string)
    requires Tallies(freq, tokens, stop)
    requires Normalize(t) !in stop
    ensures Tallies(Put(freq, Normalize(t), GetOrDefault(freq, Normalize(t), 0) + 1), tokens + [t], stop)
  {
    var w := Normalize(t);
    var n := GetOrDefault(freq, w, 0) + 1;
    var r := Put(freq, w, n);
    assert Total(r) == Qualifying(tokens + [t], stop) by {
      PutTotal(freq, w, n);
      CountSnoc(tokens, t, w, stop);
    }
    assert forall x :: x in r ==> x.count >= 1;
    forall j
      ensures GetOrDefault(r, j, 0) == if j in stop then 0 else Occurrences(tokens + [t], j)
    {
      CountSnoc(tokens, t, j, stop);
      assert Find(r, j) == if j == w then Some(n) else Find(freq, j);
    }
  }

  /** Each entry of a tag table is a tag word, is not a stop word, and counts its occurrences. */
  lemma TalliesEntries(freq: seq<Entry>, tokens: seq<string>, stop: set<string>)
    requires Tallies(freq, tokens, stop)
    ensures forall i :: 0 <= i < |freq| ==> freq[i].key !in stop
    ensures forall i :: 0 <= i < |freq| ==> IsTagWord(freq[i].key)
    ensures forall i :: 0 <= i < |freq| ==> freq[i].count == Occurrences(tokens, freq[i].key) >= 1
  {
    forall i | 0 <= i < |freq|
      ensures freq[i].key !in stop && IsTagWord(freq[i].key)
      ensures freq[i].count == Occurrences(tokens, freq[i].key) >= 1
    {
      FindEntry(freq, i);
      assert GetOrDefault(freq, freq[i].key, 0) == freq[i].count;
      OccurrenceWitness(tokens, freq[i].key);
    }
  }

  /** A tag table holds every normalised token that is not a stop word. */
  lemma TalliesComplete(freq: seq<Entry>, tokens: seq<string>, stop: set<string>, i: nat)
    requires Tallies(freq, tokens, stop)
    requires i < |tokens| && Normalize(tokens[i]) !in stop
    ensures Normalize(tokens[i]) in Keys(freq)
  {
    OccurrenceOfToken(tokens, i);
  }

  /** The tag table is unique: any two tables of the same tokens and stop words are the same sequence. */
  lemma TalliesUnique(f1: seq<Entry>, f2: seq<Entry>, tokens: seq<string>, stop: set<string>)
    requires Tallies(f1, tokens, stop) && Tallies(f2, tokens, stop)
    ensures f1 == f2
  {
    forall k
      ensures Find(f1, k) == Find(f2, k)
    {
      PositiveFind(f1, k);
      PositiveFind(f2, k);
    }
    SortedExtensional(f1, f2);
  }

  lemma PositiveFind(freq: seq<Entry>, k: string)
    requires forall x :: x in freq ==> x.count >= 1
    ensures Find(freq, k) == if GetOrDefault(freq, k, 0) == 0 then None else Some(GetOrDefault(freq, k, 0))
  {
    if Find(freq, k).Some? {
      assert Entry(k, Find(freq, k).value) in freq;
    }
  }

  /**
   * A token with no letter normalises to `""`, which is then counted as a tag
   * unless `""` is itself a stop word (which only an empty stop-word line makes it).
   */
  lemma EmptyTagQuirk(freq: seq<Entry>, tokens: seq<string>, stop: set<string>, i: nat)
    requires Tallies(freq, tokens, stop)
    requires i < |tokens| && forall j :: 0 <= j < |tokens[i]| ==> !IsAsciiLetter(tokens[i][j])
    ensures "" in Keys(freq) <==> "" !in stop
  {
    OccurrenceOfToken(tokens, i);
  }

  // ---------------------------------------------------------------------------
  // Formatting

  /** One line of output: `key + ": " + count`. */
  function EntryLine(e: Entry): string {
    e.key + ": " + DecimalString(e.count)
  }

  /** The lines shown and saved for a table: one per entry, in the table's (key) order. */
  function FormatTable(freq: seq<Entry>): seq<string> {
    seq(|freq|, i requires 0 <= i < |freq| => EntryLine(freq[i]))
  }

  /** The loop over `entrySet()` that appends one line per entry (display and save alike). */
  method FormatEntries(freq: seq<Entry>) returns (lines: seq<string>)
    ensures lines == FormatTable(freq)
  {
    lines := [];
    var i := 0;
    while i < |freq|
      invariant 0 <= i <= |freq|
      invariant lines == FormatTable(freq[..i])
    {
      lines := lines + [EntryLine(freq[i])];
      i := i + 1;
    }
    assert freq[..|freq|] == freq;
  }

  /** Number of characters before the first `:`. */
  function ColonIndex(s: string): (n: nat)
    ensures n <= |s|
    ensures forall i :: 0 <= i < n ==> s[i] != ':'
    ensures n < |s| ==> s[n] == ':'
  {
    if s == [] || s[0] == ':' then 0
    else
      var n := 1 + ColonIndex(s[1..]);
      assert forall i :: 1 <= i < n ==> s[i] == s[1..][i - 1];
      n
  }

  /** Reads a `key: count` line back; `None` when it is not one. */
  function ParseLine(line: string): Option<Entry> {
    var n := ColonIndex(line);
    if n + 2 <= |line| && line[n + 1] == ' ' then
      match ParseDecimal(line[n + 2..])
      case Some(c) => Some(Entry(line[..n], c))
      case None => None
    else None
  }

  function ParseLines(lines: seq<string>): Option<seq<Entry>> {
    if lines == [] then Some([])
    else
      match ParseLine(lines[0])
      case None => None
      case Some(e) =>
        match ParseLines(lines[1..])
        case None => None
        case Some(es) => Some([e] + es)
  }

  lemma {:induction false} ColonIndexOf(key: string, tail: string)
    requires forall i :: 0 <= i < |key| ==> key[i] != ':'
    requires tail != [] && tail[0] == ':'
    ensures ColonIndex(key + tail) == |key|
    decreases |key|
  {
    if key == [] {
      assert key + tail == tail;
    } else {
      assert (key + tail)[1..] == key[1..] + tail;
      ColonIndexOf(key[1..], tail);
    }
  }

  /** A formatted line reads back as the entry it was made from. */
  lemma ParseEntryLine(e: Entry)
    requires IsTagWord(e.key)
    ensures ParseLine(EntryLine(e)) == Some(e)
  {
    var line, d := EntryLine(e), DecimalString(e.count);
    assert line == e.key + (": " + d);
    ColonIndexOf(e.key, ": " + d);
    var n := |e.key|;
    assert line[..n] == e.key;
    assert line[n + 2..] == d;
    ParseDecimalString(e.count);
  }

  /**
   * Saving then reading the file back, line by line, gives the table: for
   * either platform line separator, the saved lines parse to the same entries.
   */
  lemma {:induction false} SavedTableRoundTrip(freq: seq<Entry>, sep: string)
    requires IsLineSeparator(sep)
    requires forall i :: 0 <= i < |freq| ==> IsTagWord(freq[i].key)
    ensures ParseLines(Lines(Render(FormatTable(freq), sep))) == Some(freq)
  {
    var lines := FormatTable(freq);
    forall k, i | 0 <= k < |lines| && 0 <= i < |lines[k]|
      ensures !IsLineTerminator(lines[k][i])
    {
      var key, d := freq[k].key, DecimalString(freq[k].count);
      assert lines[k] == key + ": " + d;
      if i < |key| {
        assert lines[k][i] == key[i];
      } else if i >= |key| + 2 {
        assert lines[k][i] == d[i - |key| - 2];
      }
    }
    LinesOfRender(lines, sep);
    ParseTable(freq);
  }

  lemma {:induction false} ParseTable(freq: seq<Entry>)
    requires forall i :: 0 <= i < |freq| ==> IsTagWord(freq[i].key)
    ensures ParseLines(FormatTable(freq)) == Some(freq)
  {
    if freq != [] {
      ParseEntryLine(freq[0]);
      assert FormatTable(freq)[1..] == FormatTable(freq[1..]);
      ParseTable(freq[1..]);
      assert freq == [freq[0]] + freq[1..];
    }
  }

  /** Lines of tags in ascending key order are themselves in ascending string order. */
  lemma {:induction false} EntryLineOrder(a: Entry, b: Entry)
    requires IsTagWord(a.key) && IsTagWord(b.key) && Less(a.key, b.key)
    ensures Less(EntryLine(a), EntryLine(b))
    decreases |a.key|
  {
    var la, lb := EntryLine(a), EntryLine(b);
    if a.key == [] {
      assert la[0] == ':' && lb[0] == b.key[0];
    } else {
      assert la[0] == a.key[0] && lb[0] == b.key[0];
      if a.key[0] == b.key[0] {
        var a', b' := Entry(a.key[1..], a.count), Entry(b.key[1..], b.count);
        EntryLineOrder(a', b');
        assert la[1..] == EntryLine(a') && lb[1..] == EntryLine(b');
      }
    }
  }

  /** The formatted lines of a tag table are strictly ascending and hence all different. */
  lemma TableLinesAscending(freq: seq<Entry>, tokens: seq<string>, stop: set<string>)
    requires Tallies(freq, tokens, stop)
    ensures |FormatTable(freq)| == |freq|
    ensures forall i, j :: 0 <= i < j < |freq| ==> Less(FormatTable(freq)[i], FormatTable(freq)[j])
  {
    TalliesEntries(freq, tokens, stop);
    forall i, j | 0 <= i < j < |freq|
      ensures Less(FormatTable(freq)[i], FormatTable(freq)[j])
    {
      EntryLineOrder(freq[i], freq[j]);
    }
  }

  // ---------------------------------------------------------------------------
  // The handlers and the fields they guard on

  /** What the stop-word handler ends with (a missing file is an error dialog). */
  datatype StopWordsOutcome = StopWordsCancelled | StopWordsNotFound | StopWordsLoaded

  /** What the extract handler ends with (each failure is an error dialog). */
  datatype ExtractOutcome = InputsMissing | DocumentNotFound | Extracted

  /** What the save handler ends with. */
  datatype SaveOutcome = NothingExtracted | Cancelled | SaveFailed | Saved(path: string, lines: seq<string>)

  const ExtractedHeader: string := "Tags extracted from file: "

  class TagExtractorGUI {
    /** The chosen document, by path; `None` until one is chosen. */
    var selectedFile: Option<string>
    /** The loaded stop words; `None` until a stop-word file is chosen. */
    var stopWords: Option<set<string>>
    /** The tag table of the last extraction; `None` until the first one. */
    var tagFrequency: Option<seq<Entry>>
    /** The lines appended to the text area by extractions. */
    var textArea: seq<string>

    /** The tokens and stop words the current table was counted from. */
    ghost var countedTokens: seq<string>
    ghost var countedWith: set<string>

    /** The table on hand, if any, is the tag table of what it was counted from. */
    ghost predicate Valid()
      reads this
    {
      tagFrequency.Some? ==> Tallies(tagFrequency.value, countedTokens, countedWith)
    }

    constructor ()
      ensures Valid()
      ensures selectedFile == None && stopWords == None && tagFrequency == None && textArea == []
    {
      selectedFile := None;
      stopWords := None;
      tagFrequency := None;
      textArea := [];
      countedTokens := [];
      countedWith := {};
    }

    /** `selectFile`: an approved choice becomes the document; a cancelled one changes nothing. */
    method SelectFile(choice: Option<string>)
      requires Valid()
      modifies this`selectedFile
      ensures Valid()
      ensures selectedFile == if choice.Some? then choice else old(selectedFile)
    {
      if choice.Some? {
        selectedFile := choice;
      }
    }

    /**
     * `selectStopWords`: an approved choice replaces the stop words with those it
     * loads; a missing file shows "Stop words file not found." and loads none.
     */
    method SelectStopWords(choice: Option<string>, fs: FileSystem) returns (outcome: StopWordsOutcome)
      requires Valid()
      modifies this`stopWords
      ensures Valid()
      ensures choice.None? ==> outcome == StopWordsCancelled && stopWords == old(stopWords)
      ensures choice.Some? && choice.value in fs ==>
        outcome == StopWordsLoaded && stopWords == Some(StopWordSet(Lines(fs[choice.value])))
      ensures choice.Some? && choice.value !in fs ==> outcome == StopWordsNotFound && stopWords == Some({})
    {
      if choice.None? {
        return StopWordsCancelled;
      }
      var words, found := LoadStopWords(fs, choice.value);
      stopWords := Some(words);
      outcome := if found then StopWordsLoaded else StopWordsNotFound;
    }

    /**
     * `extractTags`: needs both inputs, else changes nothing. Otherwise the
     * table is reset to empty before the document is opened, so a missing
     * document leaves an empty table; a readable one is counted and its lines
     * are appended to the text area under a header.
     */
    method ExtractTags(fs: FileSystem) returns (outcome: ExtractOutcome)
      requires Valid()
      modifies this`tagFrequency, this`textArea, this`countedTokens, this`countedWith
      ensures Valid()
      ensures selectedFile.None? || stopWords.None? ==>
        outcome == InputsMissing && tagFrequency == old(tagFrequency) && textArea == old(textArea)
      ensures selectedFile.Some? && stopWords.Some? && selectedFile.value !in fs ==>
        outcome == DocumentNotFound && tagFrequency == Some([]) && textArea == old(textArea)
      ensures selectedFile.Some? && stopWords.Some? && selectedFile.value in fs ==>
        && outcome == Extracted
        && tagFrequency.Some?
        && Tallies(tagFrequency.value, Tokens(fs[selectedFile.value]), stopWords.value)
        && textArea == old(textArea) + [ExtractedHeader] + FormatTable(tagFrequency.value)
    {
      if selectedFile.None? || stopWords.None? {
        return InputsMissing;
      }
      tagFrequency := Some([]);
      countedTokens := [];
      countedWith := stopWords.value;
      var path := selectedFile.value;
      if path !in fs {
        return DocumentNotFound;
      }
      var tokens := Tokens(fs[path]);
      var freq := CountTags(tokens, stopWords.value);
      tagFrequency := Some(freq);
      countedTokens := tokens;
      var lines := FormatEntries(freq);
      textArea := textArea + [ExtractedHeader] + lines;
      outcome := Extracted;
    }

    /**
     * `saveTags`: needs a table, else writes nothing. A cancelled dialog writes
     * nothing; a file that cannot be created is an error; otherwise one line
     * per entry is written, in key order.
     */
    method SaveTags(choice: Option<string>, creatable: set<string>) returns (outcome: SaveOutcome)
      requires Valid()
      ensures tagFrequency.None? ==> outcome == NothingExtracted
      ensures tagFrequency.Some? && choice.None? ==> outcome == Cancelled
      ensures tagFrequency.Some? && choice.Some? && choice.value !in creatable ==> outcome == SaveFailed
      ensures tagFrequency.Some? && choice.Some? && choice.value in creatable ==>
        outcome == Saved(choice.value, FormatTable(tagFrequency.value))
      ensures outcome.Saved? ==>
        forall i, j :: 0 <= i < j < |outcome.lines| ==> Less(outcome.lines[i], outcome.lines[j])
      ensures outcome.Saved? ==>
        forall sep :: IsLineSeparator(sep) ==> ParseLines(Lines(Render(outcome.lines, sep))) == tagFrequency
    {
      if tagFrequency.None? {
        return NothingExtracted;
      }
      if choice.None? {
        return Cancelled;
      }
      if choice.value !in creatable {
        return SaveFailed;
      }
      var lines := FormatEntries(tagFrequency.value);
      TableLinesAscending(tagFrequency.value, countedTokens, countedWith);
      TalliesEntries(tagFrequency.value, countedTokens, countedWith);
      forall sep | IsLineSeparator(sep)
        ensures ParseLines(Lines(Render(lines, sep))) == tagFrequency
      {
        SavedTableRoundTrip(tagFrequency.value, sep);
      }
      outcome := Saved(choice.value, lines);
    }
  }

  /**
   * A missing document after both inputs were chosen resets the table, so a
   * save that follows writes an empty file rather than the previous table.
   */
  method MissingDocumentThenSave(gui: TagExtractorGUI, fs: FileSystem, out: string)
    returns (extracted: ExtractOutcome, saved: SaveOutcome)
    requires gui.Valid()
    requires gui.selectedFile.Some? && gui.selectedFile.value !in fs && gui.stopWords.Some?
    modifies gui
    ensures extracted == DocumentNotFound
    ensures saved == Saved(out, [])
  {
    extracted := gui.ExtractTags(fs);
    saved := gui.SaveTags(Some(out), {out});
  }

  // ---------------------------------------------------------------------------
  // A worked example: the document "The Cat sat on the MAT. Cat!" with the
  // stop-word file "the\non\n"

  /** Seven words joined by spaces, written out. */
  lemma JoinSeven(w: seq<string>)
    requires |w| == 7
    ensures JoinWords(w) == w[0] + " " + w[1] + " " + w[2] + " " + w[3] + " " + w[4] + " " + w[5] + " " + w[6]
  {
    assert JoinWords(w[6..]) == w[6];
    assert JoinWords(w[5..]) == w[5] + " " + JoinWords(w[6..]) by { assert w[5..][1..] == w[6..]; }
    assert JoinWords(w[4..]) == w[4] + " " + JoinWords(w[5..]) by { assert w[4..][1..] == w[5..]; }
    assert JoinWords(w[3..]) == w[3] + " " + JoinWords(w[4..]) by { assert w[3..][1..] == w[4..]; }
    assert JoinWords(w[2..]) == w[2] + " " + JoinWords(w[3..]) by { assert w[2..][1..] == w[3..]; }
    assert JoinWords(w[1..]) == w[1] + " " + JoinWords(w[2..]) by { assert w[1..][1..] == w[2..]; }
  }

  /** The sentence "The Cat sat on the MAT. Cat!" is its seven words joined by spaces. */
  lemma ExampleJoin()
    ensures JoinWords(["The", "Cat", "sat", "on", "the", "MAT.", "Cat!"]) == "The Cat sat on the MAT. Cat!"
  {
    JoinSeven(["The", "Cat", "sat", "on", "the", "MAT.", "Cat!"]);
  }

  /** The sentence "The Cat sat on the MAT. Cat!" splits into seven tokens. */
  lemma ExampleTokens()
    ensures var t := Tokens("The Cat sat on the MAT. Cat!");
      && |t| == 7 && t[0] == "The" && t[1] == "Cat" && t[2] == "sat" && t[3] == "on"
      && t[4] == "the" && t[5] == "MAT." && t[6] == "Cat!"
  {
    ExampleJoin();
    TokensOfJoinWords(["The", "Cat", "sat", "on", "the", "MAT.", "Cat!"]);
  }

  /** The stop-word file "the\non\n" holds the lines `the` and `on`. */
  lemma ExampleStopLines()
    ensures Lines("the\non\n") == ["the", "on"]
  {
    var lines := ["the", "on"];
    assert Render(lines[1..], "\n") == "on\n" by { assert lines[1..][1..] == []; }
    assert Render(lines, "\n") == "the\non\n";
    LinesOfRender(lines, "\n");
  }

  /** Those lines load as the set {the, on}. */
  lemma ExampleStopWords(lines: seq<string>)
    requires lines == ["the", "on"]
    ensures StopWordSet(lines) == {"the", "on"}
  {
    var the, on := lines[0], lines[1];
    LowerSpec(the);
    LowerSpec(on);
    assert Lower(the) == the;
    assert Lower(on) == on;
    assert forall line :: line in lines <==> line == the || line == on;
  }

  /** Normalising a word written with letters, then punctuation. */
  lemma NormalizeOf(word: string, marks: string, w: string)
    requires forall i :: 0 <= i < |word| ==> IsAsciiLetter(word[i])
    requires forall i :: 0 <= i < |marks| ==> !IsAsciiLetter(marks[i])
    requires |w| == |word| && forall i :: 0 <= i < |w| ==> LowerChar(word[i]) == w[i]
    ensures Normalize(word + marks) == w
  {
    KeepLettersOfWordThenMarks(word, marks);
  }

  /** The seven tokens normalise to the, cat, sat, on, the, mat, cat. */
  lemma ExampleNormalized()
    ensures Normalize("The") == "the" && Normalize("Cat") == "cat" && Normalize("sat") == "sat"
    ensures Normalize("on") == "on" && Normalize("the") == "the"
    ensures Normalize("MAT.") == "mat" && Normalize("Cat!") == "cat"
  {
    NormalizedCapitalised();
    NormalizedLower();
    NormalizedStopWords();
    NormalizedPunctuated();
  }

  lemma NormalizedCapitalised()
    ensures Normalize("The") == "the" && Normalize("Cat") == "cat"
  {
    assert Normalize("The") == "the" by { assert "The" == "The" + ""; NormalizeOf("The", "", "the"); }
    assert Normalize("Cat") == "cat" by { assert "Cat" == "Cat" + ""; NormalizeOf("Cat", "", "cat"); }
  }

  lemma NormalizedLower()
    ensures Normalize("sat") == "sat"
  {
    NormalizeOnto("sat");
  }

  lemma NormalizedStopWords()
    ensures Normalize("on") == "on" && Normalize("the") == "the"
  {
    NormalizeOnto("on");
    NormalizeOnto("the");
  }

  lemma NormalizedPunctuated()
    ensures Normalize("MAT.") == "mat" && Normalize("Cat!") == "cat"
  {
    assert Normalize("MAT.") == "mat" by { assert "MAT." == "MAT" + "."; NormalizeOf("MAT", ".", "mat"); }
    assert Normalize("Cat!") == "cat" by { assert "Cat!" == "Cat" + "!"; NormalizeOf("Cat", "!", "cat"); }
  }

  /** How often a word appears among the normal forms the, cat, sat, on, the, mat, cat. */
  lemma ExampleFormCounts(w: string)
    ensures multiset(["the", "cat", "sat", "on", "the", "mat", "cat"])[w] ==
      (if w == "the" || w == "cat" then 2 else if w == "sat" || w == "on" || w == "mat" then 1 else 0)
  {
  }

  /** Counting seven tokens that normalise to the, cat, sat, on, the, mat, cat. */
  lemma ExampleOccurrences(t: seq<string>, w: string)
    requires |t| == 7
    requires Normalize(t[0]) == "the" && Normalize(t[1]) == "cat" && Normalize(t[2]) == "sat"
    requires Normalize(t[3]) == "on" && Normalize(t[4]) == "the" && Normalize(t[5]) == "mat"
    requires Normalize(t[6]) == "cat"
    ensures Occurrences(t, w) ==
      (if w == "the" || w == "cat" then 2 else if w == "sat" || w == "on" || w == "mat" then 1 else 0)
  {
    var forms := ["the", "cat", "sat", "on", "the", "mat", "cat"];
    // The empty branches only split the cases i = 0, ..., 6 for the verifier.
    forall i | 0 <= i < 7
      ensures forms[i] == Normalize(t[i])
    {
      if i == 0 {
      } else if i == 1 {
      } else if i == 2 {
      } else if i == 3 {
      } else if i == 4 {
      } else if i == 5 {
      } else {
        assert i == 6;
      }
    }
    OccurrencesForms(t, w, forms);
    ExampleFormCounts(w);
  }

  /** Four of those seven tokens are not stop words. */
  lemma ExampleQualifying(t: seq<string>)
    requires |t| == 7
    requires Normalize(t[0]) == "the" && Normalize(t[1]) == "cat" && Normalize(t[2]) == "sat"
    requires Normalize(t[3]) == "on" && Normalize(t[4]) == "the" && Normalize(t[5]) == "mat"
    requires Normalize(t[6]) == "cat"
    ensures Qualifying(t, {"the", "on"}) == 4
  {
    var flags := [false, true, true, false, false, true, true];
    // The empty branches only split the cases i = 0, ..., 6 for the verifier.
    forall i | 0 <= i < 7
      ensures flags[i] == (Normalize(t[i]) !in {"the", "on"})
    {
      if i == 0 {
      } else if i == 1 {
      } else if i == 2 {
      } else if i == 3 {
      } else if i == 4 {
      } else if i == 5 {
      } else {
        assert i == 6;
      }
    }
    QualifyingFlags(t, {"the", "on"}, flags);
  }

  /** The three entries are in ascending order of their tags. */
  lemma ExampleSorted()
    ensures StrictlySorted([Entry("cat", 2), Entry("mat", 1), Entry("sat", 1)])
  {
    var table := [Entry("cat", 2), Entry("mat", 1), Entry("sat", 1)];
    assert Less("cat", "mat") && Less("mat", "sat") && Less("cat", "sat");
    assert forall i, j :: 0 <= i < j < 3 ==> Less(table[i].key, table[j].key);
  }

  /** Looking a word up in the table gives its count among the seven tokens. */
  lemma ExampleLookup(t: seq<string>, w: string)
    requires |t| == 7
    requires Normalize(t[0]) == "the" && Normalize(t[1]) == "cat" && Normalize(t[2]) == "sat"
    requires Normalize(t[3]) == "on" && Normalize(t[4]) == "the" && Normalize(t[5]) == "mat"
    requires Normalize(t[6]) == "cat"
    ensures GetOrDefault([Entry("cat", 2), Entry("mat", 1), Entry("sat", 1)], w, 0) ==
      if w in {"the", "on"} then 0 else Occurrences(t, w)
  {
    ExampleOccurrences(t, w);
  }

  /** The table of seven such tokens under the stop words `the` and `on`. */
  lemma ExampleTallies(t: seq<string>)
    requires |t| == 7
    requires Normalize(t[0]) == "the" && Normalize(t[1]) == "cat" && Normalize(t[2]) == "sat"
    requires Normalize(t[3]) == "on" && Normalize(t[4]) == "the" && Normalize(t[5]) == "mat"
    requires Normalize(t[6]) == "cat"
    ensures Tallies([Entry("cat", 2), Entry("mat", 1), Entry("sat", 1)], t, {"the", "on"})
  {
    var table := [Entry("cat", 2), Entry("mat", 1), Entry("sat", 1)];
    ExampleSorted();
    forall w
      ensures GetOrDefault(table, w, 0) == if w in {"the", "on"} then 0 else Occurrences(t, w)
    {
      ExampleLookup(t, w);
    }
    ExampleQualifying(t);
    assert Total(table) == 4;
  }

  /** Its lines, as shown and as saved. */
  lemma ExampleLines()
    ensures FormatTable([Entry("cat", 2), Entry("mat", 1), Entry("sat", 1)]) == ["cat: 2", "mat: 1", "sat: 1"]
  {
    assert DecimalString(2) == "2" && DecimalString(1) == "1";
    assert EntryLine(Entry("cat", 2)) == "cat: 2";
    assert EntryLine(Entry("mat", 1)) == "mat: 1";
    assert EntryLine(Entry("sat", 1)) == "sat: 1";
  }

  /** The table of the sentence "The Cat sat on the MAT. Cat!" under the stop words `the` and `on`. */
  lemma ExampleTable(t: seq<string>)
    requires |t| == 7 && t[0] == "The" && t[1] == "Cat" && t[2] == "sat" && t[3] == "on"
    requires t[4] == "the" && t[5] == "MAT." && t[6] == "Cat!"
    ensures Tallies([Entry("cat", 2), Entry("mat", 1), Entry("sat", 1)], t, {"the", "on"})
  {
    ExampleNormalized();
    ExampleTallies(t);
  }

  /** The table of the document "The Cat sat on the MAT. Cat!" under the stop words `the` and `on`. */
  lemma ExampleDocumentTable()
    ensures Tallies([Entry("cat", 2), Entry("mat", 1), Entry("sat", 1)], Tokens("The Cat sat on the MAT. Cat!"), {"the", "on"})
  {
    ExampleTokens();
    ExampleTable(Tokens("The Cat sat on the MAT. Cat!"));
  }

  /** The example run end to end: choose both files, extract, save. */
  method WorkedExample() returns (extracted: ExtractOutcome, saved: SaveOutcome)
    ensures extracted == Extracted
    ensures saved == Saved("tags.txt", ["cat: 2", "mat: 1", "sat: 1"])
  {
    var fs: FileSystem := map["story.txt" := "The Cat sat on the MAT. Cat!", "stop.txt" := "the\non\n"];
    var gui := new TagExtractorGUI();
    gui.SelectFile(Some("story.txt"));
    var loaded := gui.SelectStopWords(Some("stop.txt"), fs);
    assert gui.selectedFile == Some("story.txt") && "story.txt" in fs;
    ExampleStopLines();
    ExampleStopWords(Lines(fs["stop.txt"]));
    assert gui.stopWords == Some({"the", "on"});
    ghost var stop := gui.stopWords.value;
    extracted := gui.ExtractTags(fs);
    ghost var tokens := Tokens(fs["story.txt"]);
    assert Tallies(gui.tagFrequency.value, tokens, stop);
    ExampleDocumentTable();
    var table := [Entry("cat", 2), Entry("mat", 1), Entry("sat", 1)];
    TalliesUnique(gui.tagFrequency.value, table, tokens, {"the", "on"});
    ExampleLines();
    saved := gui.SaveTags(Some("tags.txt"), {"tags.txt"});
  }
}
