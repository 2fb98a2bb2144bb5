/** The `remove_expired_urls` management command
    (api/management/commands/remove_expired_urls.py): select the records that
    expire within the grace period, stage their keys in a file one per line,
    read the file back and delete the keys in batches, then remove the file.
    The file is a pair of fields of the command: whether it exists, and its
    text. */
module RemoveExpiredUrls {
  import opened Consts
  import opened Models
  import opened UrlService

  /** The concatenation of a sequence of batches. */
  function Flatten<T>(batches: seq<seq<T>>): seq<T> {
    if batches == [] then [] else batches[0] + Flatten(batches[1..])
  }

  lemma {:induction false} FlattenAppend<T>(batches: seq<seq<T>>, last: seq<T>)
    ensures Flatten(batches + [last]) == Flatten(batches) + last
  {
    if batches != [] {
      assert (batches + [last])[1..] == batches[1..] + [last];
      FlattenAppend(batches[1..], last);
    } else {
      assert batches + [last] == [last];
    }
  }

  /** `iterate_in_batches(items, total, batch_size)` with `total == |items|`:
      the items cut into consecutive slices of `batch_size`. */
  function IterateInBatches<T>(items: seq<T>, batchSize: nat): (batches: seq<seq<T>>)
    requires batchSize >= 1
    decreases |items|
  {
    if items == [] then []
    else if |items| <= batchSize then [items]
    else [items[..batchSize]] + IterateInBatches(items[batchSize..], batchSize)
  }

  /** The batches are non-empty, hold `batch_size` items each except the last,
      which may be shorter, and together are the items in order. */
  lemma {:induction false} BatchesAreSlices<T>(items: seq<T>, batchSize: nat)
    requires batchSize >= 1
    ensures var batches := IterateInBatches(items, batchSize);
      && Flatten(batches) == items
      && (forall i :: 0 <= i < |batches| ==> 0 < |batches[i]| <= batchSize)
      && (forall i :: 0 <= i < |batches| - 1 ==> |batches[i]| == batchSize)
    decreases |items|
  {
    if |items| > batchSize {
      var batches := IterateInBatches(items, batchSize);
      var rest := IterateInBatches(items[batchSize..], batchSize);
      BatchesAreSlices(items[batchSize..], batchSize);
      assert batches[1..] == rest;
      assert items == items[..batchSize] + items[batchSize..];
      assert forall i :: 1 <= i < |batches| ==> batches[i] == rest[i - 1];
    }
  }

  /** There are `ceil(|items| / batch_size)` batches. */
  lemma {:induction false} BatchCount<T>(items: seq<T>, batchSize: nat)
    requires batchSize >= 1
    ensures (|IterateInBatches(items, batchSize)| - 1) * batchSize < |items| <= |IterateInBatches(items, batchSize)| * batchSize
  {
    if |items| > batchSize {
      var n := |IterateInBatches(items[batchSize..], batchSize)|;
      BatchCount(items[batchSize..], batchSize);
      assert |IterateInBatches(items, batchSize)| == n + 1;
      assert (n + 1) * batchSize == n * batchSize + batchSize;
    }
  }

  /** 2500 staged keys with the default batch size go in three delete calls
      of 1000, 1000 and 500 keys. */
  lemma DefaultBatchesOf2500<T>(items: seq<T>)
    requires |items| == 2500
    ensures |IterateInBatches(items, DEFAULT_EXPIRED_URLS_ITERATION_BATCH_SIZE)| == 3
    ensures |IterateInBatches(items, DEFAULT_EXPIRED_URLS_ITERATION_BATCH_SIZE)[2]| == 500
  {
    var b := IterateInBatches(items, 1000);
    BatchesAreSlices(items, 1000);
    BatchCount(items, 1000);
    assert |Flatten(b)| == 2500;
    assert b == [items[..1000]] + IterateInBatches(items[1000..], 1000);
    assert items[1000..][1000..] == items[2000..];
    assert IterateInBatches(items[1000..], 1000) == [items[1000..][..1000]] + IterateInBatches(items[2000..], 1000);
    assert IterateInBatches(items[2000..], 1000) == [items[2000..]];
  }

  /** `sep.join(parts)`. */
  function Join(sep: string, parts: seq<string>): string {
    if parts == [] then "" else if |parts| == 1 then parts[0] else parts[0] + sep + Join(sep, parts[1..])
  }

  /** The text written for one batch: `"\n".join(short_urls) + "\n"`. */
  function BatchText(batch: seq<string>): string {
    Join("\n", batch) + "\n"
  }

  /** Each key followed by a line break. */
  function Terminated(keys: seq<string>): string {
    if keys == [] then "" else keys[0] + "\n" + Terminated(keys[1..])
  }

  lemma {:induction false} TerminatedAppend(a: seq<string>, b: seq<string>)
    ensures Terminated(a + b) == Terminated(a) + Terminated(b)
  {
    if a != [] {
      assert (a + b)[1..] == a[1..] + b;
      TerminatedAppend(a[1..], b);
    } else {
      assert a + b == b;
    }
  }

  /** A non-empty batch is written as one line per key. */
  lemma {:induction false} BatchTextIsTerminated(batch: seq<string>)
    requires batch != []
    ensures BatchText(batch) == Terminated(batch)
  {
    if |batch| > 1 {
      BatchTextIsTerminated(batch[1..]);
    }
  }

  /** The length of the first line of `s`, its line break included. */
  function FirstLineLength(s: string): (n: nat)
    requires s != []
    ensures 0 < n <= |s|
  {
    if s[0] == '\n' || |s| == 1 then 1 else 1 + FirstLineLength(s[1..])
  }

  /** The first line ends at the first line break, or at the end of the text. */
  lemma {:induction false} FirstLineIsALine(s: string)
    requires s != []
    ensures var n := FirstLineLength(s);
      && (forall i :: 0 <= i < n - 1 ==> s[i] != '\n')
      && (n < |s| ==> s[n - 1] == '\n')
  {
    if !(s[0] == '\n' || |s| == 1) {
      FirstLineIsALine(s[1..]);
      var n := FirstLineLength(s);
      assert forall i :: 1 <= i < n - 1 ==> s[i] == s[1..][i - 1];
    }
  }

  /** `file.readlines()`: the text cut after each line break; a last line
      without one is kept as it is. */
  function ReadLines(content: string): seq<string>
    decreases |content|
  {
    if content == [] then []
    else
      var n := FirstLineLength(content);
      [content[..n]] + ReadLines(content[n..])
  }

  /** The lines read back concatenate to the text. */
  lemma {:induction false} ReadLinesFlatten(content: string)
    ensures Flatten(ReadLines(content)) == content
    decreases |content|
  {
    if content != [] {
      var n := FirstLineLength(content);
      var lines := ReadLines(content);
      ReadLinesFlatten(content[n..]);
      assert lines[1..] == ReadLines(content[n..]);
      assert content == content[..n] + content[n..];
    }
  }

  /** Every line read back but the last ends with a line break, and no line
      holds a line break anywhere else. */
  lemma {:induction false} ReadLinesAreLines(content: string)
    ensures var lines := ReadLines(content);
      forall i :: 0 <= i < |lines| ==>
        && lines[i] != []
        && (forall j :: 0 <= j < |lines[i]| - 1 ==> lines[i][j] != '\n')
        && (i < |lines| - 1 ==> lines[i][|lines[i]| - 1] == '\n')
    decreases |content|
  {
    if content != [] {
      var n := FirstLineLength(content);
      var lines := ReadLines(content);
      FirstLineIsALine(content);
      ReadLinesAreLines(content[n..]);
      assert lines[1..] == ReadLines(content[n..]);
      assert lines[0] == content[..n];
      forall i | 0 < i < |lines|
        ensures lines[i] == ReadLines(content[n..])[i - 1]
      {
      }
    }
  }

  /** Each key with its line break. */
  function WithLineBreaks(keys: seq<string>): (lines: seq<string>) {
    seq(|keys|, i requires 0 <= i < |keys| => keys[i] + "\n")
  }

  lemma {:induction false} FirstLineOfKey(key: string, rest: string)
    requires forall i :: 0 <= i < |key| ==> key[i] != '\n'
    ensures FirstLineLength(key + "\n" + rest) == |key| + 1
  {
    if key != [] {
      assert (key + "\n" + rest)[1..] == key[1..] + "\n" + rest;
      FirstLineOfKey(key[1..], rest);
    }
  }

  /** Reading back the staged text gives one line per key, in order. */
  lemma {:induction false} ReadLinesOfTerminated(keys: seq<string>)
    requires forall i, j :: 0 <= i < |keys| && 0 <= j < |keys[i]| ==> keys[i][j] != '\n'
    ensures ReadLines(Terminated(keys)) == WithLineBreaks(keys)
  {
    if keys != [] {
      var text := Terminated(keys);
      var rest := Terminated(keys[1..]);
      assert text == keys[0] + "\n" + rest;
      FirstLineOfKey(keys[0], rest);
      var n := |keys[0]| + 1;
      assert text[..n] == keys[0] + "\n";
      assert text[n..] == rest;
      ReadLinesOfTerminated(keys[1..]);
      assert WithLineBreaks(keys) == [keys[0] + "\n"] + WithLineBreaks(keys[1..]);
    }
  }

  /** The characters Python's `str.isspace` accepts. */
  const WHITESPACE: set<char> := {'\U{9}', '\U{A}', '\U{B}', '\U{C}', '\U{D}', '\U{1C}', '\U{1D}', '\U{1E}', '\U{1F}', '\U{20}', '\U{85}', '\U{A0}', '\U{1680}', '\U{2000}', '\U{2001}', '\U{2002}', '\U{2003}', '\U{2004}', '\U{2005}', '\U{2006}', '\U{2007}', '\U{2008}', '\U{2009}', '\U{200A}', '\U{2028}', '\U{2029}', '\U{202F}', '\U{205F}', '\U{3000}'}

  predicate IsSpace(c: char) {
    c in WHITESPACE
  }

  /** `s.lstrip()`: drop the leading whitespace. */
  function StripLeading(s: string): string {
    if s != [] && IsSpace(s[0]) then StripLeading(s[1..]) else s
  }

  /** `s.rstrip()`: drop the trailing whitespace. */
  function StripTrailing(s: string): string {
    if s != [] && IsSpace(s[|s| - 1]) then StripTrailing(s[..|s| - 1]) else s
  }

  /** `s.strip()`. */
  function Strip(s: string): string {
    StripTrailing(StripLeading(s))
  }

  /** `lstrip` leaves a suffix of its argument. */
  lemma {:induction false} StripLeadingSuffix(s: string)
    ensures |StripLeading(s)| <= |s| && StripLeading(s) == s[|s| - |StripLeading(s)|..]
  {
    if s != [] && IsSpace(s[0]) {
      StripLeadingSuffix(s[1..]);
      assert s[1..][|s| - 1 - |StripLeading(s)|..] == s[|s| - |StripLeading(s)|..];
    }
  }

  /** `lstrip` removes exactly the longest all-whitespace prefix. */
  lemma {:induction false} StripLeadingIsSuffix(s: string)
    ensures var r := StripLeading(s);
      && |r| <= |s| && r == s[|s| - |r|..]
      && (forall i :: 0 <= i < |s| - |r| ==> IsSpace(s[i]))
      && (r != [] ==> !IsSpace(r[0]))
  {
    StripLeadingSuffix(s);
    if s != [] && IsSpace(s[0]) {
      var t := s[1..];
      StripLeadingIsSuffix(t);
      assert forall i :: 1 <= i < |s| - |StripLeading(s)| ==> s[i] == t[i - 1];
    }
  }

  /** `rstrip` leaves a prefix of its argument. */
  lemma {:induction false} StripTrailingPrefix(s: string)
    ensures |StripTrailing(s)| <= |s| && StripTrailing(s) == s[..|StripTrailing(s)|]
  {
    if s != [] && IsSpace(s[|s| - 1]) {
      StripTrailingPrefix(s[..|s| - 1]);
      assert s[..|s| - 1][..|StripTrailing(s)|] == s[..|StripTrailing(s)|];
    }
  }

  /** `rstrip` removes exactly the longest all-whitespace suffix. */
  lemma {:induction false} StripTrailingIsPrefix(s: string)
    ensures var r := StripTrailing(s);
      && |r| <= |s| && r == s[..|r|]
      && (forall i :: |r| <= i < |s| ==> IsSpace(s[i]))
      && (r != [] ==> !IsSpace(r[|r| - 1]))
  {
    StripTrailingPrefix(s);
    if s != [] && IsSpace(s[|s| - 1]) {
      var t := s[..|s| - 1];
      StripTrailingIsPrefix(t);
      assert forall i :: |StripTrailing(s)| <= i < |t| ==> s[i] == t[i];
    }
  }

  /** `strip` leaves no whitespace at either end. */
  lemma StripIsTrimmed(s: string)
    ensures var r := Strip(s);
      r != [] ==> !IsSpace(r[0]) && !IsSpace(r[|r| - 1])
  {
    var l := StripLeading(s);
    StripLeadingIsSuffix(s);
    StripTrailingIsPrefix(l);
  }

  /** `tuple(map(str.strip, lines))`. */
  function StripAll(lines: seq<string>): (keys: seq<string>)
    ensures |keys| == |lines|
  {
    if lines == [] then [] else [Strip(lines[0])] + StripAll(lines[1..])
  }

  /** Each key is the stripped line at the same position. */
  lemma {:induction false} StripAllAt(lines: seq<string>, i: nat)
    requires i < |lines|
    ensures StripAll(lines)[i] == Strip(lines[i])
  {
    if i > 0 {
      StripAllAt(lines[1..], i - 1);
    }
  }

  /** A key without whitespace survives the strip of its staged line. */
  lemma StripKeyLine(key: string)
    requires forall i :: 0 <= i < |key| ==> !IsSpace(key[i])
    ensures Strip(key + "\n") == key
  {
    var line := key + "\n";
    if key == [] {
      assert StripLeading(line) == "";
    } else {
      assert StripLeading(line) == line;
      assert line[..|line| - 1] == key;
      assert StripTrailing(line) == StripTrailing(key);
    }
  }

  /** A character of a short key is neither whitespace nor a line break. */
  lemma ShortKeyCharIsNotSpace(key: string, j: nat)
    requires IsShortKey(key) && j < |key|
    ensures !IsSpace(key[j]) && key[j] != '\n'
  {
    AllAlphanumericAt(key);
  }

  /** Stripping keys without whitespace, each with its line break, gives the keys. */
  lemma {:induction false} StripAllWithLineBreaks(keys: seq<string>)
    requires forall i, j :: 0 <= i < |keys| && 0 <= j < |keys[i]| ==> !IsSpace(keys[i][j])
    ensures StripAll(WithLineBreaks(keys)) == keys
  {
    if keys != [] {
      var lines := WithLineBreaks(keys);
      StripKeyLine(keys[0]);
      assert lines[1..] == WithLineBreaks(keys[1..]);
      StripAllWithLineBreaks(keys[1..]);
      assert keys == [keys[0]] + keys[1..];
    }
  }

  /** Keys without whitespace are staged and read back unchanged: writing
      them one per line, reading the lines and stripping each gives the keys
      again. */
  lemma {:induction false} ReadBackWithoutSpaces(keys: seq<string>)
    requires forall i, j :: 0 <= i < |keys| && 0 <= j < |keys[i]| ==> !IsSpace(keys[i][j]) && keys[i][j] != '\n'
    ensures StripAll(ReadLines(Terminated(keys))) == keys
  {
    ReadLinesOfTerminated(keys);
    StripAllWithLineBreaks(keys);
  }

  /** The characters of short keys are neither whitespace nor line breaks. */
  lemma ShortKeysHaveNoSpace(keys: seq<string>)
    requires forall i :: 0 <= i < |keys| ==> IsShortKey(keys[i])
    ensures forall i, j :: 0 <= i < |keys| && 0 <= j < |keys[i]| ==> !IsSpace(keys[i][j]) && keys[i][j] != '\n'
  {
    forall i, j | 0 <= i < |keys| && 0 <= j < |keys[i]|
      ensures !IsSpace(keys[i][j]) && keys[i][j] != '\n'
    {
      ShortKeyCharIsNotSpace(keys[i], j);
    }
  }

  /** Short keys are staged and read back unchanged. */
  lemma StagedKeysReadBack(keys: seq<string>)
    requires forall i :: 0 <= i < |keys| ==> IsShortKey(keys[i])
    ensures StripAll(ReadLines(Terminated(keys))) == keys
  {
    ShortKeysHaveNoSpace(keys);
    ReadBackWithoutSpaces(keys);
  }

  lemma ElementsAppend(a: seq<string>, b: seq<string>)
    ensures Elements(a + b) == Elements(a) + Elements(b)
  {
  }

  lemma {:induction false} StripAllAppend(a: seq<string>, b: seq<string>)
    ensures StripAll(a + b) == StripAll(a) + StripAll(b)
  {
    if a != [] {
      assert (a + b)[1..] == a[1..] + b;
      StripAllAppend(a[1..], b);
    } else {
      assert a + b == b;
    }
  }

  /** The keys of each batch of lines, stripped. */
  function StripBatches(batches: seq<seq<string>>): (calls: seq<seq<string>>)
    ensures |calls| == |batches|
  {
    if batches == [] then [] else [StripAll(batches[0])] + StripBatches(batches[1..])
  }

  lemma {:induction false} StripBatchesAppend(batches: seq<seq<string>>, last: seq<string>)
    ensures StripBatches(batches + [last]) == StripBatches(batches) + [StripAll(last)]
  {
    if batches != [] {
      assert (batches + [last])[1..] == batches[1..] + [last];
      StripBatchesAppend(batches[1..], last);
    } else {
      assert batches + [last] == [last];
    }
  }

  /** Stripping batch by batch is batching the stripped lines: the batches
      of stripped keys are the consecutive slices of `batch_size` keys. */
  lemma {:induction false} StripBatchesOfBatches(lines: seq<string>, batchSize: nat)
    requires batchSize >= 1
    ensures StripBatches(IterateInBatches(lines, batchSize)) == IterateInBatches(StripAll(lines), batchSize)
    decreases |lines|
  {
    if |lines| > batchSize {
      var keys := StripAll(lines);
      var batches := IterateInBatches(lines, batchSize);
      assert lines == lines[..batchSize] + lines[batchSize..];
      StripAllAppend(lines[..batchSize], lines[batchSize..]);
      assert keys[..batchSize] == StripAll(lines[..batchSize]);
      assert keys[batchSize..] == StripAll(lines[batchSize..]);
      StripBatchesOfBatches(lines[batchSize..], batchSize);
      assert batches[1..] == IterateInBatches(lines[batchSize..], batchSize);
    }
  }

  /** The keys a query on a valid table returns are short keys. */
  lemma QueryKeysAreShort(records: map<string, Url>, cutoff: int, keys: seq<string>)
    requires forall k :: k in records ==> IsShortKey(k)
    requires IsExpiryQuery(records, cutoff, keys)
    ensures forall i :: 0 <= i < |keys| ==> IsShortKey(keys[i])
  {
    QueryKeysAreSelected(records, cutoff, keys);
  }

  /** Staging a correct expiry query and deleting what is read back removes
      exactly the expired records, and the delete calls together name the
      selected keys in order. */
  lemma SweepOutcome(before: map<string, Url>, cutoff: int, keys: seq<string>, content: string,
                     after: map<string, Url>, calls: seq<seq<string>>, batchSize: nat)
    requires forall k :: k in before ==> IsShortKey(k)
    requires IsExpiryQuery(before, cutoff, keys)
    requires content == Terminated(keys)
    requires after == before - Elements(StripAll(ReadLines(content)))
    requires Flatten(calls) == StripAll(ReadLines(content))
    requires batchSize >= 1 && calls == StripBatches(IterateInBatches(ReadLines(content), batchSize))
    ensures after == before - ExpiredKeys(before, cutoff)
    ensures Flatten(calls) == keys
    ensures calls == IterateInBatches(keys, batchSize)
  {
    ExpiryQueryCount(before, cutoff, keys);
    QueryKeysAreShort(before, cutoff, keys);
    StagedKeysReadBack(keys);
    StripBatchesOfBatches(ReadLines(content), batchSize);
  }

  /** One pass of the delete loop: the delete calls grow by the stripped
      lines of the next batch, and so do the keys deleted so far. */
  lemma DeleteStep(batches: seq<seq<string>>, i: nat, calls: seq<seq<string>>, shortUrls: seq<string>)
    requires i < |batches|
    requires calls == StripBatches(batches[..i])
    requires shortUrls == StripAll(batches[i])
    ensures calls + [shortUrls] == StripBatches(batches[..i + 1])
    ensures Elements(Flatten(calls + [shortUrls])) == Elements(Flatten(calls)) + Elements(shortUrls)
  {
    assert batches[..i + 1] == batches[..i] + [batches[i]];
    StripBatchesAppend(batches[..i], batches[i]);
    FlattenAppend(calls, shortUrls);
    ElementsAppend(Flatten(calls), shortUrls);
  }

  /** The stripped batches concatenate to the stripped lines. */
  lemma {:induction false} FlattenStripBatches(batches: seq<seq<string>>)
    ensures Flatten(StripBatches(batches)) == StripAll(Flatten(batches))
  {
    if batches != [] {
      FlattenStripBatches(batches[1..]);
      StripAllAppend(batches[0], Flatten(batches[1..]));
    }
  }

  /** Stripping keeps the size of every batch. */
  lemma {:induction false} StripBatchesSizes(batches: seq<seq<string>>)
    ensures forall i :: 0 <= i < |batches| ==> |StripBatches(batches)[i]| == |batches[i]|
  {
    if batches != [] {
      StripBatchesSizes(batches[1..]);
      assert forall i :: 1 <= i < |batches| ==> StripBatches(batches)[i] == StripBatches(batches[1..])[i - 1];
    }
  }

  /** The delete calls for `lines` name the stripped lines in order, each
      call at most `batch_size` keys, all but the last exactly that many. */
  lemma DeleteCalls(lines: seq<string>, batchSize: nat)
    requires batchSize >= 1
    ensures var calls := StripBatches(IterateInBatches(lines, batchSize));
      && Flatten(calls) == StripAll(lines)
      && (forall i :: 0 <= i < |calls| ==> 0 < |calls[i]| <= batchSize)
      && (forall i :: 0 <= i < |calls| - 1 ==> |calls[i]| == batchSize)
  {
    var batches := IterateInBatches(lines, batchSize);
    BatchesAreSlices(lines, batchSize);
    FlattenStripBatches(batches);
    StripBatchesSizes(batches);
  }

  lemma SubtractTwice(m: map<string, Url>, a: set<string>, b: set<string>)
    ensures m - a - b == m - (a + b)
  {
  }

  const FILENAME_PREFIX := "remove_expired_urls_job_"

  class Command {
    /** `Url.objects`. */
    const table: Table
    /** `remove_expired_urls_job_<date>`. */
    const filename: string
    var expiredUrls: seq<string>
    var totalExpiredUrls: nat
    var batchSize: int
    /** The staging file: whether it exists, and its text. */
    var fileExists: bool
    var fileContent: string
    /** The key batches of the delete calls of the last `RemoveExpiredUrls`. */
    ghost var deleteCalls: seq<seq<string>>

    /** `Command()`, on the date `today`. The attributes the code sets to
        `None` start empty. */
    constructor (table: Table, today: string)
      ensures this.table == table && filename == FILENAME_PREFIX + today
      ensures expiredUrls == [] && totalExpiredUrls == 0 && batchSize == 0
      ensures !fileExists && fileContent == "" && deleteCalls == []
    {
      this.table := table;
      filename := FILENAME_PREFIX + today;
      expiredUrls, totalExpiredUrls, batchSize := [], 0, 0;
      fileExists, fileContent := false, "";
      deleteCalls := [];
    }

    /** `write_expired_urls_to_file`: open the file for writing (creating or
        truncating it) and append each batch of keys, one key per line. */
    method WriteExpiredUrlsToFile()
      requires batchSize >= 1
      modifies this`fileExists, this`fileContent
      ensures fileExists && fileContent == Terminated(expiredUrls)
    {
      fileExists, fileContent := true, "";
      var batches := IterateInBatches(expiredUrls, batchSize);
      BatchesAreSlices(expiredUrls, batchSize);
      for i := 0 to |batches|
        invariant fileExists
        invariant fileContent == Terminated(Flatten(batches[..i]))
      {
        BatchTextIsTerminated(batches[i]);
        assert batches[..i + 1] == batches[..i] + [batches[i]];
        FlattenAppend(batches[..i], batches[i]);
        TerminatedAppend(Flatten(batches[..i]), batches[i]);
        fileContent := fileContent + BatchText(batches[i]);
      }
      assert batches[..|batches|] == batches;
    }

    /** `remove_expired_urls`: read the file's lines, strip them and delete
        the keys batch by batch. A missing file raises (`ok` is false) before
        anything is deleted. */
    method RemoveExpiredUrls() returns (ok: bool)
      requires table.Valid() && batchSize >= 1
      modifies table, this`deleteCalls
      ensures table.Valid()
      ensures ok == fileExists
      ensures !ok ==> table.records == old(table.records)
      ensures ok ==> table.records == old(table.records) - Elements(StripAll(ReadLines(fileContent)))
      ensures ok ==> Flatten(deleteCalls) == StripAll(ReadLines(fileContent))
      ensures ok ==> forall i :: 0 <= i < |deleteCalls| ==> |deleteCalls[i]| <= batchSize
      ensures ok ==> deleteCalls == StripBatches(IterateInBatches(ReadLines(fileContent), batchSize))
    {
      if !fileExists {
        return false;
      }
      DeleteLines(ReadLines(fileContent));
      ok := true;
    }

    /** The loop of `remove_expired_urls` over the lines read from the file. */
    method DeleteLines(lines: seq<string>)
      requires table.Valid() && batchSize >= 1
      modifies table, this`deleteCalls
      ensures table.Valid()
      ensures table.records == old(table.records) - Elements(StripAll(lines))
      ensures Flatten(deleteCalls) == StripAll(lines)
      ensures forall i :: 0 <= i < |deleteCalls| ==> |deleteCalls[i]| <= batchSize
      ensures deleteCalls == StripBatches(IterateInBatches(lines, batchSize))
    {
      var batches := IterateInBatches(lines, batchSize);
      deleteCalls := [];
      for i := 0 to |batches|
        invariant table.Valid()
        invariant deleteCalls == StripBatches(batches[..i])
        invariant table.records == old(table.records) - Elements(Flatten(deleteCalls))
      {
        var shortUrls := StripAll(batches[i]);
        table.Delete(Elements(shortUrls));
        DeleteStep(batches, i, deleteCalls, shortUrls);
        SubtractTwice(old(table.records), Elements(Flatten(deleteCalls)), Elements(shortUrls));
        deleteCalls := deleteCalls + [shortUrls];
      }
      assert batches[..|batches|] == batches;
      DeleteCalls(lines, batchSize);
    }

    /** `delete_file`: remove the staging file; a missing file raises (`ok`
        is false). */
    method DeleteFile() returns (ok: bool)
      modifies this`fileExists, this`fileContent
      ensures ok == old(fileExists)
      ensures !fileExists
      ensures ok ==> fileContent == ""
      ensures !ok ==> fileContent == old(fileContent)
    {
      if !fileExists {
        return false;
      }
      fileExists, fileContent := false, "";
      ok := true;
    }

    /** The first half of `handle`: select the records expiring before
        `now + grace_period`, count them and stage their keys. The table is
        only read. */
    method StageExpiredUrls(gracePeriod: int, batchSize: int, now: int)
      requires table.Valid() && batchSize >= 1
      modifies this`expiredUrls, this`totalExpiredUrls, this`batchSize, this`fileExists, this`fileContent
      ensures IsExpiryQuery(table.records, now + Days(gracePeriod), expiredUrls)
      ensures totalExpiredUrls == |ExpiredKeys(table.records, now + Days(gracePeriod))|
      ensures this.batchSize == batchSize
      ensures fileExists && fileContent == Terminated(expiredUrls)
    {
      var keys := RetrieveExpiredUrls(table, gracePeriod, now);
      ExpiryQueryCount(table.records, now + Days(gracePeriod), keys);
      expiredUrls, totalExpiredUrls := keys, |keys|;
      this.batchSize := batchSize;
      WriteExpiredUrlsToFile();
    }

    /** The second half of `handle`: delete the staged keys in batches and
        remove the staging file. Staged as a correct expiry query, exactly
        the selected records are deleted, in consecutive batches of the
        staged keys; neither missing-file failure can happen. */
    method RemoveStagedUrls(ghost cutoff: int)
      requires table.Valid() && batchSize >= 1
      requires IsExpiryQuery(table.records, cutoff, expiredUrls)
      requires fileExists && fileContent == Terminated(expiredUrls)
      modifies table, this`deleteCalls, this`fileExists, this`fileContent
      ensures table.Valid()
      ensures table.records == old(table.records) - ExpiredKeys(old(table.records), cutoff)
      ensures Flatten(deleteCalls) == expiredUrls
      ensures forall i :: 0 <= i < |deleteCalls| ==> |deleteCalls[i]| <= batchSize
      ensures deleteCalls == IterateInBatches(expiredUrls, batchSize)
      ensures !fileExists
    {
      ghost var before := table.records;
      var removed := RemoveExpiredUrls();
      assert removed;
      SweepOutcome(before, cutoff, expiredUrls, fileContent, table.records, deleteCalls, batchSize);
      var deleted := DeleteFile();
      assert deleted;
    }

    /** `handle`: stage the expired keys, delete them in batches and remove
        the staging file. Exactly the records expiring before
        `now + grace_period` are gone afterwards; every other record is
        untouched. */
    method Handle(gracePeriod: int, batchSize: int, now: int)
      requires table.Valid() && batchSize >= 1
      modifies this, table
      ensures table.Valid()
      ensures IsExpiryQuery(old(table.records), now + Days(gracePeriod), expiredUrls)
      ensures totalExpiredUrls == |ExpiredKeys(old(table.records), now + Days(gracePeriod))|
      ensures table.records == old(table.records) - ExpiredKeys(old(table.records), now + Days(gracePeriod))
      ensures Flatten(deleteCalls) == expiredUrls
      ensures forall i :: 0 <= i < |deleteCalls| ==> |deleteCalls[i]| <= batchSize
      ensures deleteCalls == IterateInBatches(expiredUrls, batchSize)
      ensures this.batchSize == batchSize && !fileExists
    {
      StageExpiredUrls(gracePeriod, batchSize, now);
      RemoveStagedUrls(now + Days(gracePeriod));
    }
  }
}
