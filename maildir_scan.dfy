/**
 * What one poll of the maildir block reads, with the filesystem replaced by
 * data, and the specification of what that read yields: the senders of the
 * mails, at most one per regular file, in the order the directory lists its entries,
 * or the first error met on the way.
 *
 * The header decoder of the `mailparse` crate (RFC 5322 header fields with
 * RFC 2047 encoded-words) is passed in as `decode`: it maps a whole header
 * line to its decoded value, or to None when the line cannot be parsed or
 * its value cannot be decoded.
 */
module MaildirScan {
  import opened Wrappers

  /** Every way a poll can fail; each one aborts the poll. */
  datatype ScanError =
    | DirectoryOpen   // `read_dir` on the configured path failed
    | EntryList       // the listing yielded an error instead of an entry
    | Metadata        // an entry's metadata could not be read
    | FileOpen        // a regular file could not be opened
    | LineRead        // reading the next line of a file failed
    | HeaderParse     // a "From: " line could not be parsed or decoded

  /** One item of `BufReader::lines`: a line without its terminator, or a read fault. */
  datatype Line = LineOk(text: string) | LineFault

  /**
   * One item of the directory listing. `listed` is false when the listing
   * produced an error here; `metadataOk`, `isFile` and `openOk` say what
   * `metadata()`, `is_file()` and `File::open` give; `lines` is what reading
   * the file line by line would produce.
   */
  datatype Entry = Entry(listed: bool, metadataOk: bool, isFile: bool, openOk: bool, lines: seq<Line>)

  /** The configured directory: whether `read_dir` succeeds, and its listing in enumeration order. */
  datatype Dir = Dir(openOk: bool, entries: seq<Entry>)

  /** The decoder of a header line: its decoded value, or None on a parse or decode failure. */
  type Decoder = string -> Option<string>

  const FromPrefix: string := "From: "

  /** `line.starts_with("From: ")`. */
  predicate IsFromLine(line: string) {
    |FromPrefix| <= |line| && line[..|FromPrefix|] == FromPrefix
  }

  /** A line that the search for the sender reads and passes over. */
  predicate Passed(l: Line) {
    l.LineOk? && !IsFromLine(l.text)
  }

  /**
   * What one open file contributes: its lines are read in order up to the
   * first line starting with "From: ", whose decoding is the sender; a read
   * fault before it, or a failed decoding of it, is an error; a file with no
   * such line contributes nothing.
   */
  function FileSender(lines: seq<Line>, decode: Decoder): (r: Result<Option<string>, ScanError>)
    ensures r.Err? ==> r.error == LineRead || r.error == HeaderParse
    decreases |lines|
  {
    if lines == [] then Ok(None)
    else match lines[0]
      case LineFault => Err(LineRead)
      case LineOk(text) =>
        if IsFromLine(text) then
          match decode(text)
          case None => Err(HeaderParse)
          case Some(sender) => Ok(Some(sender))
        else FileSender(lines[1..], decode)
  }

  /**
   * What one listing item contributes: the listing and metadata errors come
   * first, an entry that is not a regular file is skipped without being
   * opened, and a regular file contributes what its lines give.
   */
  function EntrySender(e: Entry, decode: Decoder): (r: Result<Option<string>, ScanError>)
    ensures !e.listed ==> r == Err(EntryList)
    ensures e.listed && !e.metadataOk ==> r == Err(Metadata)
    ensures e.listed && e.metadataOk && !e.isFile ==> r == Ok(None)
    ensures e.listed && e.metadataOk && e.isFile && !e.openOk ==> r == Err(FileOpen)
  {
    if !e.listed then Err(EntryList)
    else if !e.metadataOk then Err(Metadata)
    else if !e.isFile then Ok(None)
    else if !e.openOk then Err(FileOpen)
    else FileSender(e.lines, decode)
  }

  /** `xs` in front of the senders of a successful result; an error passes through. */
  function Prepend(xs: seq<string>, r: Result<seq<string>, ScanError>): Result<seq<string>, ScanError> {
    match r
    case Ok(ys) => Ok(xs + ys)
    case Err(e) => Err(e)
  }

  /** Prepending no senders changes nothing. */
  lemma PrependNothing(r: Result<seq<string>, ScanError>)
    ensures Prepend([], r) == r
  {
    if r.Ok? {
      assert [] + r.value == r.value;
    }
  }

  /** Prepending twice is prepending the concatenation. */
  lemma PrependAssoc(xs: seq<string>, ys: seq<string>, r: Result<seq<string>, ScanError>)
    ensures Prepend(xs, Prepend(ys, r)) == Prepend(xs + ys, r)
  {
    if r.Ok? {
      assert xs + (ys + r.value) == (xs + ys) + r.value;
    }
  }

  /** The senders of a run of listing items, in listing order, or the first error among them. */
  function ScanEntries(es: seq<Entry>, decode: Decoder): (r: Result<seq<string>, ScanError>)
    ensures r.Ok? ==> |r.value| <= |es|
    decreases |es|
  {
    if es == [] then Ok([])
    else match EntrySender(es[0], decode)
      case Err(e) => Err(e)
      case Ok(o) => Prepend(ToSeq(o), ScanEntries(es[1..], decode))
  }

  /** Scanning from position `i` on looks at the entry there first. */
  lemma ScanEntriesAt(es: seq<Entry>, i: nat, decode: Decoder)
    requires i < |es|
    ensures ScanEntries(es[i..], decode)
         == match EntrySender(es[i], decode)
            case Err(e) => Err(e)
            case Ok(o) => Prepend(ToSeq(o), ScanEntries(es[i + 1..], decode))
  {
    assert es[i..][0] == es[i] && es[i..][1..] == es[i + 1..];
  }

  /** The specification of one poll's read: the senders of all mails, or the error that aborts the poll. */
  function Scan(dir: Dir, decode: Decoder): (r: Result<seq<string>, ScanError>)
    ensures !dir.openOk ==> r == Err(DirectoryOpen)
    ensures r.Ok? ==> |r.value| <= |dir.entries|
  {
    if !dir.openOk then Err(DirectoryOpen) else ScanEntries(dir.entries, decode)
  }

  // ----- the per-file rule -----

  /** Lines before the first "From: " line are read and passed over: they do not change the outcome. */
  lemma {:induction false} FileSenderSkipsPassed(pre: seq<Line>, rest: seq<Line>, decode: Decoder)
    requires forall k :: 0 <= k < |pre| ==> Passed(pre[k])
    ensures FileSender(pre + rest, decode) == FileSender(rest, decode)
    decreases |pre|
  {
    if pre != [] {
      assert Passed(pre[0]);
      assert (pre + rest)[0] == pre[0];
      assert (pre + rest)[1..] == pre[1..] + rest;
      FileSenderSkipsPassed(pre[1..], rest, decode);
      assert FileSender(pre + rest, decode) == FileSender(pre[1..] + rest, decode);
    } else {
      assert pre + rest == rest;
    }
  }

  /**
   * The sender of a file is the decoding of its first "From: " line, and
   * whatever follows that line (more headers, read faults) is never looked at.
   */
  lemma FileSenderFirstMatch(pre: seq<Line>, line: string, rest: seq<Line>, decode: Decoder)
    requires forall k :: 0 <= k < |pre| ==> Passed(pre[k])
    requires IsFromLine(line)
    ensures FileSender(pre + [LineOk(line)] + rest, decode)
         == (match decode(line) case None => Err(HeaderParse) case Some(s) => Ok(Some(s)))
  {
    FileSenderSkipsPassed(pre, [LineOk(line)] + rest, decode);
    assert pre + [LineOk(line)] + rest == pre + ([LineOk(line)] + rest);
  }

  /** A read fault before any "From: " line aborts, whatever comes after it. */
  lemma FileSenderFaultFirst(pre: seq<Line>, rest: seq<Line>, decode: Decoder)
    requires forall k :: 0 <= k < |pre| ==> Passed(pre[k])
    ensures FileSender(pre + [LineFault] + rest, decode) == Err(LineRead)
  {
    FileSenderSkipsPassed(pre, [LineFault] + rest, decode);
    assert pre + [LineFault] + rest == pre + ([LineFault] + rest);
  }

  /** A readable file without any "From: " line contributes nothing, and that is not an error. */
  lemma FileSenderNoMatch(lines: seq<Line>, decode: Decoder)
    requires forall k :: 0 <= k < |lines| ==> Passed(lines[k])
    ensures FileSender(lines, decode) == Ok(None)
  {
    FileSenderSkipsPassed(lines, [], decode);
    assert lines + [] == lines;
  }

  /** An entry that is not a regular file is skipped: whether it could be opened, and what it holds, do not matter. */
  lemma NonFileNeverOpened(e: Entry, openOk: bool, lines: seq<Line>, decode: Decoder)
    requires e.listed && e.metadataOk && !e.isFile
    ensures EntrySender(e.(openOk := openOk, lines := lines), decode) == EntrySender(e, decode) == Ok(None)
  {
  }

  // ----- the whole listing -----

  /** The outcome for a listing split in two: the first part's error wins, else its senders come first. */
  function Then(first: Result<seq<string>, ScanError>, second: Result<seq<string>, ScanError>): Result<seq<string>, ScanError> {
    match first
    case Err(e) => Err(e)
    case Ok(xs) => Prepend(xs, second)
  }

  /**
   * Scanning is compositional along the listing: senders keep enumeration
   * order (no sorting, no deduplication) and the earliest error is the one reported.
   */
  lemma {:induction false} ScanEntriesConcat(xs: seq<Entry>, ys: seq<Entry>, decode: Decoder)
    ensures ScanEntries(xs + ys, decode) == Then(ScanEntries(xs, decode), ScanEntries(ys, decode))
    decreases |xs|
  {
    if xs == [] {
      assert xs + ys == ys;
      match ScanEntries(ys, decode)
      case Ok(zs) => assert [] + zs == zs;
      case Err(_) =>
    } else {
      assert (xs + ys)[0] == xs[0];
      assert (xs + ys)[1..] == xs[1..] + ys;
      ScanEntriesConcat(xs[1..], ys, decode);
      match EntrySender(xs[0], decode)
      case Err(_) =>
      case Ok(first) =>
        match ScanEntries(xs[1..], decode)
        case Err(_) =>
        case Ok(ws) =>
          match ScanEntries(ys, decode)
          case Err(_) =>
          case Ok(zs) =>
            var o := ToSeq(first);
            assert o + (ws + zs) == (o + ws) + zs;
    }
  }

  /** The poll fails exactly when some entry fails, and then with the error of the first failing entry. */
  lemma {:induction false} ScanEntriesFirstError(es: seq<Entry>, i: nat, decode: Decoder)
    requires i < |es|
    requires forall j :: 0 <= j < i ==> EntrySender(es[j], decode).Ok?
    requires EntrySender(es[i], decode).Err?
    ensures ScanEntries(es, decode) == Err(EntrySender(es[i], decode).error)
    decreases i
  {
    if i > 0 {
      ScanEntriesFirstError(es[1..], i - 1, decode);
    }
  }

  /**
   * The scan succeeds exactly when every entry succeeds, and then the count is
   * the number of entries that gave a sender: at most one per entry.
   */
  lemma {:induction false} ScanEntriesOkIff(es: seq<Entry>, decode: Decoder)
    ensures ScanEntries(es, decode).Ok? <==> forall j :: 0 <= j < |es| ==> EntrySender(es[j], decode).Ok?
    ensures ScanEntries(es, decode).Ok? ==> |ScanEntries(es, decode).value| == SenderCount(es, decode)
    decreases |es|
  {
    if es != [] {
      ScanEntriesOkIff(es[1..], decode);
      if EntrySender(es[0], decode).Ok? && ScanEntries(es[1..], decode).Ok? {
        assert forall j :: 1 <= j < |es| ==> EntrySender(es[j], decode) == EntrySender(es[1..][j - 1], decode);
      }
      if forall j :: 0 <= j < |es| ==> EntrySender(es[j], decode).Ok? {
        assert forall j :: 0 <= j < |es| - 1 ==> EntrySender(es[1..][j], decode) == EntrySender(es[j + 1], decode);
      }
    }
  }

  /** How many entries give a sender (regular files with a "From: " line that decodes). */
  function SenderCount(es: seq<Entry>, decode: Decoder): nat
    decreases |es|
  {
    if es == [] then 0
    else (if EntrySender(es[0], decode).Ok? && EntrySender(es[0], decode).value.Some? then 1 else 0)
         + SenderCount(es[1..], decode)
  }

  /**
   * A listing of regular files that each yield a sender produces exactly those
   * senders, one per file, in listing order.
   */
  lemma {:induction false} ScanEntriesOnePerFile(es: seq<Entry>, senders: seq<string>, decode: Decoder)
    requires |senders| == |es|
    requires forall j :: 0 <= j < |es| ==> EntrySender(es[j], decode) == Ok(Some(senders[j]))
    ensures ScanEntries(es, decode) == Ok(senders)
    decreases |es|
  {
    if es != [] {
      ScanEntriesOnePerFile(es[1..], senders[1..], decode);
      assert [senders[0]] + senders[1..] == senders;
    }
  }

  /** An empty directory yields no senders. */
  lemma ScanEmpty(decode: Decoder)
    ensures Scan(Dir(true, []), decode) == Ok([])
  {
  }
}
