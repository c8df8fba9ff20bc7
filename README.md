# Maildir block: a Dafny model

This project models the `Maildir` block of the i3status-rust status bar. On each poll the
block:

- lists a configured directory;
- skips every entry that is not a regular file;
- reads each regular file line by line up to its first line starting with `"From: "`;
- decodes that header line into a sender;
- writes a summary text and a severity into its text widget.

The summary is `"<label>:<count> <sender>, <sender>, ..."`, or the empty string when no mail
is found. The severity is Warning when there is mail and Idle otherwise. Any I/O or decoding
failure aborts the poll, and the widget keeps what it showed before.

The filesystem is modelled as data (`MaildirScan.Dir`, `Entry`, `Line`), as follows:

- A directory says whether it can be opened, and holds its entries in enumeration order.
- An entry says whether the listing produced it or an error, and whether its metadata could be
  read.
- It also says whether it is a regular file and whether it can be opened.
- Last, it holds the results of reading it line by line: a line, or a read fault.

The header decoder of the `mailparse` crate is passed in as a function `decode`. Given the
whole header line, it returns the decoded value, or None when parsing or decoding fails.

Modules:

- `Wrappers`: Option and Result.
- `Format`: decimal rendering of a count, which `ValueOf` reads back, and `join`, described
  by how it grows (`JoinSnoc`, `JoinConcat`).
- `MaildirScan`: the specification of what one poll reads. `Scan` gives the senders in
  enumeration order, or the first error. Beside it are lemmas on the first-match-per-file rule,
  the fail-fast rule and enumeration order.
- `MaildirBlock`: the configuration and its defaults, `ComputeState` and `Summary`. It also
  holds `Poll`, the poll as a pure step on the widget's view. Last, it holds the class `Maildir`,
  whose `Update` method collects senders with nested loops and early exits, as the Rust code
  does. `Update` is proved to agree with `Scan` and `Poll`.

## Model

| member | source | states |
|---|---|---|
| MaildirBlock.DefaultConfig | src/blocks/maildir.rs:44-55 | path and label default to "/", and the interval defaults to 20 seconds (20000 ms) |
| MaildirBlock.ComputeState | src/blocks/maildir.rs:59-65 | the severity is Warning exactly when count > 0, and Idle exactly when count is 0 |
| MaildirBlock.Summary | src/blocks/maildir.rs:118-129 | the text is empty exactly when no sender was collected |
| MaildirBlock.SummaryRoundTrip | src/blocks/maildir.rs:118-126 | for every label, the summary begins with the label and ':', and reading it back gives the number of senders and their ", "-joined list; the count in the text is the length of the sender list |
| MaildirBlock.ReadSummaryOf | src/blocks/maildir.rs:121-126 | for every label, the text "label:digits rest" reads back as the value of the digits and the rest |
| MaildirBlock.Render | src/blocks/maildir.rs:118-132 | after a successful scan the text is empty iff there are no senders, and the state is Warning iff there is at least one sender |
| MaildirBlock.Poll | src/blocks/maildir.rs:83-134 | a successful scan replaces the view with the rendering of its senders; a failed scan leaves the view unchanged |
| MaildirBlock.PollIdempotent | src/blocks/maildir.rs:118-132 | polling an unchanged directory twice shows the same as polling it once |
| MaildirBlock.PollForgetsPrevious | src/blocks/maildir.rs:118-132 | a successful poll does not depend on what the widget showed before |
| MaildirBlock.PollKeepsConsistent | src/blocks/maildir.rs:86-132 | if the severity agreed with the text (Warning iff the text is non-empty), it still does after any poll, failed or not; the initial view ("Maildir", Idle) does not agree, so this holds from the first successful poll on |
| MaildirBlock.Maildir.constructor | src/blocks/maildir.rs:71-79 | the widget starts with the text "Maildir"; path, label and interval come from the configuration |
| MaildirBlock.Maildir.Update | src/blocks/maildir.rs:83-135 | the widget's new text and state are `Poll` of the old ones; the result is Ok(Some(interval)) when `Scan` succeeds and that error otherwise; label, path and interval do not change |
| MaildirScan.FileSender | src/blocks/maildir.rs:105-116 | the only errors a file's lines can cause are a line-read fault and a header parse failure |
| MaildirScan.EntrySender | src/blocks/maildir.rs:91-103 | a listing error, then a metadata error, are reported first; a non-regular file contributes nothing; an unopenable regular file is a file-open error |
| MaildirScan.ScanEntries | src/blocks/maildir.rs:91-117 | a successful scan collects at most one sender per entry |
| MaildirScan.Scan | src/blocks/maildir.rs:86-117 | a directory that cannot be opened is a directory-open error; otherwise at most one sender per entry |
| MaildirScan.FileSenderSkipsPassed | src/blocks/maildir.rs:105-107 | lines that read fine and do not start with "From: " do not change what the file contributes |
| MaildirScan.FileSenderFirstMatch | src/blocks/maildir.rs:105-115 | a file contributes the decoding of its first "From: " line (or a parse error); the lines after it are never looked at |
| MaildirScan.FileSenderFaultFirst | src/blocks/maildir.rs:105-106 | a read fault before any "From: " line aborts with a line-read error, whatever follows |
| MaildirScan.FileSenderNoMatch | src/blocks/maildir.rs:105-116 | a readable file with no "From: " line contributes nothing, and that is not an error |
| MaildirScan.NonFileNeverOpened | src/blocks/maildir.rs:97-99 | an entry that is not a regular file contributes nothing, whatever its open flag and contents |
| MaildirScan.ScanEntriesConcat | src/blocks/maildir.rs:91-113 | scanning a listing split in two gives the first part's error if it has one; otherwise its senders come before the second part's (enumeration order, no sorting or deduplication) |
| MaildirScan.ScanEntriesFirstError | src/blocks/maildir.rs:91-111 | when the first failing entry is at index i, the scan fails with that entry's error |
| MaildirScan.ScanEntriesOkIff | src/blocks/maildir.rs:91-119 | the scan succeeds iff every entry succeeds, and then the count is the number of entries that give a sender |
| MaildirScan.ScanEntriesOnePerFile | src/blocks/maildir.rs:91-118 | N entries that each give one sender V_i yield exactly [V_1, ..., V_N] |
| MaildirScan.ScanEmpty | src/blocks/maildir.rs:84-119 | an empty directory yields no senders |
| Format.Decimal | src/blocks/maildir.rs:121-126 | the count is written as a non-empty string of decimal digits with no leading zero |
| Format.DecimalRoundTrip | src/blocks/maildir.rs:121-126 | reading the decimal text back gives the count |
| Format.DecimalInjective | src/blocks/maildir.rs:121-126 | different counts are written as different texts |
| Format.JoinSnoc | src/blocks/maildir.rs:118 | joining one more sender appends ", " and that sender at the end |
| Format.JoinConcat | src/blocks/maildir.rs:118 | joining two non-empty lists is joining each, with one separator between them |

## Left out

- Real filesystem access (`fs::read_dir`, `metadata`, `File::open` and `BufReader::lines`) is
  replaced by the `Dir`/`Entry`/`Line` data. `Update` takes the listing of `path` as a
  parameter, and looking the path up is not modelled.
- Header decoding by `mailparse::parse_header` and `get_value` is a parameter `decode`. It covers
  RFC 5322 header fields and RFC 2047 encoded-words. Its two failures are merged into one
  `HeaderParse` error, because both carry the same message.
- Widget rendering (`TextWidget`, `view`, `I3BarWidget`) is left out. Only the widget's text and
  state are kept.
- `MaildirBlock.Maildir.constructor`: the initial state is taken to be Idle. `TextWidget` is not
  part of this model, so its real default state cannot be checked.
- The random block id (`Uuid` in `new`, and `id`) is left out.
- Serde deserialisation, `deserialize_duration` and the update-request channel are left out.
  The interval is a natural number of milliseconds.
- The scheduler, and any concurrency between polls, are left out.
- A failed poll returns the error, not the interval: each `?` at lines 89-112 of
  src/blocks/maildir.rs returns before line 134.
- `ReadSummary` recovers the joined sender text but not the individual senders. A sender may
  itself contain ", ".
