/**
 * The maildir status-bar block: its configuration, the text and severity it
 * shows, and one poll (`update`) that rescans the directory and rewrites
 * both, or leaves both as they were when the scan fails.
 */
module MaildirBlock {
  import opened Wrappers
  import opened Format
  import opened MaildirScan

  /** The severities the block shows. */
  datatype State = Idle | Warning

  /** The block's configuration; the interval is a duration in milliseconds. */
  datatype MaildirConfig = MaildirConfig(path: string, labelText: string, interval: nat)

  /** The configuration an unset option falls back to: path "/", label "/", 20 seconds. */
  function DefaultConfig(): (c: MaildirConfig)
    ensures c.path == "/" && c.labelText == "/" && c.interval == 20 * 1000
  {
    MaildirConfig("/", "/", 20_000)
  }

  /** `compute_state`: any mail at all is a warning; none is idle. */
  function ComputeState(count: nat): (s: State)
    ensures s == Warning <==> count > 0
    ensures s == Idle <==> count == 0
  {
    if count > 0 then Warning else Idle
  }

  const Separator: string := ", "

  /**
   * The text shown for the senders found: "<label>:<count> <senders joined
   * by ', '>" when there are any, the empty string when there are none.
   */
  function Summary(labelText: string, senders: seq<string>): (text: string)
    ensures text == "" <==> senders == []
  {
    if |senders| > 0 then labelText + ":" + Decimal(|senders|) + " " + Join(senders, Separator)
    else ""
  }

  /**
   * Reads back a summary text written for `labelText`: the count and the
   * joined senders, or None when the text does not have the summary's shape
   * (it must begin with the label and ':'). The empty text reads as no mail.
   */
  function ReadSummary(labelText: string, text: string): Option<(nat, string)> {
    if text == "" then Some((0, ""))
    else if |text| <= |labelText| || text[..|labelText| + 1] != labelText + ":" then None
    else
      var rest := text[|labelText| + 1..];
      var j := FirstIndex(rest, ' ');
      if j == 0 || j == |rest| || !AllDigits(rest[..j]) then None
      else Some((ValueOf(rest[..j]), rest[j + 1..]))
  }

  /**
   * The summary carries its label, the number of senders and all of them in
   * order: for every label, reading the text back gives the count of senders
   * and their joined list.
   */
  lemma SummaryRoundTrip(labelText: string, senders: seq<string>)
    ensures ReadSummary(labelText, Summary(labelText, senders)) == Some((|senders|, Join(senders, Separator)))
  {
    if senders != [] {
      DecimalRoundTrip(|senders|);
      ReadSummaryOf(labelText, Decimal(|senders|), Join(senders, Separator));
    }
  }

  /** The text "<label>:<digits> <rest>" reads back as the number of the digits and the rest. */
  lemma ReadSummaryOf(labelText: string, digits: string, joined: string)
    requires digits != [] && AllDigits(digits)
    ensures ReadSummary(labelText, labelText + ":" + digits + " " + joined) == Some((ValueOf(digits), joined))
  {
    var rest := digits + [' '] + joined;
    var text := labelText + ":" + rest;
    assert labelText + ":" + digits + " " + joined == text;
    assert text[..|labelText| + 1] == labelText + ":";
    assert text[|labelText| + 1..] == rest;
    assert ' ' !in digits by {
      forall k | 0 <= k < |digits| ensures digits[k] != ' ' {
        assert IsDigit(digits[k]);
      }
    }
    FirstIndexAfter(digits, ' ', joined);
    assert rest[..|digits|] == digits;
    assert rest[|digits| + 1..] == joined;
  }

  /** What the block's text widget holds. */
  datatype View = View(text: string, state: State)

  /** A view whose severity agrees with its text: a warning exactly when some mail is listed. */
  predicate Consistent(v: View) {
    v.state == Warning <==> v.text != ""
  }

  /** The view a successful scan produces. */
  function Render(labelText: string, senders: seq<string>): (v: View)
    ensures v.text == "" <==> senders == []
    ensures v.state == Warning <==> |senders| > 0
    ensures Consistent(v)
  {
    View(Summary(labelText, senders), ComputeState(|senders|))
  }

  /**
   * One poll as a step on the view: the view of the senders found when the
   * scan succeeds, the previous view untouched when it fails.
   */
  function Poll(v: View, labelText: string, dir: Dir, decode: Decoder): (v': View)
    ensures Scan(dir, decode).Ok? ==> v' == Render(labelText, Scan(dir, decode).value)
    ensures Scan(dir, decode).Err? ==> v' == v
  {
    match Scan(dir, decode)
    case Ok(senders) => Render(labelText, senders)
    case Err(_) => v
  }

  /** Polling an unchanged directory twice shows the same as polling it once. */
  lemma PollIdempotent(v: View, labelText: string, dir: Dir, decode: Decoder)
    ensures Poll(Poll(v, labelText, dir, decode), labelText, dir, decode) == Poll(v, labelText, dir, decode)
  {
  }

  /** A successful poll recomputes the view from scratch: what was shown before does not matter. */
  lemma PollForgetsPrevious(v1: View, v2: View, labelText: string, dir: Dir, decode: Decoder)
    requires Scan(dir, decode).Ok?
    ensures Poll(v1, labelText, dir, decode) == Poll(v2, labelText, dir, decode)
  {
  }

  /**
   * A consistent view stays consistent across any poll, failed or not. The
   * view a new block starts with ("Maildir", Idle) is not consistent, so this
   * holds from the first successful poll on.
   */
  lemma PollKeepsConsistent(v: View, labelText: string, dir: Dir, decode: Decoder)
    requires Consistent(v)
    ensures Consistent(Poll(v, labelText, dir, decode))
  {
  }

  /** The block: its configuration and the widget text and severity it last wrote. */
  class Maildir {
    var text: string
    var state: State
    var labelText: string
    var path: string
    var interval: nat

    /** `new`: the widget starts out showing "Maildir". */
    constructor (config: MaildirConfig)
      ensures text == "Maildir" && state == Idle
      ensures labelText == config.labelText && path == config.path && interval == config.interval
    {
      text := "Maildir";
      state := Idle;
      labelText := config.labelText;
      path := config.path;
      interval := config.interval;
    }

    function Current(): View
      reads this
    {
      View(text, state)
    }

    /**
     * `update`: scans `dir` (the directory at `path`), collecting senders
     * with the early exits of the Rust code, then writes the summary and the
     * severity. On success returns the configured interval; on any error
     * returns that error and leaves the widget as it was.
     */
    method Update(dir: Dir, decode: Decoder) returns (r: Result<Option<nat>, ScanError>)
      modifies this`text, this`state
      ensures Current() == Poll(old(Current()), labelText, dir, decode)
      ensures r == match Scan(dir, decode) case Ok(_) => Ok(Some(interval)) case Err(e) => Err(e)
      ensures labelText == old(labelText) && path == old(path) && interval == old(interval)
    {
      var mails: seq<string> := [];
      if !dir.openOk {
        return Err(DirectoryOpen);
      }
      var es := dir.entries;
      var i := 0;
      assert es[0..] == es;
      PrependNothing(ScanEntries(es, decode));
      while i < |es|
        invariant 0 <= i <= |es|
        invariant ScanEntries(es, decode) == Prepend(mails, ScanEntries(es[i..], decode))
        invariant Current() == old(Current())
      {
        var e := es[i];
        ScanEntriesAt(es, i, decode);
        if !e.listed {
          return Err(EntryList);
        }
        if !e.metadataOk {
          return Err(Metadata);
        }
        if !e.isFile {
          PrependAssoc(mails, [], ScanEntries(es[i + 1..], decode));
          assert mails + [] == mails;
          i := i + 1;
          continue;
        }
        if !e.openOk {
          return Err(FileOpen);
        }
        ghost var before := mails;
        var lines := e.lines;
        var j := 0;
        while j < |lines|
          invariant 0 <= j <= |lines|
          invariant mails == before
          invariant FileSender(lines, decode) == FileSender(lines[j..], decode)
        {
          assert lines[j..][0] == lines[j] && lines[j..][1..] == lines[j + 1..];
          match lines[j]
          case LineFault =>
            return Err(LineRead);
          case LineOk(line) =>
            if IsFromLine(line) {
              match decode(line)
              case None =>
                return Err(HeaderParse);
              case Some(header) =>
                mails := mails + [header];
                assert EntrySender(e, decode) == Ok(Some(header));
                break;
            }
          j := j + 1;
        }
        assert EntrySender(e, decode).Ok? && mails == before + ToSeq(EntrySender(e, decode).value);
        PrependAssoc(before, ToSeq(EntrySender(e, decode).value), ScanEntries(es[i + 1..], decode));
        i := i + 1;
      }
      assert es[i..] == [] && mails + [] == mails;
      text := Summary(labelText, mails);
      state := ComputeState(|mails|);
      return Ok(Some(interval));
    }
  }
}
