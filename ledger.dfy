/** The run over the target list and the three export files it appends to:
    the processing history (the ledger of finished targets), the observation
    log and the research database (CSV). Each file is a sequence of lines. */
module Ledger {
  import opened Triage
  import opened Pipeline

  /** The decimal digit character of `d`. */
  function DigitChar(d: nat): (c: char)
    requires d < 10
    ensures c as int == '0' as int + d
  {
    ('0' as int + d) as char
  }

  /** The value of a decimal digit character. */
  function DigitValue(c: char): nat {
    if '0' <= c <= '9' then c as int - '0' as int else 0
  }

  /** The number a string of decimal digits spells, most significant first. */
  function DecimalValue(s: string): nat
    decreases |s|
  {
    if s == [] then 0 else 10 * DecimalValue(s[..|s| - 1]) + DigitValue(s[|s| - 1])
  }

  /** The decimal spelling of a catalog number, the line the history file holds
      for it (and the string the skip test looks up): digits only, no leading
      zero, and they spell `n`. */
  function DecimalString(n: nat): (s: string)
    ensures |s| >= 1
    ensures forall i :: 0 <= i < |s| ==> '0' <= s[i] <= '9'
    ensures s[0] == '0' ==> n == 0
    ensures DecimalValue(s) == n
    decreases n
  {
    if n < 10 then [DigitChar(n)]
    else
      var prefix := DecimalString(n / 10);
      assert (prefix + [DigitChar(n % 10)])[..|prefix|] == prefix;
      prefix + [DigitChar(n % 10)]
  }

  /** Distinct catalog numbers have distinct history lines. */
  lemma DecimalStringInjective(a: nat, b: nat)
    requires DecimalString(a) == DecimalString(b)
    ensures a == b
  {
    assert a == DecimalValue(DecimalString(a)) == DecimalValue(DecimalString(b)) == b;
  }

  /** One line of the observation log: the target, its SDE and its label
      (the label also picks the icon). The time of day is not modelled. */
  datatype LogLine = LogLine(tic: nat, sde: real, confidence: Confidence)

  /** A line of the CSV file: the fixed header or one observation row. */
  datatype CsvLine = Header | Row(record: ObservationRecord)

  const CsvHeaderText: string :=
    "Date;Target;RA;DEC;Hemi;Type;Radius_Re;Dist_AU;T_eq_K;T_eq_C;Insolation;HZ_Status;Dur_Hrs;Noise_PPM;SDE;Mag;Confidence"

  /** The write, if any, that raises for a target whose pipeline succeeded.
      `FailOnCsv` strikes before the CSV is touched (the header write when the
      file is absent, else the row append); `FailOnCsvRow` strikes at the row
      append, after a header the same target may have written. */
  datatype WriteFault = NoFault | FailOnLog | FailOnCsv | FailOnCsvRow | FailOnHistory

  /** One entry of the target list together with what the world answers for it. */
  datatype Target = Target(tic: nat, world: TargetWorld, fault: WriteFault)

  /** The contents of the export directory. An absent history file reads as
      an empty one; the CSV file's existence decides whether a header is due. */
  datatype Exports = Exports(history: seq<string>, log: seq<LogLine>, csvExists: bool, csv: seq<CsvLine>)

  /** An absent CSV file has no lines. */
  predicate WellFormed(e: Exports) {
    !e.csvExists ==> e.csv == []
  }

  /** The writes of a successful target, in the script's order: log line, CSV
      header when the file is absent (written in truncating mode), CSV row,
      history line. A raising write ends the sequence, keeping what was written. */
  function Emit(e: Exports, rec: ObservationRecord, fault: WriteFault): (e': Exports)
    ensures fault == FailOnLog ==> e' == e
    ensures fault != FailOnLog ==> e'.log == e.log + [LogLine(rec.tic, rec.sde, rec.confidence)]
    ensures fault == FailOnCsv ==> e'.csv == e.csv && e'.csvExists == e.csvExists
    ensures fault == FailOnCsvRow ==> e'.csv == (if e.csvExists then e.csv else [Header]) && e'.csvExists
    ensures fault == NoFault || fault == FailOnHistory ==>
              e'.csv == (if e.csvExists then e.csv else [Header]) + [Row(rec)]
    ensures e'.history == e.history + (if fault == NoFault then [DecimalString(rec.tic)] else [])
    ensures WellFormed(e) ==> WellFormed(e') && e.csv <= e'.csv && (e.csvExists ==> e'.csvExists)
  {
    if fault == FailOnLog then e
    else
      var logged := e.(log := e.log + [LogLine(rec.tic, rec.sde, rec.confidence)]);
      if fault == FailOnCsv then logged
      else
        var headed := if logged.csvExists then logged else logged.(csvExists := true, csv := [Header]);
        if fault == FailOnCsvRow then headed
        else
          var stored := headed.(csv := headed.csv + [Row(rec)]);
          if fault == FailOnHistory then stored
          else
            assert fault == NoFault;
            stored.(history := stored.history + [DecimalString(rec.tic)])
  }

  /** One iteration of the loop: skip a target listed in the history read at
      start-up; otherwise run its pipeline and, on success, write. */
  function Step(e: Exports, processed: seq<string>, t: Target): (e': Exports)
    ensures DecimalString(t.tic) in processed || !Evaluate(t.tic, t.world).Success? ==> e' == e
    ensures e'.history == e.history + (if DecimalString(t.tic) !in processed && Completes(t) then [DecimalString(t.tic)] else [])
    ensures |e'.log| <= |e.log| + 1
  {
    if DecimalString(t.tic) in processed then e
    else
      match Evaluate(t.tic, t.world)
      case Success(rec) => Emit(e, rec, t.fault)
      case NoData => e
      case Fatal(_) => e
  }

  /** The loop over a prefix of the target list, with the history snapshot
      `processed` fixed for the whole run. */
  function RunFrom(e: Exports, processed: seq<string>, ts: seq<Target>): (r: Exports)
    ensures |r.history| <= |e.history| + |ts| && |r.log| <= |e.log| + |ts|
    decreases |ts|
  {
    if ts == [] then e
    else Step(RunFrom(e, processed, ts[..|ts| - 1]), processed, ts[|ts| - 1])
  }

  /** A whole run: the history is read once, before the loop. */
  function Run(e: Exports, ts: seq<Target>): (r: Exports)
    ensures r.history == e.history + Completed(e.history, ts)
  {
    RunHistoryIsCompleted(e, e.history, ts);
    RunFrom(e, e.history, ts)
  }

  /** A target completes when its pipeline succeeds and no write raises. */
  predicate Completes(t: Target) {
    Evaluate(t.tic, t.world).Success? && t.fault == NoFault
  }

  /** The history lines a run adds: one per completing target not already
      listed at start-up, in list order. */
  function Completed(processed: seq<string>, ts: seq<Target>): (c: seq<string>)
    ensures |c| <= |ts|
    ensures forall i :: 0 <= i < |c| ==> c[i] !in processed
    decreases |ts|
  {
    if ts == [] then []
    else
      var t := ts[|ts| - 1];
      Completed(processed, ts[..|ts| - 1]) + (if DecimalString(t.tic) !in processed && Completes(t) then [DecimalString(t.tic)] else [])
  }

  /** Number of header lines in a CSV file. */
  function HeaderCount(lines: seq<CsvLine>): nat
    decreases |lines|
  {
    if lines == [] then 0
    else HeaderCount(lines[..|lines| - 1]) + (if lines[|lines| - 1].Header? then 1 else 0)
  }

  /** The history line is the last write: when an iteration adds it, the
      target's log line and CSV row are already in place. */
  lemma StepEffect(e: Exports, processed: seq<string>, t: Target)
    ensures var e' := Step(e, processed, t);
      && (e'.history != e.history ==>
            var rec := Evaluate(t.tic, t.world).record;
            && e'.log == e.log + [LogLine(t.tic, rec.sde, rec.confidence)]
            && e'.csv != [] && e'.csv[|e'.csv| - 1] == Row(rec))
  {
  }

  /** A crash at the final history write keeps the target's log line and CSV
      row (and the header, if it created the file) but leaves the target out of
      the history. */
  lemma CrashBeforeHistoryKeepsRecord(e: Exports, processed: seq<string>, t: Target)
    requires DecimalString(t.tic) !in processed && Evaluate(t.tic, t.world).Success?
    requires t.fault == FailOnHistory
    ensures var e' := Step(e, processed, t);
      var rec := Evaluate(t.tic, t.world).record;
      && e'.history == e.history
      && e'.log == e.log + [LogLine(t.tic, rec.sde, rec.confidence)]
      && e'.csv == (if e.csvExists then e.csv else [Header]) + [Row(rec)]
  {
  }

  /** Every file of the export directory only grows, and a CSV file once
      created stays. */
  lemma {:induction false} RunAppendOnly(e: Exports, processed: seq<string>, ts: seq<Target>)
    requires WellFormed(e)
    ensures var e' := RunFrom(e, processed, ts);
      && WellFormed(e')
      && e.history <= e'.history && e.log <= e'.log && e.csv <= e'.csv
      && (e.csvExists ==> e'.csvExists)
    decreases |ts|
  {
    if ts != [] {
      var mid := RunFrom(e, processed, ts[..|ts| - 1]);
      RunAppendOnly(e, processed, ts[..|ts| - 1]);
      var e' := Step(mid, processed, ts[|ts| - 1]);
      assert mid.history <= e'.history && mid.log <= e'.log && mid.csv <= e'.csv;
    }
  }

  /** The ledger: a run appends to the history exactly the lines of the targets
      that complete and were not listed at start-up. */
  lemma {:induction false} RunHistoryIsCompleted(e: Exports, processed: seq<string>, ts: seq<Target>)
    ensures RunFrom(e, processed, ts).history == e.history + Completed(processed, ts)
    decreases |ts|
  {
    if ts != [] {
      RunHistoryIsCompleted(e, processed, ts[..|ts| - 1]);
    }
  }

  /** Every completed line belongs to a completing target that was not listed. */
  lemma {:induction false} CompletedFrom(processed: seq<string>, ts: seq<Target>, line: string)
    requires line in Completed(processed, ts)
    ensures exists i :: 0 <= i < |ts| && Completes(ts[i]) && DecimalString(ts[i].tic) == line && line !in processed
    decreases |ts|
  {
    var n := |ts| - 1;
    if line in Completed(processed, ts[..n]) {
      CompletedFrom(processed, ts[..n], line);
      var i :| 0 <= i < n && Completes(ts[..n][i]) && DecimalString(ts[..n][i].tic) == line && line !in processed;
      assert ts[i] == ts[..n][i];
    } else {
      assert Completes(ts[n]) && DecimalString(ts[n].tic) == line;
    }
  }

  /** Every completing target that was not listed gets its line. */
  lemma {:induction false} CompletedHas(processed: seq<string>, ts: seq<Target>, i: nat)
    requires i < |ts| && Completes(ts[i]) && DecimalString(ts[i].tic) !in processed
    ensures DecimalString(ts[i].tic) in Completed(processed, ts)
    decreases |ts|
  {
    var n := |ts| - 1;
    if i < n {
      assert ts[..n][i] == ts[i];
      CompletedHas(processed, ts[..n], i);
    }
  }

  /** A target none of whose passes completes stays unprocessed: a no-data
      skip, an exception, or a crash before the final history write leaves it
      to be retried by the next run. */
  lemma FailureLeavesUnprocessed(e: Exports, ts: seq<Target>, tic: nat)
    requires WellFormed(e)
    requires DecimalString(tic) !in e.history
    requires forall i :: 0 <= i < |ts| && ts[i].tic == tic ==> !Completes(ts[i])
    ensures DecimalString(tic) !in Run(e, ts).history
  {
    RunHistoryIsCompleted(e, e.history, ts);
    if DecimalString(tic) in Completed(e.history, ts) {
      CompletedFrom(e.history, ts, DecimalString(tic));
      assert false;
    }
  }

  /** After a run, the history lists every target that completed. */
  lemma CompletedTargetIsRecorded(e: Exports, ts: seq<Target>, i: nat)
    requires WellFormed(e)
    requires i < |ts| && Completes(ts[i])
    ensures DecimalString(ts[i].tic) in Run(e, ts).history
  {
    RunHistoryIsCompleted(e, e.history, ts);
    if DecimalString(ts[i].tic) !in e.history {
      CompletedHas(e.history, ts, i);
    }
  }

  /** A run over targets all listed at start-up changes no file. */
  lemma {:induction false} ListedTargetsWriteNothing(e: Exports, processed: seq<string>, ts: seq<Target>)
    requires forall i :: 0 <= i < |ts| ==> DecimalString(ts[i].tic) in processed
    ensures RunFrom(e, processed, ts) == e
    decreases |ts|
  {
    if ts != [] {
      ListedTargetsWriteNothing(e, processed, ts[..|ts| - 1]);
    }
  }

  /** Idempotent resume: once every target of a run was either listed at
      start-up or completed, a rerun over the same catalog numbers appends
      nothing to the history, the log or the CSV, whatever the world answers
      this time. */
  lemma RerunAfterSuccessIsNoop(e: Exports, first: seq<Target>, again: seq<Target>)
    requires WellFormed(e)
    requires forall i :: 0 <= i < |first| ==> DecimalString(first[i].tic) in e.history || Completes(first[i])
    requires forall j :: 0 <= j < |again| ==> exists i :: 0 <= i < |first| && first[i].tic == again[j].tic
    ensures Run(Run(e, first), again) == Run(e, first)
  {
    var done := Run(e, first);
    forall j | 0 <= j < |again|
      ensures DecimalString(again[j].tic) in done.history
    {
      var i :| 0 <= i < |first| && first[i].tic == again[j].tic;
      if DecimalString(first[i].tic) in e.history {
        RunAppendOnly(e, e.history, first);
      } else {
        CompletedTargetIsRecorded(e, first, i);
      }
    }
    ListedTargetsWriteNothing(done, done.history, again);
  }

  /** The history is read once, before the loop, so a catalog number listed
      twice in one target list is processed twice when both passes complete:
      its history line, log line and CSV row are all written twice. */
  lemma RepeatedTargetRunsTwice(e: Exports, t: Target)
    requires WellFormed(e)
    requires DecimalString(t.tic) !in e.history && Completes(t)
    ensures Run(e, [t, t]).history == e.history + [DecimalString(t.tic), DecimalString(t.tic)]
  {
    RunHistoryIsCompleted(e, e.history, [t, t]);
    assert [t, t][..1] == [t];
    assert [t][..0] == [];
    assert Completed(e.history, [t]) == [DecimalString(t.tic)];
    assert Completed(e.history, [t, t]) == [DecimalString(t.tic)] + [DecimalString(t.tic)];
  }

  /** The CSV header is written at most once, and only when the file was
      absent: a run adds one header, as the file's first line, exactly when
      it creates the file, and none otherwise. */
  lemma {:induction false} HeaderWrittenOnce(e: Exports, processed: seq<string>, ts: seq<Target>)
    requires WellFormed(e)
    ensures var e' := RunFrom(e, processed, ts);
      && HeaderCount(e'.csv) == HeaderCount(e.csv) + (if !e.csvExists && e'.csvExists then 1 else 0)
      && (!e.csvExists && e'.csvExists ==> e'.csv[0] == Header)
    decreases |ts|
  {
    if ts != [] {
      var mid := RunFrom(e, processed, ts[..|ts| - 1]);
      HeaderWrittenOnce(e, processed, ts[..|ts| - 1]);
      RunAppendOnly(e, processed, ts[..|ts| - 1]);
      var t := ts[|ts| - 1];
      var e' := Step(mid, processed, t);
      if e' != mid {
        var rec := Evaluate(t.tic, t.world).record;
        var logged := mid.(log := mid.log + [LogLine(rec.tic, rec.sde, rec.confidence)]);
        var headed := if logged.csvExists then logged else logged.(csvExists := true, csv := [Header]);
        assert HeaderCount([Header]) == 1 by {
          assert [Header][..0] == [];
        }
        if t.fault != FailOnLog && t.fault != FailOnCsv && t.fault != FailOnCsvRow {
          assert headed.csv + [Row(rec)] == e'.csv;
          assert (headed.csv + [Row(rec)])[..|headed.csv|] == headed.csv;
        }
      }
    }
  }

  /** The export directory, whose files the run appends to in place. */
  class ExportDirectory {
    var history: seq<string>
    var log: seq<LogLine>
    var csvExists: bool
    var csv: seq<CsvLine>

    ghost predicate Valid()
      reads this
    {
      !csvExists ==> csv == []
    }

    /** The files as one value. */
    function Contents(): Exports
      reads this
    {
      Exports(history, log, csvExists, csv)
    }

    constructor Open(history: seq<string>, log: seq<LogLine>, csvExists: bool, csv: seq<CsvLine>)
      requires !csvExists ==> csv == []
      ensures Valid() && Contents() == Exports(history, log, csvExists, csv)
    {
      this.history := history;
      this.log := log;
      this.csvExists := csvExists;
      this.csv := csv;
    }

    /** The history as read at start-up, one catalog number per line. */
    method ReadProcessed() returns (processed: seq<string>)
      ensures processed == history
    {
      processed := history;
    }

    /** One iteration of the loop over the target list. */
    method ProcessTarget(processed: seq<string>, t: Target)
      requires Valid()
      modifies this
      ensures Valid() && Contents() == Step(old(Contents()), processed, t)
    {
      if DecimalString(t.tic) in processed {
        return;
      }
      var outcome := Evaluate(t.tic, t.world);
      if !outcome.Success? {
        return;
      }
      var rec := outcome.record;
      if t.fault == FailOnLog {
        return;
      }
      log := log + [LogLine(rec.tic, rec.sde, rec.confidence)];
      if t.fault == FailOnCsv {
        return;
      }
      if !csvExists {
        csv := [Header];
        csvExists := true;
      }
      if t.fault == FailOnCsvRow {
        return;
      }
      csv := csv + [Row(rec)];
      if t.fault == FailOnHistory {
        return;
      }
      history := history + [DecimalString(rec.tic)];
    }

    /** The whole run: read the history once, then process the targets in
        order. Every file only grows. */
    method RunBatch(targets: seq<Target>)
      requires Valid()
      modifies this
      ensures Valid() && Contents() == Run(old(Contents()), targets)
      ensures old(history) <= history && old(log) <= log && old(csv) <= csv
    {
      var processed := ReadProcessed();
      for i := 0 to |targets|
        invariant Valid()
        invariant Contents() == RunFrom(old(Contents()), processed, targets[..i])
      {
        ProcessTarget(processed, targets[i]);
        assert targets[..i + 1][..i] == targets[..i];
      }
      assert targets[..|targets|] == targets;
      RunAppendOnly(old(Contents()), processed, targets);
    }
  }
}
