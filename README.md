# ARGOS ExoLab v2.1 — decision logic and run ledger in Dafny

ARGOS ExoLab screens a list of TESS Input Catalog (TIC) numbers for transiting
exoplanets. For each target it looks up the star in the catalog, downloads one
light curve, runs a box-least-squares periodogram, derives planet and
habitability figures, labels the detection, draws an identity card, and
appends to three files: an observation log, a research database (CSV) and a
processing history. A target whose number is already in the history is
skipped, so a rerun resumes where the last one stopped.

This project models the decision logic and the run over the target list:

- `Stellar` (stellar.dfy): the spectral class from the effective temperature,
  and the solar defaults for a catalog radius or temperature that is NaN
  (written as `Option<real>`).
- `Triage` (triage.dfy): the SINGLE TRANSIT / HIGH / LOW decision list.
- `Assessment` (assessment.dfy): habitable-zone status from the insolation,
  and the hemisphere from the declination.
- `Pipeline` (pipeline.dfy): one target's pass, stage by stage. The answers of
  the catalog, the archive searches, the download, the periodogram, the
  physical formulas and the plotting come in as a `TargetWorld` value. A
  raising catalog lookup, search, periodogram or physics step is `None`, a
  raising download is `Raised`, and a raising identity card is
  `rendered == false`. The pass ends as `Success(record)`, `NoData`
  (the script's `continue`) or `Fatal(stage)` (an exception caught by the loop).
- `Ledger` (ledger.dfy): the three files as sequences of lines. `Step`, `Run`
  and `Completed` specify the loop as functions. The class `ExportDirectory`
  holds the files as fields, and its `RunBatch` method runs the loop in place
  and is proved equal to `Run`. Each target carries a `WriteFault`, which says
  which of its writes raises, if any. This lets the model state what a crash
  between the writes leaves behind: the log line and CSV row stay, and the
  history line is missing (`Ledger.CrashBeforeHistoryKeepsRecord`).

The history is read once, before the loop, and is not updated in memory.
So a catalog number listed twice in one target list is processed twice
(`Ledger.RepeatedTargetRunsTwice`). The threshold comparisons are modelled
on exact reals. Where the script compares against a computed float (the
dip test `max_dip > 3 * std` at line 100), the model's product is exact,
while Python's is rounded.

## Model

| member | source | states |
|---|---|---|
| `Stellar.EstimateSpectralType` | script/argos_exolab_v2.1.py:22-27 | total: every temperature gets the class whose half-open band (lower end included) contains it |
| `Stellar.SpectralTypeIsTheBand` | script/argos_exolab_v2.1.py:22-27 | the bands do not overlap: the class is M, K, G or F exactly when the temperature lies in that band |
| `Stellar.SpectralTypeMonotone` | script/argos_exolab_v2.1.py:22-27 | a hotter star never gets a cooler class |
| `Stellar.BoundariesBelongToHotterBand` | script/argos_exolab_v2.1.py:24-27 | 3800 K gives K, 5300 K gives G, 6000 K gives F |
| `Stellar.ResolveStar` | script/argos_exolab_v2.1.py:47-52 | a missing radius becomes 1.0, a missing temperature 5778.0, present values and magnitude/coordinates pass through, and the class matches the resolved temperature |
| `Stellar.ResolveCompleteRow` | script/argos_exolab_v2.1.py:48-52 | a row carrying all of a star's parameters resolves back to that star |
| `Stellar.MissingValuesGiveTheSun` | script/argos_exolab_v2.1.py:48-52 | a row with both values missing resolves to radius 1.0, 5778 K, class G |
| `Triage.Classify` | script/argos_exolab_v2.1.py:100-113 | SINGLE TRANSIT iff sde < 10, depth > 0.0015 and max_dip > 3·std; HIGH iff sde >= 15; LOW iff neither |
| `Triage.SingleAndHighDisjoint` | script/argos_exolab_v2.1.py:100-107 | the single-transit test and the HIGH threshold never hold together |
| `Triage.MiddleStrengthIsLow` | script/argos_exolab_v2.1.py:100-113 | every sde in [10, 15) gives LOW |
| `Assessment.HabitableZone` | script/argos_exolab_v2.1.py:95-96 | IN HABITABLE ZONE iff 0.5 <= insolation <= 2.0, both ends inside |
| `Assessment.HabitableZoneIsInterval` | script/argos_exolab_v2.1.py:95-96 | anything between two habitable insolations is habitable |
| `Assessment.HemisphereOf` | script/argos_exolab_v2.1.py:124 | North iff dec >= 0, so dec = 0 is North |
| `Pipeline.ChooseProduct` | script/argos_exolab_v2.1.py:55-62 | the first SPOC product if any, else the first product of any author, else none; a raising search ends the choice |
| `Pipeline.SpocProductIgnoresFallback` | script/argos_exolab_v2.1.py:55-57 | once the SPOC search finds a product, the any-author search's answer, even an exception, changes nothing |
| `Pipeline.AcquiredCurve` | script/argos_exolab_v2.1.py:55-64 | an exception from a search or the download, nothing when no product is found or the download returns None, else the first product's curve |
| `Pipeline.MakeRecord` | script/argos_exolab_v2.1.py:160-162 | the row carries this target's SDE, coordinates, magnitude and physics; its HZ status, hemisphere and confidence are the classifiers' answers on those values; triage uses the raw flux deviation while the noise column is it in ppm; duration in hours is 24 × days |
| `Pipeline.Evaluate` | script/argos_exolab_v2.1.py:45-147 | a failed catalog lookup is fatal even without data; an exception from a search or the download is fatal; no product, or a download that returns None, is a no-data skip; success exactly when every stage answers, with the record of this target |
| `Pipeline.SuccessIsConsistent` | script/argos_exolab_v2.1.py:160-162 | a successful pass yields a record of this target whose labels agree with their thresholds |
| `Ledger.DecimalString` | script/argos_exolab_v2.1.py:42 | the history line of a number is a string of decimal digits, without a leading zero, whose value is that number |
| `Ledger.DecimalStringInjective` | script/argos_exolab_v2.1.py:42 | distinct catalog numbers have distinct history lines |
| `Ledger.Emit` | script/argos_exolab_v2.1.py:150-169 | writes in order log line, CSV header when absent, CSV row, history line; a raising write keeps exactly the earlier ones (a raising CSV write leaves the CSV as it was; a raising row write keeps a new header); the history line is added only when no write raises |
| `Ledger.Step` | script/argos_exolab_v2.1.py:40-174 | a listed target, a no-data skip or an exception writes nothing; the history gains the line exactly when the target completes; at most one log line is added |
| `Ledger.RunFrom` | script/argos_exolab_v2.1.py:40-174 | the loop with a fixed snapshot adds at most one history line and one log line per target |
| `Ledger.Run` | script/argos_exolab_v2.1.py:35-174 | the history, read once before the loop, gains exactly the `Completed` lines |
| `Ledger.Completed` | script/argos_exolab_v2.1.py:42-43 | at most one line per target, none of them already listed at start-up |
| `Ledger.StepEffect` | script/argos_exolab_v2.1.py:151-169 | when an iteration adds the history line, the target's log line and CSV row were already written |
| `Ledger.CrashBeforeHistoryKeepsRecord` | script/argos_exolab_v2.1.py:164-169 | a crash at the history write keeps the log line, the CSV row (and any header) and leaves the history unchanged |
| `Ledger.RunAppendOnly` | script/argos_exolab_v2.1.py:151-169 | history, log and CSV only grow, and a created CSV file stays |
| `Ledger.RunHistoryIsCompleted` | script/argos_exolab_v2.1.py:167-169 | a run appends to the history exactly the lines of the targets that complete and were not listed at start-up |
| `Ledger.FailureLeavesUnprocessed` | script/argos_exolab_v2.1.py:56-64 | a target none of whose passes completes (no data, exception, crash before the history write) is not in the history afterwards |
| `Ledger.CompletedTargetIsRecorded` | script/argos_exolab_v2.1.py:167-169 | after a run, every completed target is in the history |
| `Ledger.ListedTargetsWriteNothing` | script/argos_exolab_v2.1.py:35-43 | targets all listed in the history read at start-up change no file |
| `Ledger.RerunAfterSuccessIsNoop` | script/argos_exolab_v2.1.py:35-43 | after a run in which every target was already listed or completed, a rerun over the same numbers appends nothing to any file |
| `Ledger.RepeatedTargetRunsTwice` | script/argos_exolab_v2.1.py:35-43 | since the history is read only once, a number listed twice gets two history lines |
| `Ledger.HeaderWrittenOnce` | script/argos_exolab_v2.1.py:155-158 | a run adds one CSV header, as the first line, exactly when it creates the file, and none otherwise |
| `Ledger.ExportDirectory.Open` | script/argos_exolab_v2.1.py:15-17 | the export files as found at start-up |
| `Ledger.ExportDirectory.ReadProcessed` | script/argos_exolab_v2.1.py:35-38 | the processed list is the history's lines (empty when the file is absent) |
| `Ledger.ExportDirectory.ProcessTarget` | script/argos_exolab_v2.1.py:40-174 | one loop iteration changes the files exactly as `Step` says |
| `Ledger.ExportDirectory.RunBatch` | script/argos_exolab_v2.1.py:35-174 | the loop changes the files exactly as `Run` says, and every file only grows |

## Left out

- Catalog lookup, light-curve search, download, normalising, flattening and outlier removal, and the periodogram are external library calls. Their answers are fields of `TargetWorld`. An exception in the catalog lookup, a search, the periodogram or the physics is `None`, and in a download it is `Raised`. An exception while cleaning the light curve or computing its statistics (lines 67-70) is folded into the periodogram's `None`.
- The standard deviation and the largest deviation of the flux (lines 69-70) are taken as given in `CurveStats`.
- The physical formulas (lines 83-94: fractional powers, square roots) are floating-point numerics. Distance, planet radius, equilibrium temperature and insolation are taken as given in `Physics`. When they raise, `physics` is `None`. A NaN they produce without raising is not modelled (see the NaN line below).
- NaN in values other than the catalog radius and temperature is not modelled. Python compares a NaN SDE or insolation as false, which would give LOW or OUTSIDE HZ.
- The identity card (lines 116-147) is reduced to whether drawing and saving it raised (`rendered`).
- Timestamps, the date column, icons, number formatting and printed messages are clock and formatting details. Log lines and CSV rows are kept as structured values, and the header as the constant `CsvHeaderText`.
- Directory creation and path construction (lines 10-20) are left out. The history file's own parse (`splitlines`) is taken to return the lines as they were written.
- A write that raises part-way through a line is not modelled. Each write either happens whole or raises before changing its file.
