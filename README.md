# pd-l1-drug-accelerator, modelled in Dafny

The pd-l1-drug-accelerator scripts drive a binder-design pipeline against
PD-L1:

1. RFdiffusion proposes backbones, through the hosted NVIDIA service or a
   local install.
2. ProteinMPNN designs sequences for them.
3. AlphaFold 3 folds the designs.

Every scientific step is an HTTP request or a subprocess. The logic the
repository owns, and which this project models and proves, is:

- **The job-history ledger** `data/processed_history.csv` and its status
  machine: `waiting_validation`, `fasta_ready`, `ready_for_google`, a
  missing status, or any other label. Three stages touch it:
  - the ProteinMPNN stage appends the sequences not already seen;
  - the packager repairs a malformed file, selects the pending rows,
    splits each into binder and target, builds AlphaFold jobs and moves
    only the packaged rows to `ready_for_google`;
  - the two FASTA exporters move every row that is exactly
    `waiting_validation` to `fasta_ready`.

  The packager and the exporters disagree on whether a row without status
  is pending. The model keeps both filters (`Ledger.PendingOrMissing`,
  `Ledger.PendingStrict`) and proves the difference
  (`FastaExport.MissingStatusDiffers`).
- **Sequence-record text processing**:
  - the ProteinMPNN FASTA parser;
  - the odd-line extraction of the ProteinMPNN stage;
  - the last-line binder extraction of the AlphaFold Server job builder;
  - the `/` split with its five-residue guard in the packager.
- **PDB line processing**, on lines in the wwPDB Atomic Coordinate Entry
  Format, version 3.3, section 9 (the ATOM record):
  - the standard-residue filter;
  - the ATOM-only filter of both NVIDIA scripts;
  - the renumber-to-chain-A-and-truncate loop with its early break.
- **Adapter decision logic**:
  - payload dictionaries with optional keys;
  - the ordered "first truthy field" fallback against schema drift;
  - per-item result lists and success counters;
  - default ids;
  - command lines.

  HTTP requests, subprocesses, directory listings, clocks and
  `shutil.which` are function parameters (oracles).

Files are `seq<string>` of lines or a `string` of text. A CSV record is a
`seq<string>` of fields. A pandas table is `Ledger.Table`, a sequence of
`Ledger.Row` records whose cells are `Option<string>`, where `None` is
NaN. The in-place DataFrame updates (`df.at[idx, 'status'] = ...`,
`df.loc[indices, 'status'] = ...`) are methods of the class
`Ledger.Frame`, which holds the rows in an `array`. Imperative loops are
methods, each proved against a specification function. The properties
are stated about those functions.

Modules, one per file:
- `wrappers.dfy`: `Option` and `Result`.
- `seqs.dfy`: positions of set flags, flattening.
- `text.dfy`: the string primitives the scripts call (`strip`, `split`,
  `join`, `replace`, `str(int)` and padded formats).
- `json.dfy`: decoded JSON values, truthiness, the ordered field
  fallback, HTTP replies.
- `ledger.dfy`, `ledger_repair.dfy`, `af_packager.dfy`,
  `fasta_export.dfy`, `mpnn_history.dfy`: the ledger stages.
- `mpnn_generator.dfy`, `af3_json.dfy`, `af3_predictor.dfy`: the
  ProteinMPNN and AlphaFold 3 adapters.
- `pdb.dfy`, `clean_pdb.dfy`, `rfdiffusion_pure.dfy`: the PDB line
  processing.
- `nvidia_batch.dfy`, `nvidia_skeleton.dfy`, `rf_diffusion.dfy`: the
  RFdiffusion clients.

## Model

| member | source | states |
|---|---|---|
| Ledger.ParseStatus | scripts/posible_alphafold_total.py:56 | an empty or missing cell reads as `Missing`; the three labels are recognised; any other non-empty label is kept verbatim as `Other` |
| Ledger.StatusCell | scripts/run_03_alphafold_pipeline.py:58-61 | a status is written as an empty (NaN) cell exactly when it is `Missing` |
| Ledger.StatusRoundTrip | scripts/posible_alphafold_total.py:120-121 | writing a status and reading it back gives it back exactly when it is one a cell can hold; reading a non-empty cell and writing it gives the cell |
| Ledger.WithStatusColumn | scripts/run_03_alphafold_pipeline.py:35-36 | a table without a status column gets one with every row `waiting_validation`; a table with one is unchanged; no row is added or dropped |
| Ledger.WithStatusAt | scripts/posible_alphafold_total.py:120 | exactly the rows whose index is in the set get the new status; every other row is unchanged |
| Ledger.WithStatusAtStep | scripts/run_03_alphafold_pipeline.py:58 | setting one more row's status equals adding its index to the set |
| Ledger.Frame.constructor | scripts/posible_alphafold_total.py:49 | the frame holds the table as read |
| Ledger.Frame.AddStatusColumnIfMissing | scripts/posible_alphafold_total.py:55 | the frame afterwards is `WithStatusColumn` of the frame before |
| Ledger.Frame.SetStatus | scripts/run_03_alphafold_pipeline_local.py:61 | only the status of row `idx` changes, in place |
| Ledger.Frame.SetStatusAt | scripts/posible_alphafold_total.py:120 | the frame afterwards is `WithStatusAt` of the frame before |
| LedgerRepair.CleanField | scripts/posible_alphafold_total.py:35 | a cleaned field has no double quote and no surrounding whitespace, and gains no comma |
| LedgerRepair.FieldAt | scripts/posible_alphafold_total.py:33-35 | every field the repair writes is clean (no quote, no comma, stripped), padding included |
| LedgerRepair.Fields | scripts/posible_alphafold_total.py:33-35 | a repaired row has exactly five fields, field `i` being the cleaned piece `i` or `waiting_validation` |
| LedgerRepair.RepairLine | scripts/posible_alphafold_total.py:31-35 | every repaired line gives exactly five clean fields, whatever the line holds (a blank line included) |
| LedgerRepair.RepairedData | scripts/posible_alphafold_total.py:29-35 | one five-field row per line after the header, in order |
| LedgerRepair.RepairOne | scripts/posible_alphafold_total.py:31-35 | the cut-and-pad `while` loop computes `RepairLine` |
| LedgerRepair.RepairRows | scripts/posible_alphafold_total.py:29-35 | the loop over the lines computes `RepairedData` |
| LedgerRepair.Render | scripts/posible_alphafold_total.py:36-37 | the rewritten file starts with the fixed header `sequence,date,batch,source_pdb,status` and has one line per row |
| LedgerRepair.RepairIfNeeded | scripts/posible_alphafold_total.py:22-37 | the file is rewritten exactly when it exists and pandas fails on it, and then with the rendered repaired rows |
| LedgerRepair.CleanFieldFixed | scripts/posible_alphafold_total.py:35 | cleaning a clean field changes nothing |
| LedgerRepair.RenderedLineSplits | scripts/posible_alphafold_total.py:31 | the naive comma split of a written row gives back its five fields |
| LedgerRepair.PaddedRowCleaned | scripts/posible_alphafold_total.py:33-35 | the padding `waiting_validation` is already clean, so cleaning the padded row gives `Fields` of the pieces |
| LedgerRepair.FieldsOfClean | scripts/posible_alphafold_total.py:33-35 | five clean fields are their own repaired fields |
| LedgerRepair.RepairRowStable | scripts/posible_alphafold_total.py:31-37 | a repaired row written out and repaired again is unchanged |
| LedgerRepair.RepairIdempotent | scripts/posible_alphafold_total.py:22-37 | repairing the file the repair wrote gives the same rows |
| LedgerRepair.SingleFieldPadded | scripts/posible_alphafold_total.py:32-34 | a line without commas keeps its text as the sequence and gets `waiting_validation` in date, batch, source_pdb and status |
| LedgerRepair.Cell | scripts/posible_alphafold_total.py:49 | pandas reads a field as missing exactly when it is empty |
| LedgerRepair.ReadRepaired | scripts/posible_alphafold_total.py:49 | the re-read repaired ledger has sequence, batch and status columns, one row per repaired row, with the status parsed from the fifth field |
| AlphaFoldPackager.SplitPair | scripts/posible_alphafold_total.py:79-87 | no `/` means no pair; a pair has two stripped chains of at least five characters |
| AlphaFoldPackager.SplitPairRoundTrip | scripts/posible_alphafold_total.py:79-82 | `binder/target` with clean chains of length five or more splits back into binder and target |
| AlphaFoldPackager.SplitPairIgnoresRest | scripts/posible_alphafold_total.py:80-82 | text after a second `/` does not change the pair |
| AlphaFoldPackager.SplitPairChainsClean | scripts/posible_alphafold_total.py:80-82 | the chains of a pair contain no `/` |
| AlphaFoldPackager.Proteins | scripts/posible_alphafold_total.py:94-99 | a job's protein list is binder then target, each with count 1 |
| AlphaFoldPackager.DesignName | scripts/posible_alphafold_total.py:76 | every job name starts with `design_` |
| AlphaFoldPackager.DesignNamesDistinct | scripts/posible_alphafold_total.py:76 | different rows get different `design_{idx}_{batch}` names, whatever the batch labels |
| AlphaFoldPackager.JobFor | scripts/posible_alphafold_total.py:74-101 | a row yields a job only when it is pending (waiting or missing) with a sequence, and the job carries the row's design name |
| AlphaFoldPackager.Plan | scripts/posible_alphafold_total.py:74-109 | the job of every row, in row order |
| AlphaFoldPackager.HasJob | scripts/posible_alphafold_total.py:109 | which rows yield a job |
| AlphaFoldPackager.JobsAt | scripts/posible_alphafold_total.py:101 | the jobs at the processed indices, in order |
| AlphaFoldPackager.FastaOf | scripts/posible_alphafold_total.py:106-107 | the FASTA file of a job is named `{name}.fasta` |
| AlphaFoldPackager.FastasOf | scripts/posible_alphafold_total.py:106-107 | one FASTA file per job, in order |
| AlphaFoldPackager.PackRow | scripts/posible_alphafold_total.py:74-100 | the per-row steps compute `JobFor` |
| AlphaFoldPackager.CollectJobs | scripts/posible_alphafold_total.py:71-109 | the loop collects exactly the rows that yield a job, in order, with their jobs and FASTA files |
| AlphaFoldPackager.RunPipeline | scripts/posible_alphafold_total.py:39-129 | with no file nothing happens; otherwise the file is first rewritten with the rendered repair exactly when pandas fails on it; a ledger without a `sequence` column raises `KeyError` before any file is written; otherwise the upload file and the ledger rewrite happen exactly when a job was built, and the ledger written moves exactly the packaged rows to `ready_for_google` |
| AlphaFoldPackager.PackagedExactly | scripts/posible_alphafold_total.py:109 | a row is in `processed_indices` exactly when it yields a job |
| AlphaFoldPackager.OnlyPackagedRowsMove | scripts/posible_alphafold_total.py:112-121 | packaged rows become `ready_for_google`; skipped and non-pending rows are unchanged |
| AlphaFoldPackager.SecondRunBuildsNothing | scripts/posible_alphafold_total.py:56-120 | running the packager on the ledger it wrote builds no job |
| AlphaFoldPackager.JobNamesDistinct | scripts/posible_alphafold_total.py:76-106 | the jobs of one run have distinct names, so no FASTA file overwrites another |
| AlphaFoldPackager.FastaRecordSplitsBack | scripts/posible_alphafold_total.py:107 | the `binder/target` text of a FASTA record splits back into the job's chains |
| AlphaFoldPackager.PendingRowPackaged | scripts/posible_alphafold_total.py:56-101 | a waiting or status-less row whose sequence is `binder/target`, with clean chains of five or more residues, yields exactly that job |
| AlphaFoldPackager.PairTextStrips | scripts/posible_alphafold_total.py:75 | `binder/target` with non-empty stripped chains is already stripped |
| FastaExport.FileName | scripts/run_03_alphafold_pipeline.py:51 | the remote variant names files `design_...`, the local one `target_...` (scripts/run_03_alphafold_pipeline_local.py:53) |
| FastaExport.Record | scripts/run_03_alphafold_pipeline.py:55 | every record header starts with `>design_{idx}` (the local header, scripts/run_03_alphafold_pipeline_local.py:58, adds `_batch_{batch}`) |
| FastaExport.PendingFlags | scripts/run_03_alphafold_pipeline.py:38 | a row is pending exactly when its status is `waiting_validation` |
| FastaExport.Pending | scripts/run_03_alphafold_pipeline_local.py:40 | `to_process` holds exactly the waiting rows, in order; a missing status is not pending |
| FastaExport.ExportFiles | scripts/run_03_alphafold_pipeline.py:46-55 | one file per pending row, in order |
| FastaExport.Prepare | scripts/run_03_alphafold_pipeline.py:20-61 | no file means no effect; a file `read_csv` fails on raises before any effect; no pending row means no file and no rewrite; a table without a `sequence` column, or else without a `batch` column, raises `KeyError` before writing; otherwise one file per pending row and the ledger saved with those rows `fasta_ready` |
| FastaExport.ExportPending | scripts/run_03_alphafold_pipeline_local.py:48-61 | the loop writes exactly the files of `ExportFiles` and sets the pending rows to `fasta_ready` in place |
| FastaExport.ExportMovesOnlyWaiting | scripts/run_03_alphafold_pipeline.py:38-58 | every waiting row becomes `fasta_ready`; every other row is unchanged |
| FastaExport.SecondExportIdle | scripts/run_03_alphafold_pipeline.py:38-42 | a second run on the saved ledger finds nothing pending |
| FastaExport.NoStatusColumnAllPending | scripts/run_03_alphafold_pipeline_local.py:36-40 | without a status column every row is pending |
| FastaExport.FileNamesDistinct | scripts/run_03_alphafold_pipeline.py:51 | the file names of one run are pairwise different, whatever the batch labels |
| FastaExport.MissingStatusDiffers | scripts/run_03_alphafold_pipeline.py:38 | a status-less row with a valid pair is skipped by the exporters but packaged by the packager (scripts/posible_alphafold_total.py:56) |
| MpnnHistory.SeenSet | scripts/run_02_mpnn_local_v2.py:51-59 | the history is exactly the first field of every non-empty record after the header |
| MpnnHistory.LoadHistory | scripts/run_02_mpnn_local_v2.py:51-59 | an absent file gives the empty set; otherwise the loop computes `SeenSet` |
| MpnnHistory.OddLines | scripts/run_02_mpnn_local_v2.py:104-105 | the candidates are the stripped lines at positions 1, 3, 5, ... |
| MpnnHistory.Unseen | scripts/run_02_mpnn_local_v2.py:106 | the kept candidates are not in the history and are candidates, and every candidate outside the history is kept |
| MpnnHistory.Entries | scripts/run_02_mpnn_local_v2.py:107 | one three-field record `[seq, date, batch]` per unseen candidate, in order |
| MpnnHistory.CollectNew | scripts/run_02_mpnn_local_v2.py:99-107 | the step-by-two loop computes `Entries` of the odd lines |
| MpnnHistory.EntriesStep | scripts/run_02_mpnn_local_v2.py:104-107 | one more candidate appends its record exactly when it is unseen |
| MpnnHistory.ProcessResults | scripts/run_02_mpnn_local_v2.py:90-118 | no `.fa` file or no new entry leaves the ledger untouched; otherwise the entries are appended, after the header only for a new file |
| MpnnHistory.AppendKeepsExisting | scripts/run_02_mpnn_local_v2.py:110-115 | appending keeps the existing records in front, writes the header only for a new file, and ends with the new entries |
| MpnnHistory.EntriesAreUnseen | scripts/run_02_mpnn_local_v2.py:106-107 | every appended record has three fields, a sequence not in the history, and the batch id |
| MpnnHistory.SeenAfterAppend | scripts/run_02_mpnn_local_v2.py:110-115 | after appending, the history that `load_history` (lines 51-59) reads holds the old history and every appended sequence |
| MpnnHistory.DedupAcrossRuns | scripts/run_02_mpnn_local_v2.py:106-115 | a second run on the same output appends nothing, when the ledger was absent or had a first record |
| MpnnHistory.EmptyLedgerForgetsFirstRecord | scripts/run_02_mpnn_local_v2.py:56-115 | when the ledger exists but is empty, the first appended record is read as the header, so the next run appends the same sequence again |
| MpnnHistory.SeenSetOfOne | scripts/run_02_mpnn_local_v2.py:56-58 | a ledger holding a single record has an empty history, that record being taken for the header |
| MpnnHistory.DuplicatesWithinRunKept | scripts/run_02_mpnn_local_v2.py:104-107 | a sequence repeated within one output file is appended twice |
| MpnnHistory.UnseenTwice | scripts/run_02_mpnn_local_v2.py:106 | an unseen candidate given twice is kept twice, since the history is not updated inside the loop |
| MpnnGenerator.NewGenerator | src/protein_mpnn_generator.py:18-46 | in command-line mode construction fails with `ValueError` exactly when no path is given or found on the PATH; a given path wins; API mode never fails |
| MpnnGenerator.CommandLayout | src/protein_mpnn_generator.py:114-124 | eleven leading arguments in a fixed order; `--fixed_positions` adds two more exactly when the list is non-empty; the design count reads back |
| MpnnGenerator.PositionsRoundTrip | src/protein_mpnn_generator.py:124 | the comma-joined positions split back into the positions |
| MpnnGenerator.Scan | src/protein_mpnn_generator.py:143-149 | no closed record is empty |
| MpnnGenerator.ParseFasta | src/protein_mpnn_generator.py:140-151 | no parsed sequence is empty |
| MpnnGenerator.ParseLines | src/protein_mpnn_generator.py:140-151 | the accumulator loop computes `ParseFasta` |
| MpnnGenerator.ScanKeepsText | src/protein_mpnn_generator.py:143-149 | the closed records followed by the open one are the stripped non-header lines |
| MpnnGenerator.ParseKeepsText | src/protein_mpnn_generator.py:143-151 | the parsed sequences, concatenated, are exactly the stripped non-header lines |
| MpnnGenerator.HeaderlessText | src/protein_mpnn_generator.py:142-151 | text before any header still forms a record, when it is not blank |
| MpnnGenerator.ScanRendered | src/protein_mpnn_generator.py:143-149 | scanning a rendered FASTA text closes all records but the last, which stays open |
| MpnnGenerator.ParseRendered | src/protein_mpnn_generator.py:140-151 | parsing the FASTA text of some sequences gives them back |
| MpnnGenerator.ParseClosesLast | src/protein_mpnn_generator.py:150-151 | the record open at the end of the file is the last sequence |
| MpnnGenerator.Designs | src/protein_mpnn_generator.py:153-159 | row `i` pairs the `i`-th sequence with the id `mpnn_{i+1}` and the run's parameters |
| MpnnGenerator.GenerateViaCli | src/protein_mpnn_generator.py:84-168 | the result is `CliResult` of the exit of the built command and of the FASTA file found |
| MpnnGenerator.CliResult | src/protein_mpnn_generator.py:126-168 | a non-zero exit re-raises with its stderr; an exit 0 without the FASTA file raises `FileNotFoundError` on its path; the run succeeds exactly otherwise, with one row per parsed sequence |
| MpnnGenerator.PayloadFields | src/protein_mpnn_generator.py:194-202 | the four fields are always sent; `fixed_positions` is sent exactly when the list is non-empty, with the positions in order |
| MpnnGenerator.CollectDesigns | src/protein_mpnn_generator.py:210-218 | the loop computes `Designs` |
| MpnnGenerator.GenerateViaApi | src/protein_mpnn_generator.py:170-228 | a missing key raises `ValueError` before any request; otherwise the result is `ApiResult` of the reply to the built payload |
| MpnnGenerator.ApiResult | src/protein_mpnn_generator.py:203-228 | a request exception or an error status raises; a reply that cannot be walked is malformed; the call succeeds exactly otherwise, with one row per returned sequence |
| MpnnGenerator.NoSequencesNoRows | src/protein_mpnn_generator.py:211 | a reply without `sequences` gives zero rows |
| MpnnGenerator.Successes | src/protein_mpnn_generator.py:242-253 | the results of the structures that succeeded, at most one per structure |
| MpnnGenerator.GenerateForStructures | src/protein_mpnn_generator.py:240-261 | the result is the concatenation, in input order, of the results of the structures that succeeded |
| MpnnGenerator.AllFailedEmpty | src/protein_mpnn_generator.py:255-261 | when every structure fails the result is empty |
| MpnnGenerator.AllSucceededInOrder | src/protein_mpnn_generator.py:242-250 | when every structure succeeds, their results follow in input order |
| MpnnGenerator.FailureSkipped | src/protein_mpnn_generator.py:251-253 | a failing structure contributes nothing and does not stop the others |
| MpnnGenerator.GenerateSequences | src/protein_mpnn_generator.py:73-82 | API mode without a key raises `ValueError`; API mode with a key gives `ApiResult` of the reply; command-line mode gives `CliResult` of the run, the missing-FASTA case included |
| Af3Json.ReadBinder | scripts/prepare_af3_json.py:38-78 | an unreadable or empty file raises (skipped); a last line without `/` is skipped; otherwise the binder, which holds no `/` |
| Af3Json.BinderIsSecondSegment | scripts/prepare_af3_json.py:44-49 | the binder is segment 1 of the stripped last line, whatever the earlier lines and however many segments follow |
| Af3Json.JobNameOfStem | scripts/prepare_af3_json.py:55 | `stem.fa` is named `stem`, and `stem.fa.fa` too, since every `.fa` is removed |
| Af3Json.JobDeterminesInputs | scripts/prepare_af3_json.py:57-74 | two jobs are equal exactly when name and binder agree; the first chain is always the PD-1 target and the second the binder |
| Af3Json.Jobs | scripts/prepare_af3_json.py:38-78 | at most one job per file |
| Af3Json.PrepareJobs | scripts/prepare_af3_json.py:32-83 | the loop writes the job list of `Jobs`, even when it is empty |
| Af3Json.JobsFromFiles | scripts/prepare_af3_json.py:38-75 | every job is the job of one of the files |
| Af3Json.SkippedFileIgnored | scripts/prepare_af3_json.py:50-78 | a file that gives no job does not stop the files after it |
| Af3Json.OneJobPerFile | scripts/prepare_af3_json.py:75 | files that each give a job give one job each, in order |
| Af3Json.JobsArePresentOptions | scripts/prepare_af3_json.py:38-78 | the job list is the per-file outcomes with the skipped files dropped, in file order |
| Pdb.AtomLines | scripts/run_01_nvidia_api.py:64 | the ATOM filter keeps at most the input lines |
| Pdb.AtomLinesMembers | scripts/run_01_nvidia_api.py:64 | every kept line is an ATOM line of the input, and every ATOM line of the input is kept |
| Pdb.AtomLinesOfAtoms | scripts/esqueletos/run_nvidia_api_skeleton.py:40 | lines that are all ATOM lines pass unchanged |
| Pdb.AtomOnlyLines | scripts/run_01_nvidia_api.py:63-65 | the cleaned text splits back into exactly the ATOM lines and has no trailing newline |
| Pdb.AtomOnlyIdempotent | scripts/esqueletos/run_nvidia_api_skeleton.py:39-41 | cleaning cleaned text changes nothing |
| CleanPdb.CleanLines | clean_pdb.py:10-20 | the streaming loop writes exactly the kept lines, in input order |
| CleanPdb.PickStep | clean_pdb.py:11-20 | one more line is appended exactly when it is kept |
| CleanPdb.CleanedInOrder | clean_pdb.py:11-20 | every output line is a kept input line, unchanged, in input order, and no kept line is missed |
| CleanPdb.CleanIdempotent | clean_pdb.py:13-20 | cleaning a cleaned file changes nothing |
| CleanPdb.RecordsKeptAndDropped | clean_pdb.py:13-20 | HETATM, HEADER and water ATOM lines are dropped; `ENDMDL` is kept, the `END` test being a prefix test |
| CleanPdb.FirstLetterDropped | clean_pdb.py:13-20 | a line starting with neither `A` nor `E` is dropped |
| CleanPdb.Run | clean_pdb.py:10-27 | fewer than two arguments write nothing; otherwise the output path gets the cleaned input, except that the same path for input and output leaves the file empty, since opening it for writing truncates it before it is read |
| RfdiffusionPure.PaddedNumberReadBack | scripts/run_01_rfdiffusion_pure.py:58 | `{n:4d}` is four wide for `n` below 10000 and reads back as `n` |
| RfdiffusionPure.RelabelColumns | scripts/run_01_rfdiffusion_pure.py:58 | a rewritten line keeps its length and columns 1-21 and 27 onwards (iCode included); column 22 is `A`; columns 23-26 read back as the counter |
| RfdiffusionPure.RelabelKeepsRecord | scripts/run_01_rfdiffusion_pure.py:52-58 | a rewritten ATOM line is still an ATOM line |
| RfdiffusionPure.StoppedStays | scripts/run_01_rfdiffusion_pure.py:57 | after the `break` no further line changes the output |
| RfdiffusionPure.RenumberLine | scripts/run_01_rfdiffusion_pure.py:52-57 | one line of the loop is one `Step` of the scan: the counter moves on a new residue number, and the line is written unless the counter passes 120 |
| RfdiffusionPure.RenumberLines | scripts/run_01_rfdiffusion_pure.py:48-58 | the counter loop with its early break computes `Renumbered` |
| RfdiffusionPure.StepWellNumbered | scripts/run_01_rfdiffusion_pure.py:51-58 | one more line keeps the numbering invariant |
| RfdiffusionPure.ScanWellNumbered | scripts/run_01_rfdiffusion_pure.py:48-58 | the numbering invariant holds after every prefix |
| RfdiffusionPure.RenumberedWell | scripts/run_01_rfdiffusion_pure.py:48-58 | every written line is the relabelled input ATOM line, in order; the numbers start at 1, go up by one exactly when columns 23-26 change, and stay at most 120; every ATOM line before the cut is written, and the cut comes only after residue 120 |
| RfdiffusionPure.CutAt121 | scripts/run_01_rfdiffusion_pure.py:52-57 | over the whole file, the `break` is taken only once residue 120 has been written, and every ATOM line left unwritten comes after all written lines |
| RfdiffusionPure.CutOnNewResidue | scripts/run_01_rfdiffusion_pure.py:52-57 | when the loop breaks, it breaks on an ATOM line whose residue number as written differs from that of the last line written, with every earlier ATOM line written and no later one |
| RfdiffusionPure.OnlyAtomsWritten | scripts/run_01_rfdiffusion_pure.py:51-52 | only ATOM lines are written, at most one per input line |
| RfdiffusionPure.HotspotArgCompact | scripts/run_01_rfdiffusion_pure.py:69 | for items without blanks or double quotes the argument is the list written with commas only |
| RfdiffusionPure.HotspotArgValue | scripts/run_01_rfdiffusion_pure.py:68-69 | the hotspot argument is `['A35','A90']` |
| RfdiffusionPure.CommandArguments | scripts/run_01_rfdiffusion_pure.py:76-90 | ten arguments: five designs, 50 steps, the fixed target, the split contig list, the hotspots last |
| RfdiffusionPure.Run | scripts/run_01_rfdiffusion_pure.py:36-61 | an existing fixed file is reused with no download; a failed download exits; otherwise the file is the renumbered download; the command is built exactly when the target is ready |
| NvidiaBatch.Payload | scripts/run_01_nvidia_api.py:113-116 | the payload has exactly `input_pdb` (the target) and `contigs` (`A1-120 0 70-70`) |
| NvidiaBatch.DesignIdsDiffer | scripts/run_01_nvidia_api.py:106 | `design_{TIMESTAMP}_{i:02d}` differs for different `i` |
| NvidiaBatch.EnsureTarget | scripts/run_01_nvidia_api.py:45-74 | an existing target is reused without download; otherwise success exactly when the download succeeds, writing only its ATOM lines |
| NvidiaBatch.CleanTargetLines | scripts/run_01_nvidia_api.py:63-68 | a non-empty cleaned target consists of ATOM lines only |
| NvidiaBatch.Classify | scripts/run_01_nvidia_api.py:120-146 | a saved structure is never empty |
| NvidiaBatch.SavedExactly | scripts/run_01_nvidia_api.py:122-132 | a structure is saved exactly on status 200 when the first truthy field is a string, and that string is saved |
| NvidiaBatch.StructureFieldOrder | scripts/run_01_nvidia_api.py:125 | `pdb` wins over `protein`, which wins over `output_pdb`; none found exactly when no field is truthy |
| NvidiaBatch.Attempts | scripts/run_01_nvidia_api.py:104 | exactly forty attempts |
| NvidiaBatch.FilesStep | scripts/run_01_nvidia_api.py:104-146 | one more design records its own outcome and counts one more success exactly when saved |
| NvidiaBatch.Successes | scripts/run_01_nvidia_api.py:132 | the count never exceeds the attempts |
| NvidiaBatch.FilesOfDesigns | scripts/run_01_nvidia_api.py:128 | every output file belongs to a design of the run |
| NvidiaBatch.FileOfDesign | scripts/run_01_nvidia_api.py:127-138 | design `i` has a file exactly when it was saved (or its write failed, leaving it empty), holding the saved structure; a rate-limited design gets none and is not retried |
| NvidiaBatch.FilesKeepOthers | scripts/run_01_nvidia_api.py:128-130 | an attempt touches no file but its own |
| NvidiaBatch.RecordKeepsOthers | scripts/run_01_nvidia_api.py:127-130 | recording one attempt neither adds, removes nor changes any other design's file |
| NvidiaBatch.SuccessesCounted | scripts/run_01_nvidia_api.py:132-149 | the success count is the number of saved designs |
| NvidiaBatch.RunBatch | scripts/run_01_nvidia_api.py:95-146 | the loop leaves the files of `Files` and the count `Successes`, at most forty |
| NvidiaBatch.HandleReply | scripts/run_01_nvidia_api.py:120-146 | one reply updates only its design's file, as `Record` says, and counts exactly when saved |
| NvidiaBatch.Run | scripts/run_01_nvidia_api.py:14-146 | a missing or empty key raises before anything else; a failed download stops before any request; otherwise the batch runs on the cleaned or existing target as read back in text mode, with `\r\n` and `\r` turned into `\n` |
| NvidiaSkeleton.EmptyKeyPasses | scripts/esqueletos/run_nvidia_api_skeleton.py:10-54 | the shipped empty key passes the placeholder guard |
| NvidiaSkeleton.Payload | scripts/esqueletos/run_nvidia_api_skeleton.py:64-67 | the payload has exactly `input_pdb` and `contigs` (`A1-120/0 70-70`) |
| NvidiaSkeleton.Written | scripts/esqueletos/run_nvidia_api_skeleton.py:89-95 | something is written only when one of the structure fields is truthy |
| NvidiaSkeleton.StructureFieldOrder | scripts/esqueletos/run_nvidia_api_skeleton.py:89-100 | `output_pdb` wins over `pdb`; nothing is written exactly when neither is truthy |
| NvidiaSkeleton.FallbackOrdersDiffer | scripts/esqueletos/run_nvidia_api_skeleton.py:89 | on a reply carrying both fields the batch script saves `pdb` (scripts/run_01_nvidia_api.py:125) and the draft `output_pdb` |
| NvidiaSkeleton.Fresh | scripts/esqueletos/run_nvidia_api_skeleton.py:24-47 | the target file exists afterwards exactly when the download succeeded |
| NvidiaSkeleton.ForceDownload | scripts/esqueletos/run_nvidia_api_skeleton.py:24-49 | the result is true exactly when the download succeeded, and the target file is then its ATOM lines; a failed download leaves no file |
| NvidiaSkeleton.DraftTarget | scripts/esqueletos/run_nvidia_api_skeleton.py:51-56 | a refused key is the only way the run ends `KeyRejected`, and it touches nothing; otherwise the target file is what the forced download left, and the run ends `DownloadFailed` exactly when that download failed |
| NvidiaSkeleton.DraftRequest | scripts/esqueletos/run_nvidia_api_skeleton.py:58-103 | a request is made exactly when the target as read back in text mode holds at least 100 characters, carrying that text; output is written only from a status-200 reply; the run ends `Saved` with the structure text when it is a string, and `WriteFailed` with an empty file otherwise |
| NvidiaSkeleton.RunBatch | scripts/esqueletos/run_nvidia_api_skeleton.py:51-103 | the chain of guards computes `Draft` on the freshly downloaded target, read back in text mode |
| RfDiffusion.PayloadKeys | src/rf_diffusion_generator.py:55-69 | `contigs` and `diffusion_steps` always; `input_pdb` exactly when a template path is given; `hotspot_res` exactly when the list is non-empty |
| RfDiffusion.OutcomeFields | src/rf_diffusion_generator.py:72-101 | the call raises exactly on a request exception, an error status, a null, boolean or number body (`in` at line 89), a list or string holding `"pdb"` (indexed at line 91), or a non-string `pdb`; otherwise the reply body, with `pdb_file` added exactly when it is an object with `pdb` |
| RfDiffusion.GenerateStructure | src/rf_diffusion_generator.py:32-101 | an unreadable template raises before any request and writes nothing; otherwise the result is `Outcome` of the reply to the built payload, and the files written are `Dump` and `Save` of that reply |
| RfDiffusion.Dump | src/rf_diffusion_generator.py:84-86 | the reply body is dumped to `rfdiffusion_{t}.json` exactly when the request returned and passed the status check, even when the call raises afterwards |
| RfDiffusion.Save | src/rf_diffusion_generator.py:89-92 | `rfdiffusion_{t}.pdb` is written exactly when the dumped body answers `"pdb" in result` with true; it holds the `pdb` string, or nothing when that value cannot be read or written |
| RfDiffusion.SavedTextMeansSuccess | src/rf_diffusion_generator.py:89-95 | a structure file left by a call that raises is empty; after a successful call it holds the `pdb` string and its path is the returned `pdb_file` |
| RfDiffusion.BinderContigReadBack | src/rf_diffusion_generator.py:126 | the contig is `A1-117/` followed by the binder length, which reads back |
| RfDiffusion.GeneratePdl1Binder | src/rf_diffusion_generator.py:103-133 | an unreadable PD-L1 file raises and writes nothing; otherwise the request uses the binder contig, the PD-L1 template and the default 50 steps, and the result and files written follow from its reply |
| RfDiffusion.GenerateOne | src/rf_diffusion_generator.py:159-162 | one batch call gives `BatchOutcome` of its contig and writes `Dump` and `Save` of its reply |
| RfDiffusion.GenerateMultiple | src/rf_diffusion_generator.py:136-172 | one entry per contig, in order, `{"error": ...}` for failures; a pause only after a success that is not the last; for each contig, the reply dumped and the structure file written by its call |
| Af3Predictor.NewPredictor | src/alphafold3_predictor.py:17-43 | a given path wins, else the one on the PATH; only a warning when neither exists |
| Af3Predictor.OneMolecule | src/alphafold3_predictor.py:82-90 | the input holds exactly one protein molecule named by the id with the sequence |
| Af3Predictor.CommandArguments | src/alphafold3_predictor.py:115-120 | the command always passes `--model_params_dir`, with `""` when unset, and the input file |
| Af3Predictor.PredictionRecord | src/alphafold3_predictor.py:98-150 | without a tool path it raises; a failed run gives a status `error` record with the same id and its stderr; on success `pdb_file` is the first match, else `predicted_{id}.pdb` |
| Af3Predictor.PredictStructure | src/alphafold3_predictor.py:45-96 | a truthy custom input is used as given, otherwise the one-molecule input; nothing is written when the tool is missing |
| Af3Predictor.BatchIds | src/alphafold3_predictor.py:169-170 | the given ids are used as given; without them, one default id per sequence |
| Af3Predictor.PredictMultiple | src/alphafold3_predictor.py:152-181 | one result per (sequence, id) pair, in order, so as many as the shorter list; prediction `i` writes the one-molecule input of `sequences[i]` under `ids[i]` and runs on it; a missing tool raises on the first pair and writes nothing |
| Af3Predictor.PredictPair | src/alphafold3_predictor.py:176-180 | one pair runs `PredictFromJson` on its id and, exactly when the tool path is set, writes the one-molecule input of its sequence |
| Json.FirstTruthy | scripts/run_01_nvidia_api.py:125 | `get(k0) or get(k1) or ...`: the value of the first key whose value is truthy, and nothing exactly when no key has a truthy value |
| Text.SplitPieces | scripts/posible_alphafold_total.py:31 | `str.split` gives pieces without the separator that join back to the text, and one piece exactly when the separator is absent |
| Text.SplitJoin | scripts/prepare_af3_json.py:47 | joining pieces without the separator and splitting gives the pieces back |
| Text.ReadBack | scripts/run_01_nvidia_api.py:82-83 | text read back in `"r"` mode holds no carriage return and is no longer than the text written |
| Text.ReadBackPlain | scripts/run_01_nvidia_api.py:82-83 | text without a carriage return reads back exactly as written |
| Text.ReadBackIdempotent | scripts/run_01_nvidia_api.py:82-83 | reading back text already read back changes nothing |
| Text.StripStripped | scripts/posible_alphafold_total.py:35 | `strip` leaves stripped text unchanged |
| Text.NatToStringInjective | scripts/run_03_alphafold_pipeline.py:51 | different indices print differently |
| Text.ZeroPadReadBack | scripts/run_01_nvidia_api.py:106 | `{i:02d}` is all digits and reads back as `i` |
| Text.IntToStringRoundTrip | src/rf_diffusion_generator.py:126 | `str` of an integer reads back as the integer and holds no comma |
| Text.NumberedIds | src/alphafold3_predictor.py:170 | `n` numbered ids for `n` items (`seq_{i+1}` here, `mpnn_{i+1}` at src/protein_mpnn_generator.py:154) |
| Text.NumberedIdsDistinct | src/protein_mpnn_generator.py:154 | id `i` is the prefix followed by `i + 1`, and the ids are pairwise distinct |

## Left out

- Input and output:
  - File reads are inputs and writes are outputs. Directory creation,
    `shutil.copy`, path joins (modelled as `/` concatenation) and the
    working-directory changes of the ProteinMPNN and AlphaFold 3 runs
    are not modelled.
  - The JSON files the adapters dump (`json.dump` of replies, inputs
    and job lists) are values, not text.
  - The CSV files the adapters write (`mpnn_sequences_*.csv`,
    `all_mpnn_sequences.csv`, `alphafold3_predictions.csv`) are not
    modelled.
  - Printed messages are not modelled.
- External calls:
  - HTTP requests, `urllib` downloads, subprocess runs, `glob`,
    `shutil.which`, `time.sleep`, `time.time()` and `datetime.now()`
    are function parameters or inputs.
  - An oracle gives the same reply to the same arguments. The model
    therefore tells repeated calls apart by an index (the design number
    of the NVIDIA batch) or a clock parameter.
  - A pause is reported as an index, not a delay.
- pandas:
  - `read_csv` is abstracted. Whether it fails is a boolean input, and
    what it reads is a `Table` input.
  - After the repair, an empty field reads as missing. Other NA
    spellings (`NA`, `null`, ...) and dtype inference are not modelled.
    `str()` of a non-string cell is not modelled either; a numeric batch
    label is assumed to print as written.
  - `to_csv` quoting (section 2 of RFC 4180) is not modelled. The
    repaired rows hold no comma or quote, so none is needed.
  - DataFrame `merge` in `validate_mpnn_sequences_with_alphafold3` is
    not modelled.
- `FORCE_PROCESS_ALL` in the packager is the constant `False`, and only
  the pending-filter branch is modelled.
- Python `str.strip()` removes Unicode whitespace. The model strips the
  ASCII whitespace characters that `str.isspace` accepts (space, tab,
  line feed, vertical tab, form feed, carriage return, and `\x1c`-`\x1f`).
- `str(sampling_temp)` and other float renderings are a text parameter
  (`tempText`). Real-valued fields are `real`.
- MpnnHistory: CSV records are lists of fields; how `csv.reader` and
  `csv.writer` encode them is not modelled. `os.listdir` order is the
  order of the input (the first `.fa` file is the one given).
- MpnnGenerator.GenerateViaApi: a 200 reply whose body is not an object,
  or whose `sequences` is not a list, is reported as `MalformedReply`. A
  body that is not JSON is a `Raised` reply. The `str()` of exceptions is
  not modelled.
- CleanPdb.Run: paths are compared as text, so two spellings of one file
  (`a.pdb`, `./a.pdb`) or a link are treated as different files. An input
  that cannot be opened raises in the source; here `read` always gives
  the file's lines.
- RfDiffusion.GenerateStructure: the JSON and PDB file names are assumed
  to use one clock reading (`int(time.time())` is called twice).
- NvidiaBatch.Classify and NvidiaSkeleton.RunBatch: a 200 body that is
  not an object raises in `data.get`. The batch script counts this as a
  script error; the draft as a failed request.
- RfdiffusionPure.RelabelColumns: stated for lines of at least 26
  characters (every ATOM record). Shorter ATOM lines are rewritten by
  the same function, but their column layout is not proved.
- ProteinMPNN is run by a wrapper in scripts/run_02_mpnn_local_v2.py
  (`run_mpnn`, `setup_environment`). The model takes its output file as
  input and leaves the wrapper out.
- scripts/run_00_setup_env.py and scripts/update_database.py are not part
  of this model. They are environment setup and a directory scan.
- Python's `repr` switches to double quotes for strings that contain a
  single quote. `RfdiffusionPure.ListRepr` always uses single quotes,
  which is what the constant hotspot list prints as.
- No model of concurrent stages writing the ledger: the scripts have no
  locking and run one at a time.
