# Top-tagging dataset conversion, modelled in Dafny

This project models the event-conversion pass `main()` of
`utils/convert_top_datasets.py`. The pass reads the top-tagging benchmark
table, one row per jet event with 200 particle slots (`E_i`, `PX_i`, `PY_i`,
`PZ_i`) and six truth/label columns. It turns each row into a per-event
record and writes the records in batches of `max_event_size` to files
`{outputfile}_{ifile}.awkd`.

The model follows the program's three stages.

- **Slot scan** (`Events.ScanSlots`). It walks the slots in order and stops at
  the first slot whose energy is exactly zero. For every slot before it, it
  appends `E`, `PX`, `PY`, `PZ`, `log E`, the momentum `P` and `log P`, and counts
  `nPart`.
- **Record assembly** (`Events.AssembleRecord`, `Events.ConvertRow`). It copies
  the six scalars and takes the component totals as list sums. It derives
  `P_tot`, `Eta_tot` and `Phi_tot`, records `nPart`, the row's index label
  `origIdx` and the in-batch counter `idx`, and fills `Etarel` and `Phirel`.
  `Phirel` uses the wrap `d - 2π·floor(d/(2π) + 1/2)`.
- **Batching** (`Conversion.Converter`, `Conversion.ConvertDataset`). The class
  holds the batch `res_array` and the counters `idx` and `ifile`. These live
  across all input files. Each appended record increments `idx`. When `idx`
  reaches `max_event_size`, the batch is stored under number `ifile`, then
  cleared, and the counters move on. After the last row the remaining batch
  is stored unconditionally, even when it is empty.

Each method is proved against a specification function: `ScanSpec`,
`AssembleSpec`, `ConvertSpec` for one row, and `ConvertAll` for the whole
event stream. The lemmas state the program's properties about those
functions.

Modelling choices:

- **Maths functions.** `log`, `sqrt`, `atanh`, `atan` and the constant 2π are
  the fields of a `MathLib` value passed to every operation. Their values are
  left uninterpreted. The constant 2π has a positive type
  (`Kinematics.Positive`). The only lemma that assumes anything of the
  library is `Events.AxisAlongBeamAborts`, which requires
  `sqrt(pz * pz) == |pz|`.
- **Rows.** A row holds its index label, four columns of exactly 200 slot
  values (`E`, `PX`, `PY`, `PZ`) and the six scalars.
- **Run-level functions.** `ConvertAll` and its lemmas take the per-row
  conversion as a parameter (`Conversion.RowConversion`). The conversion
  `main()` applies is `Conversion.RowConverter(m)`, which is
  `Events.ConvertSpec` with library `m`.
- **Exceptions.** The program has no guards, so every math-domain error
  raises and ends the run; the model also treats every zero divisor as fatal
  (see "Left out"). The model makes this an error
  path: a `Result` whose `Failure` is `LogOfNonPositive`, `AtanhOutOfDomain`
  or `DivisionByZero`. Checks happen in the program's order. When a row
  fails, the files already stored stay stored, and nothing after that row
  is converted.
- **Output sink.** `store_file` is an append to the log `saved` of
  `(name, events)` pairs.
- **File names.** `{prefix}_{n}.awkd`, with `n` written in decimal.

Where the code and a plain reading of its intent differ, the model follows
the code:

- **Range of `Phirel`.** The wrap puts `Phirel` in the half-open range
  [-π, π), not (-π, π]. An angle difference of exactly π maps to -π.
- **Number of files.** `N` events in batches of `M` produce `floor(N/M) + 1`
  files, not `ceil(N/M)`. When `M` divides `N`, the last file is empty.
- **`origIdx`.** It is the DataFrame's index label of the row, carried
  unchanged, not a counter. Only `idx`, the position within the batch, is
  counted, and it is not reset between input files.

## Model

| member | source | states |
|---|---|---|
| `Events.Momentum` | utils/convert_top_datasets.py:49 | the momentum of a slot: the library's square root of the sum of the squared components |
| `Events.ScanLists` | utils/convert_top_datasets.py:42-51 | the lists of the slot scan: the raw values of the slots before the sentinel in slot order, with `log E`, `P` and `log P` beside them, and their count `nPart` |
| `Events.ScanSpec` | utils/convert_top_datasets.py:42-51 | the slot scan's outcome: its lists, or the logarithm's error when some slot before the sentinel has non-positive energy or momentum |
| `Events.ParticleCount` | utils/convert_top_datasets.py:42-45 | `nPart` is at most the number of slots, no slot before it has zero energy, and the slot at it (if any) has zero energy |
| `Events.ParticleCountIsFirstZero` | utils/convert_top_datasets.py:42-51 | any count with no zero energy before it and a zero energy at it (or the end of the row) is `nPart`: `nPart` is exactly the first-sentinel index, or 200 |
| `Events.ScanSlots` | utils/convert_top_datasets.py:42-51 | the slot loop with its early `break` produces the scan specification: the raw values of slots `0..nPart-1` in order with their `log E`, momentum `P` and `log P`, or the logarithm's error when a real particle has `E <= 0` or zero momentum |
| `Events.PaddingIgnored` | utils/convert_top_datasets.py:43-45 | the slots after the sentinel, and every field of the sentinel except its zero energy, are never read: changing them leaves the conversion unchanged |
| `Events.ScanFailsAt` | utils/convert_top_datasets.py:43-50 | a slot that no zero energy precedes, with non-positive energy or zero momentum, makes the scan fail |
| `Events.NonPositiveAborts` | utils/convert_top_datasets.py:48-50 | a real particle with non-positive energy or zero momentum makes the row's conversion fail with the logarithm's error |
| `Events.AxisSpec` | utils/convert_top_datasets.py:60-62 | the event axis from the component totals, or the first of its three exceptions in program order: `P_tot == 0`, `PZ_tot / P_tot` outside (-1, 1), `PX_tot == 0` |
| `Events.AngleFailure` | utils/convert_top_datasets.py:69-70 | a particle's angle exception: `pz / p` outside (-1, 1) first, then a zero `px` |
| `Events.Eta` | utils/convert_top_datasets.py:69 | a particle's pseudorapidity: the library's `atanh` of `pz / p` |
| `Events.Phi` | utils/convert_top_datasets.py:70 | a particle's azimuth: the library's `atan` of `py / px` |
| `Events.EtaRel` | utils/convert_top_datasets.py:69-71 | `Etarel`: per particle, `sign(Eta_tot)` times the particle's `Eta` minus `Eta_tot` |
| `Events.PhiRel` | utils/convert_top_datasets.py:70-72 | `Phirel`: per particle, the wrap of the particle's `Phi` minus `Phi_tot` with period 2π |
| `Events.AssembleSpec` | utils/convert_top_datasets.py:54-72 | the record assembly's outcome: copied scalars, list sums as totals, the event axis, `nPart`, the row label, `idx` and the two relative-angle lists; or the first exception on the way |
| `Events.ConvertSpec` | utils/convert_top_datasets.py:41-72 | the conversion of one row: the slot scan, then the record assembly, or the first exception |
| `Events.FirstAngleFailure` | utils/convert_top_datasets.py:68-70 | the second loop fails exactly when some particle's `pz / p` is outside (-1, 1) or its `px` is zero, and then with the failure of the first such particle |
| `Events.FirstAngleFailureAt` | utils/convert_top_datasets.py:68-70 | when particles `0..i-1` pass and particle `i` fails, the failure reported is particle `i`'s |
| `Events.AnglesDefinedWhenNoFailure` | utils/convert_top_datasets.py:68-70 | when no particle fails, every particle's `atanh` argument is in (-1, 1) and its `px` is non-zero |
| `Events.AssembleRecord` | utils/convert_top_datasets.py:54-72 | totals, event axis, bookkeeping fields and the second particle loop produce the assembly specification, including the first exception in program order (`P_tot == 0`, `atanh` domain, `PX_tot == 0`, then per particle) |
| `Events.ScanAligned` | utils/convert_top_datasets.py:46-51 | a successful scan's seven lists all have `nPart` entries and every momentum `P` is non-zero |
| `Events.ConvertRow` | utils/convert_top_datasets.py:41-72 | the per-row body up to the append: the scan, then the assembly, or the first exception |
| `Events.RecordShape` | utils/convert_top_datasets.py:41-65 | a converted record has `nPart` equal to the first-sentinel index (at most 200); nine lists of length `nPart`; raw lists equal to slots `0..nPart-1` in order, each with positive `E` and `P`; totals that are the lists' sums; the six scalars copied unchanged; `origIdx` equal to the row label and `idx` equal to the counter |
| `Events.EmptyEventAborts` | utils/convert_top_datasets.py:56-62 | an event whose first slot has zero energy has empty lists and zero totals, so its conversion fails with a division by zero whatever the library's `sqrt(0)`: `PZ_tot / P_tot` when `P_tot == 0`, otherwise `PY_tot / PX_tot` |
| `Events.AxisAlongBeamAborts` | utils/convert_top_datasets.py:60-62 | totals with `PX_tot == PY_tot == 0` and `PZ_tot != 0` fail with `AtanhOutOfDomain`, since `PZ_tot / P_tot` is ±1, before `PY_tot / PX_tot` is divided |
| `Events.PhiRelWrapped` | utils/convert_top_datasets.py:70-72 | every `Phirel` entry lies in [-T/2, T/2) and differs from `atan(py/px) - Phi_tot` by a whole number of periods `T` (2π) |
| `Events.PhiRelInRange` | utils/convert_top_datasets.py:70-72 | for any scan whose angles are defined, each `Phirel` entry lies in [-T/2, T/2) and is a whole number of periods away from `Phi - Phi_tot` |
| `Events.EtaRelOriented` | utils/convert_top_datasets.py:69-71 | `Etarel` is `Eta - Eta_tot` when `Eta_tot > 0`, `Eta_tot - Eta` when `Eta_tot < 0`, and 0 when `Eta_tot == 0` |
| `Kinematics.Sign` | utils/convert_top_datasets.py:71 | `np.sign`: 1 for positive, -1 for negative, 0 for zero |
| `Kinematics.Wrap` | utils/convert_top_datasets.py:72 | the wrap `d - T * floor(d / T + 1/2)` of an angle difference `d` with period `T` |
| `Kinematics.WrapInRange` | utils/convert_top_datasets.py:72 | the wrap of any difference lies in [-T/2, T/2) |
| `Kinematics.WrapIsShift` | utils/convert_top_datasets.py:72 | the wrap changes a difference by a whole number of periods |
| `Kinematics.WrapUnique` | utils/convert_top_datasets.py:72 | the wrap is the unique shift by whole periods that lands in [-T/2, T/2) |
| `Kinematics.WrapFixesRange` | utils/convert_top_datasets.py:72 | a difference already in [-T/2, T/2) is left unchanged |
| `Kinematics.WrapIdempotent` | utils/convert_top_datasets.py:72 | wrapping twice is wrapping once |
| `Kinematics.WrapPeriodic` | utils/convert_top_datasets.py:72 | adding whole periods to a difference does not change its wrap |
| `Conversion.Saved` | utils/convert_top_datasets.py:83-90 | the sink's contents for a sequence of batches: batch `j` under the name of file `j`, in order |
| `Conversion.ConvertAll` | utils/convert_top_datasets.py:32-76 | for any row conversion, the run's event stream has at most one record per row and is complete exactly when no row raised |
| `Conversion.ConvertAllMeaning` | utils/convert_top_datasets.py:39-76 | record `k` of the stream is row `k` converted with `idx = k mod M`, and a stopped run stopped at the first row that raised |
| `Conversion.ConvertAllStops` | utils/convert_top_datasets.py:39-76 | rows after the one that raised are never converted |
| `Conversion.ConvertAllSnoc` | utils/convert_top_datasets.py:39-76 | one more row either appends its record with the next `idx` or stops the run with its exception |
| `Conversion.Converter.constructor` | utils/convert_top_datasets.py:30-31 | `idx = ifile = 0`, empty batch, nothing stored |
| `Conversion.Converter.StoreFile` | utils/convert_top_datasets.py:21-23 | the sink receives one more `(name, batch)` pair, appended after the earlier ones |
| `Conversion.Converter.RecordsCount` | utils/convert_top_datasets.py:76-87 | the events appended so far number `ifile·M + idx`, so `idx` is their count mod `M` |
| `Conversion.Converter.ProcessRow` | utils/convert_top_datasets.py:39-87 | one row: on an exception nothing changes; otherwise the record (with `idx` its batch position) is appended, and when `idx` reaches `M` the full batch is stored as file `ifile`, the batch is cleared, `ifile` increments and `idx` returns to 0; every stored batch holds exactly `M` events |
| `Conversion.Converter.Append` | utils/convert_top_datasets.py:75-87 | appending a record whose `idx` is its batch position adds it to the events appended so far; the batch is stored as file `ifile` and restarted exactly when it reaches `M` events |
| `Conversion.Converter.Flush` | utils/convert_top_datasets.py:82-87 | a full batch is stored as file `ifile` with the next name, `ifile` increments, the batch and `idx` restart, and the events appended so far are unchanged |
| `Conversion.SavedSnoc` | utils/convert_top_datasets.py:83 | storing one more batch extends the sink by that batch under the next file number |
| `Conversion.Converter.ProcessTable` | utils/convert_top_datasets.py:38-87 | the row loop over one input table extends the run's event stream by that table's rows, or stops at the first row that raises |
| `Conversion.Converter.Finish` | utils/convert_top_datasets.py:89-90 | the final write stores the current batch, full or not and possibly empty, as file `ifile`, so the sink holds the stored batches followed by it |
| `Conversion.Converter.ProcessFiles` | utils/convert_top_datasets.py:32-87 | the loop over the input files converts their rows as one stream, with the batch and counters carried across files, and stops the whole run at the first row that raises |
| `Conversion.RecordIdx` | utils/convert_top_datasets.py:65 | a converted record carries the `idx` it was converted with |
| `Conversion.RecordLabel` | utils/convert_top_datasets.py:64 | a converted record carries its row's index label as `origIdx` |
| `Conversion.ConvertDataset` | utils/convert_top_datasets.py:30-90 | the files stored are the run's event stream cut into batches of `M`, numbered from 0, ending with the remaining (possibly empty) batch; after an exception, only the full batches before the failing row are stored, and the exception is reported |
| `Conversion.StoppedRun` | utils/convert_top_datasets.py:32-39 | an exception inside one input file ends the whole run: later files are not read |
| `Conversion.SavedChunks` | utils/convert_top_datasets.py:82-90 | `N` events give `N/M + 1` files numbered `0..N/M`, all holding `M` events except the last, which holds `N mod M` |
| `Conversion.CompletedRunFiles` | utils/convert_top_datasets.py:82-90 | a run that converts all `N` rows writes `floor(N/M) + 1` files numbered `0..floor(N/M)`, all full but the last, which holds `N mod M` events and is empty when `M` divides `N` |
| `Conversion.StoppedRunFiles` | utils/convert_top_datasets.py:82-87 | a stopped run has written `floor(K/M)` full files for its `K` converted events; the files followed by the unwritten rest give back those events in order |
| `Conversion.BatchedRecord` | utils/convert_top_datasets.py:65-87 | event `p` of batch `j` is row `j·M + p` converted with `idx == p` and carrying that row's label: order is kept, and `idx` is the position within the batch |
| `Conversion.RecordAt` | utils/convert_top_datasets.py:65-76 | record `k` of the stream comes from row `k` with `idx = k mod M` |
| `Conversion.SavedNamesDistinct` | utils/convert_top_datasets.py:83-90 | the files of one run have pairwise distinct names |
| `Chunking.Chunks` | utils/convert_top_datasets.py:82-90 | batching by flush at `M` and a final write always yields at least one batch |
| `Chunking.ChunksCount` | utils/convert_top_datasets.py:82-90 | there are `floor(N/M) + 1` batches |
| `Chunking.ChunkSizes` | utils/convert_top_datasets.py:82-90 | all batches but the last hold `M` events; the last holds `N mod M` |
| `Chunking.ChunksFlatten` | utils/convert_top_datasets.py:75-90 | concatenating the batches in order gives back the events: none dropped, duplicated or moved |
| `Chunking.ChunksOfBatches` | utils/convert_top_datasets.py:82-90 | full batches followed by a short remainder are exactly the batches of their concatenation |
| `Chunking.ChunkElement` | utils/convert_top_datasets.py:75-87 | element `p` of batch `j` is event `j·M + p`, with `p < M` |
| `Chunking.ChunksExamples` | utils/convert_top_datasets.py:82-90 | three events in batches of two give `[[1,2],[3]]`; four give `[[1,2],[3,4],[]]`, including the extra empty file |
| `Chunking.DecimalString` | utils/convert_top_datasets.py:83 | the file number is written as a non-empty string of decimal digits, with no leading zero |
| `Chunking.FileName` | utils/convert_top_datasets.py:83-90 | the name of file `n`: the output prefix, an underscore, `n` in decimal and `.awkd` |
| `Chunking.ParseDecimalString` | utils/convert_top_datasets.py:83 | reading the digits back gives the file number |
| `Chunking.FileNameInjective` | utils/convert_top_datasets.py:83-90 | different file numbers give different file names |
| `Sequences.Sum` | utils/convert_top_datasets.py:56-59 | Python's `sum` of a list of reals, from 0 |
| `Sequences.FlattenSnoc` | utils/convert_top_datasets.py:75 | appending a batch appends its events to the concatenation |
| `Sequences.FlattenLength` | utils/convert_top_datasets.py:82-87 | `k` batches of `M` events hold `k·M` events |

## Left out

- Command-line parsing and the choice of input and output names
  (utils/convert_top_datasets.py:7-19) are configuration. The model takes
  the input tables, the output prefix and `M > 0` as parameters.
  `--max-event-size` has no `type=int`, so a value given on the command line
  is a string, and `idx >= max_event_size` would then raise `TypeError`. The
  model follows the integer default.
- Reading the HDF store (utils/convert_top_datasets.py:34-35) is foreign I/O.
  Each input file is a sequence of `Row` values with exactly 200 slots.
- `awkward0` serialisation (utils/convert_top_datasets.py:21-23) is foreign
  I/O. Storing a file is an append to a log of `(name, events)` pairs.
- The progress bar and the printing of the first event and of the file names
  (utils/convert_top_datasets.py:22, 33, 37, 39, 78-80) are user interface only.
- Floating point. `log`, `sqrt`, `atanh` and `atan` are uninterpreted
  functions over exact reals. Sums, quotients and the wrap are exact, so
  IEEE rounding is not modelled, and the wrap's range holds for exact reals
  only. Not-a-number and infinite slot values are not modelled either.
- Events.AxisSpec and Events.AngleFailure: division of a NumPy value by a
  zero `px`. When an event has particles,
  its totals and per-particle values are NumPy `float64`, and dividing one
  by zero gives an infinity or not-a-number with a warning, not an
  exception. The model treats every zero divisor as fatal. For most such
  rows the program stops too:
  - `P_tot == 0` with particles: `Eta_tot` and `Phi_tot` are not-a-number,
    and `ValueError` is raised on the first particle, by `atanh` at line 69
    when that particle has `px == py == 0`, and otherwise by `math.floor`
    in the `Phirel` formula at line 72;
  - `PX_tot == PY_tot == 0` with `PZ_tot != 0`: `P_tot == |PZ_tot|`, so
    `atanh(±1)` raises `ValueError` at line 61 before line 62 divides, as in
    the model (`Events.AxisAlongBeamAborts`);
  - a particle with `px == py == 0`: `|pz / p| == 1`, and `atanh` raises
    first (line 69), as in the model;
  - the empty event: the totals are Python integers and `ZeroDivisionError`
    is raised, as in the model.

  The rows the program converts and the model rejects are those with
  `px == 0` and `py != 0`, for a particle (line 70) or for the totals
  (line 62): there `atan(±inf) = ±π/2` and the program goes on. The model
  reports `DivisionByZero` for them, and also reports `DivisionByZero`
  where the program raises `ValueError` (`P_tot == 0` with particles).
- Events.Phi: single-argument `atan` loses the quadrant of `(px, py)`. Its
  value is uninterpreted, so nothing is proved about the angle beyond the
  wrap.
- `np.sign` of not-a-number is not modelled. `Kinematics.Sign` returns -1,
  0 or 1.
