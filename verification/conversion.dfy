/** The conversion pass of `main()`: rows in, batches of converted events out,
    with the batch accumulator, the in-batch counter `idx` and the file counter
    `ifile` carried across all input files. */
module Conversion {
  import opened Wrappers
  import opened Sequences
  import opened Kinematics
  import opened Events
  import opened Chunking

  /** One call of `store_file`: the file name and the batch of events it holds. */
  datatype Output = Output(name: string, events: seq<Record>)

  /** The outputs for `batches`, numbered 0, 1, ... in order. */
  function Saved(prefix: string, batches: seq<seq<Record>>): seq<Output>
  {
    seq(|batches|, j requires 0 <= j < |batches| => Output(FileName(prefix, j), batches[j]))
  }

  /** The events converted before the run stopped, and the exception that
      stopped it, if any. */
  datatype RunResult = RunResult(records: seq<Record>, failure: Option<Failure>)

  /** A conversion of one row given the `idx` it is converted with. */
  type RowConversion = (Row, nat) -> Result<Record, Failure>

  /** The row conversion of `main()` with maths library `m`. */
  function RowConverter(m: MathLib): RowConversion
  {
    (row: Row, idx: nat) => ConvertSpec(m, row, idx)
  }

  /** `convert` agrees with the row conversion of `main()` with library `m`. */
  ghost predicate Implements(convert: RowConversion, m: MathLib)
  {
    forall row, idx {:trigger ConvertSpec(m, row, idx)} :: convert(row, idx) == ConvertSpec(m, row, idx)
  }

  /** The run's conversion of `rows`, in order: event `k` is row `k` converted
      with `idx = k % size`, and the first row whose conversion raises stops
      the run. */
  function ConvertAll(convert: RowConversion, rows: seq<Row>, size: nat): (c: RunResult)
    requires size > 0
    ensures |c.records| <= |rows|
    ensures c.failure.None? <==> |c.records| == |rows|
    decreases |rows|
  {
    if rows == [] then RunResult([], None)
    else
      var c := ConvertAll(convert, rows[..|rows| - 1], size);
      if c.failure.Some? then c
      else
        match convert(rows[|rows| - 1], |c.records| % size)
        case Failure(f) => RunResult(c.records, Some(f))
        case Success(rec) => RunResult(c.records + [rec], None)
  }

  /** Event `k` of the run is row `k` converted with `idx = k % size`, and a
      run that stops, stops at the first row whose conversion raises. */
  lemma {:induction false} ConvertAllMeaning(convert: RowConversion, rows: seq<Row>, size: nat)
    requires size > 0
    ensures var c := ConvertAll(convert, rows, size);
      && (forall k :: 0 <= k < |c.records| ==> convert(rows[k], k % size) == Success(c.records[k]))
      && (c.failure.Some? ==>
            convert(rows[|c.records|], |c.records| % size) == Failure(c.failure.value))
    decreases |rows|
  {
    if rows != [] {
      var init := rows[..|rows| - 1];
      ConvertAllMeaning(convert, init, size);
      var c := ConvertAll(convert, init, size);
      if c.failure.None? {
        assert forall k :: 0 <= k < |c.records| ==> rows[k] == init[k];
      }
    }
  }

  /** Rows after the one that stopped the run are never converted. */
  lemma {:induction false} ConvertAllStops(convert: RowConversion, rows: seq<Row>, more: seq<Row>, size: nat)
    requires size > 0
    requires ConvertAll(convert, rows, size).failure.Some?
    ensures ConvertAll(convert, rows + more, size) == ConvertAll(convert, rows, size)
    decreases |more|
  {
    if more == [] {
      assert rows + more == rows;
    } else {
      var init := more[..|more| - 1];
      assert (rows + more)[..|rows + more| - 1] == rows + init;
      ConvertAllStops(convert, rows, init, size);
    }
  }

  /** One more row extends a run that has not stopped. */
  lemma ConvertAllSnoc(convert: RowConversion, rows: seq<Row>, row: Row, size: nat)
    requires size > 0
    requires ConvertAll(convert, rows, size).failure.None?
    ensures var c, next := ConvertAll(convert, rows, size), ConvertAll(convert, rows + [row], size);
      var conv := convert(row, |c.records| % size);
      && (conv.Failure? ==> next.records == c.records && next.failure == Some(conv.error))
      && (conv.Success? ==> next.records == c.records + [conv.value] && next.failure.None?)
  {
    assert (rows + [row])[..|rows|] == rows;
  }

  /** The state of `main()`'s conversion loop: the current batch `res_array`,
      the counters `idx` and `ifile`, and the log of files stored so far. */
  class Converter {
    const outputFile: string
    const maxEventSize: nat
    var resArray: seq<Record>
    var idx: nat
    var ifile: nat
    var saved: seq<Output>
    /** The batches flushed so far, in order. */
    ghost var batches: seq<seq<Record>>

    /** The state between two rows: the current batch is not yet full. */
    ghost predicate Valid()
      reads this
    {
      Filling() && idx < maxEventSize
    }

    /** `idx` counts the current batch, `ifile` the stored ones, every stored
        batch is full, every event carries its position in its batch, and the
        sink holds the stored batches under their numbered names. */
    ghost predicate Filling()
      reads this
    {
      && maxEventSize > 0
      && idx == |resArray| <= maxEventSize
      && ifile == |batches|
      && (forall j :: 0 <= j < |batches| ==> |batches[j]| == maxEventSize)
      && (forall j, p :: 0 <= j < |batches| && 0 <= p < |batches[j]| ==> batches[j][p].idx == p)
      && (forall p :: 0 <= p < |resArray| ==> resArray[p].idx == p)
      && saved == Saved(outputFile, batches)
    }

    /** Every event appended so far, flushed or not, in order. */
    ghost function Records(): seq<Record>
      reads this
    {
      Flatten(batches) + resArray
    }

    /** The start of the run: both counters at zero, an empty batch and nothing stored. */
    constructor (outputFile: string, maxEventSize: nat)
      requires maxEventSize > 0
      ensures Valid()
      ensures this.outputFile == outputFile && this.maxEventSize == maxEventSize
      ensures resArray == [] && idx == 0 && ifile == 0 && saved == [] && batches == []
    {
      this.outputFile := outputFile;
      this.maxEventSize := maxEventSize;
      resArray, idx, ifile, saved := [], 0, 0, [];
      batches := [];
    }

    /** `store_file`: hands a batch and its name to the output sink. This is
        the raw sink; only `Flush` and `Finish` call it. `Flush` keeps
        `Valid()`; `Finish` is the last write and leaves it. */
    method StoreFile(events: seq<Record>, outName: string)
      modifies this`saved
      ensures saved == old(saved) + [Output(outName, events)]
    {
      saved := saved + [Output(outName, events)];
    }

    /** The number of events appended so far is `ifile` full batches plus `idx`. */
    lemma RecordsCount()
      requires Valid()
      ensures |Records()| == ifile * maxEventSize + idx
      ensures |Records()| % maxEventSize == idx
    {
      FlattenLength(batches, maxEventSize);
      DivModOfMulAdd(ifile, maxEventSize, idx);
    }

    /** One iteration of the row loop: convert the row, append its record,
        count it, and flush the batch once it holds `max_event_size` events. */
    method ProcessRow(m: MathLib, row: Row) returns (failure: Option<Failure>)
      requires Valid()
      modifies this
      ensures Valid()
      ensures var conv := ConvertSpec(m, row, old(idx));
        if conv.Failure? then
          && failure == Some(conv.error)
          && resArray == old(resArray) && idx == old(idx) && ifile == old(ifile)
          && saved == old(saved) && batches == old(batches)
        else
          && failure == None
          && Records() == old(Records()) + [conv.value]
          && if old(idx) + 1 >= maxEventSize then
               && saved == old(saved) + [Output(FileName(outputFile, old(ifile)), old(resArray) + [conv.value])]
               && resArray == [] && idx == 0 && ifile == old(ifile) + 1
             else
               && saved == old(saved)
               && resArray == old(resArray) + [conv.value] && idx == old(idx) + 1 && ifile == old(ifile)
    {
      var res := ConvertRow(m, row, idx);
      if res.Failure? {
        return Some(res.error);
      }
      RecordIdx(m, row, idx);
      Append(res.value);
      failure := None;
    }

    /** Appends a converted event to the batch and counts it; once the batch
        holds `max_event_size` events it is stored as file `ifile` and a new
        batch begins. */
    method Append(rec: Record)
      requires Valid() && rec.idx == idx
      modifies this
      ensures Valid()
      ensures Records() == old(Records()) + [rec]
      ensures if old(idx) + 1 >= maxEventSize then
          && saved == old(saved) + [Output(FileName(outputFile, old(ifile)), old(resArray) + [rec])]
          && resArray == [] && idx == 0 && ifile == old(ifile) + 1
        else
          && saved == old(saved)
          && resArray == old(resArray) + [rec] && idx == old(idx) + 1 && ifile == old(ifile)
    {
      resArray := resArray + [rec];
      idx := idx + 1;
      if idx >= maxEventSize {
        Flush();
      }
    }

    /** Stores the full batch as file `ifile`, counts the file and starts an
        empty batch. */
    method Flush()
      requires Filling() && idx == maxEventSize
      modifies this
      ensures Valid()
      ensures Records() == old(Records())
      ensures saved == old(saved) + [Output(FileName(outputFile, old(ifile)), old(resArray))]
      ensures resArray == [] && idx == 0 && ifile == old(ifile) + 1
    {
      StoreFile(resArray, FileName(outputFile, ifile));
      SavedSnoc(outputFile, batches, resArray);
      FlattenSnoc(batches, resArray);
      batches := batches + [resArray];
      resArray := [];
      ifile := ifile + 1;
      idx := 0;
    }

    /** The loop over the rows of one input table. `done` stands for the rows
        of the earlier tables, whose events are already appended. */
    method ProcessTable(m: MathLib, ghost convert: RowConversion, ghost done: seq<Row>, rows: seq<Row>)
      returns (failure: Option<Failure>)
      requires Valid() && Implements(convert, m)
      requires ConvertAll(convert, done, maxEventSize).failure.None?
      requires ConvertAll(convert, done, maxEventSize).records == Records()
      modifies this
      ensures Valid()
      ensures ConvertAll(convert, done + rows, maxEventSize).failure == failure
      ensures ConvertAll(convert, done + rows, maxEventSize).records == Records()
    {
      assert done + rows[..0] == done;
      for r := 0 to |rows|
        invariant Valid()
        invariant ConvertAll(convert, done + rows[..r], maxEventSize).failure.None?
        invariant ConvertAll(convert, done + rows[..r], maxEventSize).records == Records()
      {
        ghost var before, k := Records(), idx;
        RecordsCount();
        ConvertAllSnoc(convert, done + rows[..r], rows[r], maxEventSize);
        PrefixStep(done, rows, r);
        failure := ProcessRow(m, rows[r]);
        if failure.Some? {
          ConvertAllStops(convert, done + rows[..r + 1], rows[r + 1..], maxEventSize);
          return;
        }
        assert ConvertSpec(m, rows[r], k).Success?;
        assert Records() == before + [ConvertSpec(m, rows[r], k).value];
      }
      assert rows[..|rows|] == rows;
      failure := None;
    }

    /** The final write after the last input file: the current batch, full
        or not and possibly empty, is stored as file `ifile`. */
    method Finish()
      requires Valid()
      modifies this`saved
      ensures saved == old(saved) + [Output(FileName(outputFile, ifile), resArray)]
      ensures saved == Saved(outputFile, batches + [resArray])
    {
      StoreFile(resArray, FileName(outputFile, ifile));
      SavedSnoc(outputFile, batches, resArray);
    }

    /** The loop over the input files, each read in turn and its rows
        processed; the counters and the current batch carry over from one
        file to the next. */
    method ProcessFiles(m: MathLib, ghost convert: RowConversion, inputFiles: seq<seq<Row>>)
      returns (failure: Option<Failure>)
      requires Valid() && Implements(convert, m) && batches == [] && resArray == []
      modifies this
      ensures Valid()
      ensures ConvertAll(convert, Flatten(inputFiles), maxEventSize).failure == failure
      ensures ConvertAll(convert, Flatten(inputFiles), maxEventSize).records == Records()
    {
      ghost var done: seq<Row> := [];
      for f := 0 to |inputFiles|
        invariant Valid()
        invariant done == Flatten(inputFiles[..f])
        invariant ConvertAll(convert, done, maxEventSize).failure.None?
        invariant ConvertAll(convert, done, maxEventSize).records == Records()
      {
        failure := ProcessTable(m, convert, done, inputFiles[f]);
        if failure.Some? {
          StoppedRun(convert, inputFiles, f, maxEventSize);
          return;
        }
        assert inputFiles[..f + 1] == inputFiles[..f] + [inputFiles[f]];
        FlattenSnoc(inputFiles[..f], inputFiles[f]);
        done := done + inputFiles[f];
      }
      assert inputFiles[..|inputFiles|] == inputFiles;
      failure := None;
    }
  }

  /** The converted record carries the `idx` it was converted with. */
  lemma RecordIdx(m: MathLib, row: Row, idx: nat)
    requires ConvertSpec(m, row, idx).Success?
    ensures ConvertSpec(m, row, idx).value.idx == idx
  {
  }

  /** The converted record carries the label of the row it came from. */
  lemma RecordLabel(m: MathLib, row: Row, idx: nat)
    requires ConvertSpec(m, row, idx).Success?
    ensures ConvertSpec(m, row, idx).value.origIdx == row.rowLabel
  {
  }

  /** `main()`: converts the rows of every input file in order into one stream
      of events, flushing a batch to `{outputFile}_{ifile}.awkd` whenever it
      reaches `maxEventSize` events, and writes the rest as a last file,
      even when it is empty. On an exception the run stops with the files
      stored so far. */
  method ConvertDataset(m: MathLib, inputFiles: seq<seq<Row>>, outputFile: string, maxEventSize: nat)
    returns (saved: seq<Output>, failure: Option<Failure>)
    requires maxEventSize > 0
    ensures var run := ConvertAll(RowConverter(m), Flatten(inputFiles), maxEventSize);
      && failure == run.failure
      && var batches := Chunks(run.records, maxEventSize);
         saved == Saved(outputFile, if failure.None? then batches else batches[..|batches| - 1])
  {
    var conv := new Converter(outputFile, maxEventSize);
    assert Implements(RowConverter(m), m);
    failure := conv.ProcessFiles(m, RowConverter(m), inputFiles);
    ChunksOfBatches(conv.batches, conv.resArray, maxEventSize);
    if failure.None? {
      conv.Finish();
    } else {
      assert (conv.batches + [conv.resArray])[..|conv.batches|] == conv.batches;
    }
    saved := conv.saved;
  }

  /** Storing one more batch extends the log by its numbered output. */
  lemma SavedSnoc(prefix: string, batches: seq<seq<Record>>, batch: seq<Record>)
    ensures Saved(prefix, batches + [batch]) ==
      Saved(prefix, batches) + [Output(FileName(prefix, |batches|), batch)]
  {
  }

  /** A run that stops inside input file `f` stops the whole input there. */
  lemma StoppedRun(convert: RowConversion, inputFiles: seq<seq<Row>>, f: nat, size: nat)
    requires size > 0
    requires f < |inputFiles|
    requires ConvertAll(convert, Flatten(inputFiles[..f]) + inputFiles[f], size).failure.Some?
    ensures ConvertAll(convert, Flatten(inputFiles), size) ==
      ConvertAll(convert, Flatten(inputFiles[..f]) + inputFiles[f], size)
  {
    FlattenSplit(inputFiles, f, |inputFiles[f]|);
    assert inputFiles[f][..|inputFiles[f]|] == inputFiles[f];
    ConvertAllStops(convert, Flatten(inputFiles[..f]) + inputFiles[f],
      inputFiles[f][|inputFiles[f]|..] + Flatten(inputFiles[f + 1..]), size);
  }

  // ---------------------------------------------------------------------------
  // Properties of a run

  /** Distinct file numbers give distinct names: no file of a run overwrites another. */
  lemma SavedNamesDistinct(prefix: string, batches: seq<seq<Record>>)
    ensures var out := Saved(prefix, batches);
      forall i, j :: 0 <= i < j < |out| ==> out[i].name != out[j].name
  {
    var out := Saved(prefix, batches);
    forall i, j | 0 <= i < j < |out|
      ensures out[i].name != out[j].name
    {
      if out[i].name == out[j].name {
        FileNameInjective(prefix, i, j);
      }
    }
  }

  /** A run that converts all `N` rows writes `N / M + 1` files numbered 0 to
      `N / M`; every file but the last holds `M` events, the last `N % M` (none
      when `M` divides `N`). */
  lemma CompletedRunFiles(convert: RowConversion, rows: seq<Row>, prefix: string, size: nat)
    requires size > 0
    requires ConvertAll(convert, rows, size).failure.None?
    ensures var out := Saved(prefix, Chunks(ConvertAll(convert, rows, size).records, size));
      && |out| == |rows| / size + 1
      && (forall j :: 0 <= j < |out| ==> out[j].name == FileName(prefix, j))
      && (forall j :: 0 <= j < |out| - 1 ==> |out[j].events| == size)
      && |out[|out| - 1].events| == |rows| % size
  {
    SavedChunks(prefix, ConvertAll(convert, rows, size).records, size);
  }

  /** The files written for `N` events in batches of `M`: `N / M + 1` of them,
      numbered from 0, all full but the last, which holds `N % M` events. */
  lemma SavedChunks(prefix: string, records: seq<Record>, size: nat)
    requires size > 0
    ensures var out := Saved(prefix, Chunks(records, size));
      && |out| == |records| / size + 1
      && (forall j :: 0 <= j < |out| ==> out[j].name == FileName(prefix, j))
      && (forall j :: 0 <= j < |out| - 1 ==> |out[j].events| == size)
      && |out[|out| - 1].events| == |records| % size
  {
    ChunksCount(records, size);
    ChunkSizes(records, size);
  }

  /** The batches of a run keep the row order and number the events within a
      batch: event `p` of batch `j` is row `j * M + p` converted with
      `idx == p`, and carries that row's label. */
  lemma BatchedRecord(m: MathLib, rows: seq<Row>, size: nat, j: nat, p: nat)
    requires size > 0
    requires var cs := Chunks(ConvertAll(RowConverter(m), rows, size).records, size);
      j < |cs| && p < |cs[j]|
    ensures var cs := Chunks(ConvertAll(RowConverter(m), rows, size).records, size);
      && 0 <= j * size + p < |rows|
      && ConvertSpec(m, rows[j * size + p], p) == Success(cs[j][p])
      && cs[j][p].idx == p && cs[j][p].origIdx == rows[j * size + p].rowLabel
  {
    var records := ConvertAll(RowConverter(m), rows, size).records;
    var k := j * size + p;
    ChunkElement(records, size, j, p);
    DivModOfMulAdd(j, size, p);
    MulMonotone(0, j, size);
    RecordAt(m, rows, size, k);
    RecordIdx(m, rows[k], p);
    RecordLabel(m, rows[k], p);
  }

  /** Event `k` of a run is row `k` converted with `idx == k % M`. */
  lemma RecordAt(m: MathLib, rows: seq<Row>, size: nat, k: nat)
    requires size > 0
    requires k < |ConvertAll(RowConverter(m), rows, size).records|
    ensures k < |rows|
    ensures ConvertSpec(m, rows[k], k % size) == Success(ConvertAll(RowConverter(m), rows, size).records[k])
  {
    ConvertAllMeaning(RowConverter(m), rows, size);
  }

  /** A run stopped by an exception has written only the full batches before
      the failing row: `|records| / M` files of `M` events each, in order;
      the events of the unfinished batch are lost. */
  lemma StoppedRunFiles(convert: RowConversion, rows: seq<Row>, prefix: string, size: nat)
    requires size > 0
    requires ConvertAll(convert, rows, size).failure.Some?
    ensures var records := ConvertAll(convert, rows, size).records;
      var cs := Chunks(records, size);
      var out := Saved(prefix, cs[..|cs| - 1]);
      && |out| == |records| / size
      && (forall j :: 0 <= j < |out| ==> out[j].name == FileName(prefix, j))
      && (forall j :: 0 <= j < |out| ==> |out[j].events| == size)
      && Flatten(cs[..|cs| - 1]) + cs[|cs| - 1] == records
      && |cs[|cs| - 1]| == |records| % size
  {
    var records := ConvertAll(convert, rows, size).records;
    var cs := Chunks(records, size);
    ChunksCount(records, size);
    ChunkSizes(records, size);
    ChunksFlatten(records, size);
    assert cs == cs[..|cs| - 1] + [cs[|cs| - 1]];
    FlattenSnoc(cs[..|cs| - 1], cs[|cs| - 1]);
  }
}
