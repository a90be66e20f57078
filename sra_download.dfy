/**
 * The SRA download script: for every row of the table it fetches the run's
 * archive into a fresh scratch directory, requires exactly one archive there,
 * validates and converts it to FASTQ, then compresses each FASTQ file found
 * and moves it to the output directory under an enumeration-based name.
 */
module SraDownload {
  import opened Wrappers
  import opened Process
  import opened Batch
  import PyStr
  import PyPath

  const MaxSize := "100G"

  function PrefetchArgv(sra: string, tmpdir: string): seq<string> {
    ["prefetch", "--progress", "--max-size", MaxSize, sra, "--output-directory", tmpdir]
  }

  function ValidateArgv(archive: string): seq<string> {
    ["vdb-validate", archive]
  }

  function ConvertArgv(archive: string, threads: string, tmpdir: string): seq<string> {
    ["fasterq-dump", archive, "--progress", "--split-files", "--threads", threads, "--outdir", tmpdir]
  }

  function PigzArgv(threads: string, file: string): seq<string> {
    ["pigz", "--processes", threads, file]
  }

  /** The file name given to the i-th (0-based) discovered FASTQ file: read number i + 1. */
  function OutputBase(name: string, i: nat): string {
    name + "_R" + PyStr.IntToString(i + 1) + "_001.fastq.gz"
  }

  function OutputName(targetdir: string, name: string, i: nat): string {
    PyPath.Join(targetdir, OutputBase(name, i))
  }

  /** The events of compressing and moving the discovered files, by discovery order. */
  function CompressTrace(name: string, fastqs: seq<string>, targetdir: string, threads: string): seq<Event> {
    if fastqs == [] then []
    else
      var i := |fastqs| - 1;
      CompressTrace(name, fastqs[..i], targetdir, threads)
        + [Exec(PigzArgv(threads, fastqs[i])), Move(fastqs[i] + ".gz", OutputName(targetdir, name, i))]
  }

  /**
   * For every discovered file F, in discovery order, `pigz` runs on F exactly
   * once and then `F.gz` is moved to the name numbered after F's position.
   */
  lemma {:induction false} CompressTraceAt(name: string, fastqs: seq<string>, targetdir: string, threads: string)
    ensures |CompressTrace(name, fastqs, targetdir, threads)| == 2 * |fastqs|
    ensures forall i :: 0 <= i < |fastqs| ==>
      && CompressTrace(name, fastqs, targetdir, threads)[2 * i] == Exec(["pigz", "--processes", threads, fastqs[i]])
      && CompressTrace(name, fastqs, targetdir, threads)[2 * i + 1] == Move(fastqs[i] + ".gz", OutputName(targetdir, name, i))
  {
    if fastqs != [] {
      var n := |fastqs| - 1;
      var init := fastqs[..n];
      CompressTraceAt(name, init, targetdir, threads);
      var t, ti := CompressTrace(name, fastqs, targetdir, threads), CompressTrace(name, init, targetdir, threads);
      assert t == ti + [Exec(PigzArgv(threads, fastqs[n])), Move(fastqs[n] + ".gz", OutputName(targetdir, name, n))];
      forall i | 0 <= i < n
        ensures t[2 * i] == Exec(["pigz", "--processes", threads, fastqs[i]])
        ensures t[2 * i + 1] == Move(fastqs[i] + ".gz", OutputName(targetdir, name, i))
      {
        assert init[i] == fastqs[i];
        assert t[2 * i] == ti[2 * i] && t[2 * i + 1] == ti[2 * i + 1];
      }
    }
  }

  /** One `compress` call gives pairwise distinct output names, one per discovered file. */
  lemma OutputNamesDistinct(targetdir: string, name: string, i: nat, j: nat)
    requires i != j
    ensures OutputName(targetdir, name, i) != OutputName(targetdir, name, j)
  {
    if OutputName(targetdir, name, i) == OutputName(targetdir, name, j) {
      OutputBaseStart(name, i);
      OutputBaseStart(name, j);
      PyPath.JoinInjective(targetdir, OutputBase(name, i), OutputBase(name, j));
      OutputBaseInjective(name, i, j);
    }
  }

  lemma OutputBaseStart(name: string, i: nat)
    ensures OutputBase(name, i) != [] && OutputBase(name, i)[0] == if name == [] then '_' else name[0]
  {
  }

  lemma OutputBaseInjective(name: string, i: nat, j: nat)
    requires OutputBase(name, i) == OutputBase(name, j)
    ensures i == j
  {
    var si, sj := PyStr.IntToString(i + 1), PyStr.IntToString(j + 1);
    CancelAround(name + "_R", si, sj, "_001.fastq.gz");
    PyStr.IntToStringInjective(i + 1, j + 1);
  }

  /** Equal strings with the same prefix and suffix have the same middle. */
  lemma CancelAround(pre: string, x: string, y: string, post: string)
    requires pre + x + post == pre + y + post
    ensures x == y
  {
    var s, t := pre + x + post, pre + y + post;
    assert |x| == |y|;
    assert x == s[|pre|..|pre| + |x|];
    assert y == t[|pre|..|pre| + |y|];
  }

  /**
   * The files one `compress` call moves into the target directory: one per
   * discovered file, pairwise distinct, the i-th numbered `i + 1`.
   */
  lemma CompressTargetsDistinct(name: string, fastqs: seq<string>, targetdir: string, threads: string)
    ensures var t := CompressTrace(name, fastqs, targetdir, threads);
      && |t| == 2 * |fastqs|
      && (forall i :: 0 <= i < |fastqs| ==> t[2 * i + 1].Move? && t[2 * i + 1].dst == OutputName(targetdir, name, i))
      && (forall i, j :: 0 <= i < j < |fastqs| ==> t[2 * i + 1].dst != t[2 * j + 1].dst)
  {
    CompressTraceAt(name, fastqs, targetdir, threads);
    forall i, j | 0 <= i < j < |fastqs|
      ensures OutputName(targetdir, name, i) != OutputName(targetdir, name, j)
    {
      OutputNamesDistinct(targetdir, name, i, j);
    }
  }

  /** With a relative sample name, the i-th output is `targetdir/name_R{i+1}_001.fastq.gz`. */
  lemma OutputNameRelative(targetdir: string, name: string, i: nat)
    requires name == [] || name[0] != '/'
    requires targetdir != [] && targetdir[|targetdir| - 1] != '/'
    ensures OutputName(targetdir, name, i) == targetdir + "/" + name + "_R" + PyStr.IntToString(i + 1) + "_001.fastq.gz"
  {
    assert OutputBase(name, i)[0] == if name == [] then '_' else name[0];
  }

  /**
   * One iteration of the `enumerate` loop of `compress`: `pigz` on the i-th
   * discovered file F, then the move of `F.gz` to output name i. `gzipped(F)`
   * says whether `pigz` left `F.gz` behind; when it did not (for instance
   * because the thread count is not a number), `shutil.move` raises.
   */
  function CompressStep(name: string, targetdir: string, threads: string, gzipped: string -> bool, i: nat, file: string)
    : Run<Event, Failure>
  {
    var packed := [Exec(PigzArgv(threads, file))];
    if gzipped(file) then Run(packed + [Move(file + ".gz", OutputName(targetdir, name, i))], None)
    else Run(packed, Some(NoCompressedFile(file + ".gz")))
  }

  function CompressSteps(name: string, targetdir: string, threads: string, gzipped: string -> bool)
    : (nat, string) -> Run<Event, Failure>
  {
    (i: nat, file: string) => CompressStep(name, targetdir, threads, gzipped, i, file)
  }

  /** `pigz` left a `.gz` beside every one of the files. */
  predicate AllGzipped(fastqs: seq<string>, gzipped: string -> bool) {
    forall i :: 0 <= i < |fastqs| ==> gzipped(fastqs[i])
  }

  /** When every move succeeds, the steps of `compress` add up to the full compress-and-move trace. */
  lemma {:induction false} CompressOutputs(name: string, fastqs: seq<string>, targetdir: string, threads: string,
                                           gzipped: string -> bool)
    requires AllGzipped(fastqs, gzipped)
    ensures Outputs(fastqs, CompressSteps(name, targetdir, threads, gzipped)) == CompressTrace(name, fastqs, targetdir, threads)
  {
    if fastqs != [] {
      var n := |fastqs| - 1;
      var init := fastqs[..n];
      assert AllGzipped(init, gzipped) by {
        forall i | 0 <= i < |init| ensures gzipped(init[i]) { assert init[i] == fastqs[i]; }
      }
      CompressOutputs(name, init, targetdir, threads, gzipped);
      assert CompressSteps(name, targetdir, threads, gzipped)(n, fastqs[n])
        == CompressStep(name, targetdir, threads, gzipped, n, fastqs[n]);
    }
  }

  /** When `pigz` compresses every file, `compress` completes with one `pigz` and one move per file. */
  lemma CompressCompletes(name: string, fastqs: seq<string>, targetdir: string, threads: string, gzipped: string -> bool)
    requires AllGzipped(fastqs, gzipped)
    ensures RunAll(fastqs, CompressSteps(name, targetdir, threads, gzipped)) == Run(CompressTrace(name, fastqs, targetdir, threads), None)
  {
    var steps := CompressSteps(name, targetdir, threads, gzipped);
    forall i | 0 <= i < |fastqs|
      ensures steps(i, fastqs[i]).failure.None?
    {
      assert steps(i, fastqs[i]) == CompressStep(name, targetdir, threads, gzipped, i, fastqs[i]);
    }
    RunAllCompletes(fastqs, steps);
    CompressOutputs(name, fastqs, targetdir, threads, gzipped);
  }

  /**
   * The first file for which `pigz` leaves no `.gz` ends the run at its move:
   * the files before it have been compressed and moved, that file has only
   * been given to `pigz`, and the files after it are untouched.
   */
  lemma MissingGzipEndsCompress(name: string, fastqs: seq<string>, targetdir: string, threads: string,
                                gzipped: string -> bool, k: nat)
    requires k < |fastqs| && !gzipped(fastqs[k])
    requires AllGzipped(fastqs[..k], gzipped)
    ensures RunAll(fastqs, CompressSteps(name, targetdir, threads, gzipped)) == Run(
      CompressTrace(name, fastqs[..k], targetdir, threads) + [Exec(["pigz", "--processes", threads, fastqs[k]])],
      Some(NoCompressedFile(fastqs[k] + ".gz")))
  {
    var steps := CompressSteps(name, targetdir, threads, gzipped);
    forall i | 0 <= i < k
      ensures steps(i, fastqs[i]).failure.None?
    {
      assert fastqs[..k][i] == fastqs[i];
      assert steps(i, fastqs[i]) == CompressStep(name, targetdir, threads, gzipped, i, fastqs[i]);
    }
    assert steps(k, fastqs[k]) == Run([Exec(PigzArgv(threads, fastqs[k]))], Some(NoCompressedFile(fastqs[k] + ".gz")));
    RunAllStops(fastqs, k, steps);
    var pre := fastqs[..k + 1];
    assert pre[..k] == fastqs[..k] && pre[k] == fastqs[k];
    CompressOutputs(name, fastqs[..k], targetdir, threads, gzipped);
  }

  /** `compress`: one `pigz` then one move per discovered file, in discovery order, until a move raises. */
  method Compress(name: string, fastqs: seq<string>, targetdir: string, threads: string, gzipped: string -> bool)
    returns (trace: seq<Event>, failure: Option<Failure>)
    ensures Run(trace, failure) == RunAll(fastqs, CompressSteps(name, targetdir, threads, gzipped))
  {
    var steps := CompressSteps(name, targetdir, threads, gzipped);
    trace, failure := [], None;
    var i := 0;
    while i < |fastqs|
      invariant 0 <= i <= |fastqs|
      invariant failure.None?
      invariant Run(trace, failure) == RunAll(fastqs[..i], steps)
    {
      var file := fastqs[i];
      var outfile := PyPath.Join(targetdir, name + "_R" + PyStr.IntToString(i + 1) + "_001.fastq.gz");
      RunAllStep(fastqs, i, steps, trace);
      assert steps(i, file) == CompressStep(name, targetdir, threads, gzipped, i, file);
      trace := trace + [Exec(PigzArgv(threads, file))];
      if !gzipped(file) {
        failure := Some(NoCompressedFile(file + ".gz"));
        return;
      }
      trace := trace + [Move(file + ".gz", outfile)];
      i := i + 1;
    }
    assert fastqs[..i] == fastqs;
  }

  /**
   * The exception that ends the run: a row without two columns, not exactly
   * one archive, or a move whose `.gz` source `pigz` did not produce.
   */
  datatype Failure = MissingColumn(fields: nat) | ArchiveCount(found: nat) | NoCompressedFile(path: string)

  /**
   * `download`: the fetch, then the assertion on the archives found under
   * the `.sra` pattern one level below `tmpdir`, then validation and conversion of that one archive.
   */
  function Download(sra: string, tmpdir: string, archives: seq<string>, threads: string): Run<Event, Failure> {
    var fetched := [Exec(PrefetchArgv(sra, tmpdir))];
    if |archives| != 1 then Run(fetched, Some(ArchiveCount(|archives|)))
    else Run(fetched + [Exec(ValidateArgv(archives[0])), Exec(ConvertArgv(archives[0], threads, tmpdir))], None)
  }

  /**
   * What one row's scratch directory holds: its name, what the two globs find
   * in it, and for which FASTQ files `pigz` leaves a `.gz` behind.
   */
  datatype Scratch = Scratch(tmpdir: string, archives: seq<string>, fastqs: seq<string>, gzipped: string -> bool)

  /** One iteration of the row loop of `main`: `row[0]` is the accession, `row[1]` the sample. */
  function RowStep(outdir: string, threads: string, scratch: Scratch, row: seq<string>): Run<Event, Failure> {
    if |row| < 2 then Run([], Some(MissingColumn(|row|)))
    else
      var d := Download(row[0], scratch.tmpdir, scratch.archives, threads);
      if d.failure.Some? then d
      else
        var c := RunAll(scratch.fastqs, CompressSteps(row[1], outdir, threads, scratch.gzipped));
        Run(d.output + c.output, c.failure)
  }

  function RowSteps(outdir: string, threads: string, scratch: nat -> Scratch): (nat, seq<string>) -> Run<Event, Failure> {
    (k: nat, row: seq<string>) => RowStep(outdir, threads, scratch(k), row)
  }

  /**
   * Zero or several archives end the run right after the fetch: neither the
   * validator nor the converter runs. Exactly one archive lets both run on it.
   */
  lemma DownloadNeedsOneArchive(sra: string, tmpdir: string, archives: seq<string>, threads: string)
    ensures Download(sra, tmpdir, archives, threads).failure.None? <==> |archives| == 1
    ensures |archives| != 1 ==>
      Download(sra, tmpdir, archives, threads) == Run([Exec(PrefetchArgv(sra, tmpdir))], Some(ArchiveCount(|archives|)))
  {
  }

  /**
   * A successful row runs, in this order and once each: `prefetch`,
   * `vdb-validate` and `fasterq-dump` on the same single archive, then the
   * compression of every FASTQ file found.
   */
  lemma RowStageOrder(outdir: string, threads: string, scratch: Scratch, row: seq<string>)
    requires |row| >= 2 && |scratch.archives| == 1 && AllGzipped(scratch.fastqs, scratch.gzipped)
    ensures var a := scratch.archives[0];
      RowStep(outdir, threads, scratch, row) == Run(
        [Exec(["prefetch", "--progress", "--max-size", "100G", row[0], "--output-directory", scratch.tmpdir]),
         Exec(["vdb-validate", a]),
         Exec(["fasterq-dump", a, "--progress", "--split-files", "--threads", threads, "--outdir", scratch.tmpdir])]
        + CompressTrace(row[1], scratch.fastqs, outdir, threads),
        None)
  {
    CompressCompletes(row[1], scratch.fastqs, outdir, threads, scratch.gzipped);
  }

  /** Columns after the second are ignored. */
  lemma ExtraColumnsIgnored(outdir: string, threads: string, scratch: Scratch, row: seq<string>)
    requires |row| >= 2
    ensures RowStep(outdir, threads, scratch, row) == RowStep(outdir, threads, scratch, row[..2])
  {
  }

  /**
   * The assertion is not caught: a row whose fetch leaves zero or several
   * archives ends the whole run after its `prefetch`, with the rows before it
   * (whose rows are well formed, with one archive and every file compressed)
   * fully processed and the rows after it untouched.
   */
  lemma ArchiveMismatchEndsRun(outdir: string, threads: string, scratch: nat -> Scratch, rows: seq<seq<string>>, k: nat)
    requires k < |rows| && |rows[k]| >= 2 && |scratch(k).archives| != 1
    requires forall i :: 0 <= i < k ==> |rows[i]| >= 2 && |scratch(i).archives| == 1 && AllGzipped(scratch(i).fastqs, scratch(i).gzipped)
    ensures RunAll(rows, RowSteps(outdir, threads, scratch)) == Run(
      Outputs(rows[..k], RowSteps(outdir, threads, scratch)) + [Exec(PrefetchArgv(rows[k][0], scratch(k).tmpdir))],
      Some(ArchiveCount(|scratch(k).archives|)))
  {
    var steps := RowSteps(outdir, threads, scratch);
    forall i | 0 <= i < k
      ensures steps(i, rows[i]).failure.None?
    {
      assert steps(i, rows[i]) == RowStep(outdir, threads, scratch(i), rows[i]);
      CompressCompletes(rows[i][1], scratch(i).fastqs, outdir, threads, scratch(i).gzipped);
    }
    assert steps(k, rows[k]) == Run([Exec(PrefetchArgv(rows[k][0], scratch(k).tmpdir))], Some(ArchiveCount(|scratch(k).archives|)));
    RunAllStops(rows, k, steps);
    assert rows[..k + 1][..k] == rows[..k];
  }

  /** The body of the row loop of `main`: download into the row's scratch directory, then compress. */
  method ProcessRow(outdir: string, threads: string, s: Scratch, row: seq<string>)
    returns (events: seq<Event>, failure: Option<Failure>)
    ensures Run(events, failure) == RowStep(outdir, threads, s, row)
  {
    if |row| < 2 {
      return [], Some(MissingColumn(|row|));
    }
    var sra, name := row[0], row[1];
    events := [Exec(PrefetchArgv(sra, s.tmpdir))];
    if |s.archives| != 1 {
      return events, Some(ArchiveCount(|s.archives|));
    }
    events := events + [Exec(ValidateArgv(s.archives[0])), Exec(ConvertArgv(s.archives[0], threads, s.tmpdir))];
    var packed, packFailure := Compress(name, s.fastqs, outdir, threads, s.gzipped);
    events, failure := events + packed, packFailure;
  }

  /**
   * `main`: rows in file order, each in its own scratch directory. `scratch(k)`
   * stands for the temporary directory of row k and what the globs find there.
   */
  method ProcessTable(outdir: string, threads: string, rows: seq<seq<string>>, scratch: nat -> Scratch)
    returns (trace: seq<Event>, failure: Option<Failure>)
    ensures Run(trace, failure) == RunAll(rows, RowSteps(outdir, threads, scratch))
  {
    var steps := RowSteps(outdir, threads, scratch);
    trace, failure := [], None;
    var i := 0;
    while i < |rows|
      invariant 0 <= i <= |rows|
      invariant failure.None?
      invariant Run(trace, failure) == RunAll(rows[..i], steps)
    {
      var events, rowFailure := ProcessRow(outdir, threads, scratch(i), rows[i]);
      RunAllStep(rows, i, steps, trace);
      trace, failure := trace + events, rowFailure;
      if failure.Some? {
        return;
      }
      i := i + 1;
    }
    assert rows[..i] == rows;
  }
}
