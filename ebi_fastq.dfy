/**
 * The ENA download script: every row of the table names an accession and a
 * sample; for each row the script derives the sharded FTP location of the
 * accession's two FASTQ files and runs one `curl` per file.
 */
module EbiFastq {
  import opened Wrappers
  import opened Process
  import opened Batch

  const EbiBaseUrl := "ftp://ftp.sra.ebi.ac.uk/vol1/fastq"

  /** The read numbers downloaded for every accession: always both, the paired flag is never consulted. */
  const ReadSuffixes: seq<string> := ["1", "2"]

  /** `srr[-2:]`: the last two characters, or the whole accession when it is shorter. */
  function LastTwo(acc: string): (r: string)
    ensures |r| == if |acc| < 2 then |acc| else 2
    ensures r == acc[|acc| - |r|..]
  {
    if |acc| < 2 then acc else acc[|acc| - 2..]
  }

  /** `f"0{srr[-2:]}"`: the second shard level. */
  function ShardSuffix(acc: string): string {
    "0" + LastTwo(acc)
  }

  /** `srr[:6]`: the first six characters, or the whole accession when it is shorter. */
  function ShardPrefix(acc: string): (r: string)
    ensures |r| == if |acc| < 6 then |acc| else 6
    ensures r == acc[..|r|]
  {
    if |acc| < 6 then acc else acc[..6]
  }

  function BaseUrl(acc: string): string {
    EbiBaseUrl + "/" + ShardPrefix(acc) + "/" + ShardSuffix(acc) + "/" + acc + "/" + acc
  }

  function ReadUrl(acc: string, read: string): string {
    BaseUrl(acc) + "_" + read + ".fastq.gz"
  }

  /** The target file; the global output directory is joined with a literal `/`. */
  function OutFile(outdir: string, sample: string, read: string): string {
    outdir + "/" + sample + "_R" + read + "_001.fastq.gz"
  }

  function CurlArgv(url: string, file: string): seq<string> {
    ["curl", "-L", url, "-o", file]
  }

  function Fetch(outdir: string, acc: string, sample: string, read: string): Event {
    Exec(CurlArgv(ReadUrl(acc, read), OutFile(outdir, sample, read)))
  }

  /** The downloads of one row, one per read suffix, in suffix order. */
  function FastqTrace(outdir: string, acc: string, sample: string): seq<Event> {
    seq(|ReadSuffixes|, i requires 0 <= i < |ReadSuffixes| => Fetch(outdir, acc, sample, ReadSuffixes[i]))
  }

  /** The shard path of an accession of at least six characters, written out. */
  lemma ShardLayout(acc: string)
    requires |acc| >= 6
    ensures BaseUrl(acc) == EbiBaseUrl + "/" + acc[..6] + "/0" + acc[|acc| - 2..] + "/" + acc + "/" + acc
  {
  }

  /** Python slicing on short accessions: the whole accession stands in for the missing characters. */
  lemma ShortAccession(acc: string)
    requires |acc| < 6
    ensures ShardPrefix(acc) == acc
    ensures |acc| < 2 ==> ShardSuffix(acc) == "0" + acc
  {
  }

  /**
   * Every row triggers exactly two `curl` runs, read 1 then read 2, and each
   * URL is paired with the target file named after the same read.
   */
  lemma FastqTraceShape(outdir: string, acc: string, sample: string)
    ensures FastqTrace(outdir, acc, sample) ==
      [Exec(["curl", "-L", ReadUrl(acc, "1"), "-o", OutFile(outdir, sample, "1")]),
       Exec(["curl", "-L", ReadUrl(acc, "2"), "-o", OutFile(outdir, sample, "2")])]
  {
    var t := FastqTrace(outdir, acc, sample);
    assert t[0] == Fetch(outdir, acc, sample, "1");
    assert t[1] == Fetch(outdir, acc, sample, "2");
  }

  /** The downloads of the first `i + 1` suffixes extend those of the first `i` by the i-th. */
  lemma FastqTraceStep(outdir: string, acc: string, sample: string, i: nat)
    requires i < |ReadSuffixes|
    ensures FastqTrace(outdir, acc, sample)[..i + 1] == FastqTrace(outdir, acc, sample)[..i]
      + [Exec(CurlArgv(BaseUrl(acc) + "_" + ReadSuffixes[i] + ".fastq.gz",
                       outdir + "/" + sample + "_R" + ReadSuffixes[i] + "_001.fastq.gz"))]
  {
    var t := FastqTrace(outdir, acc, sample);
    assert t[i] == Fetch(outdir, acc, sample, ReadSuffixes[i]);
    assert t[..i + 1] == t[..i] + [t[i]];
  }

  /** `get_fastq`: loops over the read suffixes, issuing one download each. */
  method GetFastq(outdir: string, acc: string, sample: string) returns (trace: seq<Event>)
    ensures trace == FastqTrace(outdir, acc, sample)
  {
    var base := BaseUrl(acc);
    trace := [];
    for i := 0 to |ReadSuffixes|
      invariant trace == FastqTrace(outdir, acc, sample)[..i]
    {
      var suffix := ReadSuffixes[i];
      var url := base + "_" + suffix + ".fastq.gz";
      var outfile := outdir + "/" + sample + "_R" + suffix + "_001.fastq.gz";
      FastqTraceStep(outdir, acc, sample, i);
      trace := trace + [Exec(CurlArgv(url, outfile))];
    }
  }

  /** `srr, sample_name = row` raises unless the row has exactly two fields. */
  datatype Failure = RowArity(fields: nat)

  function RowStep(outdir: string, row: seq<string>): Run<Event, Failure> {
    if |row| != 2 then Run([], Some(RowArity(|row|)))
    else Run(FastqTrace(outdir, row[0], row[1]), None)
  }

  function RowSteps(outdir: string): (nat, seq<string>) -> Run<Event, Failure> {
    (k: nat, row: seq<string>) => RowStep(outdir, row)
  }

  /**
   * `main`: rows are handled one at a time in file order. The paired flag is
   * read but not used, so the result does not depend on it.
   */
  method ProcessTable(outdir: string, rows: seq<seq<string>>, paired: bool)
    returns (trace: seq<Event>, failure: Option<Failure>)
    ensures Run(trace, failure) == RunAll(rows, RowSteps(outdir))
  {
    trace, failure := [], None;
    var i := 0;
    while i < |rows|
      invariant 0 <= i <= |rows|
      invariant failure.None?
      invariant Run(trace, failure) == RunAll(rows[..i], RowSteps(outdir))
    {
      var row := rows[i];
      RunAllStep(rows, i, RowSteps(outdir), trace);
      if |row| != 2 {
        failure := Some(RowArity(|row|));
        return;
      }
      var fetched := GetFastq(outdir, row[0], row[1]);
      trace := trace + fetched;
      i := i + 1;
    }
    assert rows[..i] == rows;
  }

  /** A table of well-formed rows downloads every row, in order. */
  lemma AllRowsDownloaded(outdir: string, rows: seq<seq<string>>)
    requires forall i :: 0 <= i < |rows| ==> |rows[i]| == 2
    ensures RunAll(rows, RowSteps(outdir)) == Run(Outputs(rows, RowSteps(outdir)), None)
    ensures |Outputs(rows, RowSteps(outdir))| == 2 * |rows|
  {
    RunAllCompletes(rows, RowSteps(outdir));
    OutputsLength(rows, outdir);
  }

  lemma {:induction false} OutputsLength(rows: seq<seq<string>>, outdir: string)
    requires forall i :: 0 <= i < |rows| ==> |rows[i]| == 2
    ensures |Outputs(rows, RowSteps(outdir))| == 2 * |rows|
  {
    if rows != [] {
      var init := rows[..|rows| - 1];
      assert forall i :: 0 <= i < |init| ==> init[i] == rows[i];
      OutputsLength(init, outdir);
    }
  }

  /**
   * The first row without exactly two fields ends the run with that error;
   * the rows before it have all been downloaded, the rows after it not at all.
   */
  lemma MalformedRowEndsRun(outdir: string, rows: seq<seq<string>>, k: nat)
    requires k < |rows| && |rows[k]| != 2
    requires forall i :: 0 <= i < k ==> |rows[i]| == 2
    ensures RunAll(rows, RowSteps(outdir)) == Run(Outputs(rows[..k], RowSteps(outdir)), Some(RowArity(|rows[k]|)))
  {
    RunAllStops(rows, k, RowSteps(outdir));
    assert rows[..k + 1][..k] == rows[..k];
  }
}
