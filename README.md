# seq-tools rules, modelled in Dafny

The seq-tools scripts fetch sequencing reads from ENA and SRA, check read
files against MD5 manifests, and plot gene regions with pyGenomeTracks. Most
of each script calls external programs. Each one also holds a small string,
integer or selection rule that can be stated exactly. This project models
those rules and proves what the scripts promise about them.

External programs are not interpreted. A run of a program is an `Event` in
a returned trace (`Process.Event`): an argument vector, a shell command line,
a copy or a move. Every `subprocess.run` result is discarded: none passes
`check=True`. The few places where an outcome matters are outcomes given as inputs:

- the GTF lookup's `check_output`, which raises on a non-zero exit;
- whether `pigz` left `F.gz` for `shutil.move`;
- whether `bw.stats` accepts its arguments, which are `int`s on the `+` and `-` strands and the GTF text on any other (`GenomeTracks.Coord`);
- whether `shutil.copy` copies the base ini onto itself, which it refuses.

The caught pyGenomeTracks failure changes nothing that is modelled.
Everything else the scripts get from the outside is a parameter too:

- `glob` results, `csv.reader` rows and the lines of the ini and gene files are sequences;
- the scratch directory of each SRA row and what its globs find is `Scratch`;
- the GTF lookup output, the file contents and the MD5 function are function-typed parameters.

Every script loop handles its items in order, and the first uncaught
exception ends the whole run. `Batch.RunAll` captures that shape once. It
returns the output so far and the exception that ended the run, if any.
Each loop that can raise is a `method` proved equal to `RunAll` of its
per-item step. The loops that cannot raise (`GetFastq`, `LoadGenes`,
`HashChunks`) are proved against their own specification functions.

Modules:

- `Wrappers`: the `Option` and `Result` types.
- `PyStr`: the Python `str` operations the scripts use. These are `strip`, ASCII `lower`, `in`, `split(sep)`, `split()` and `str(int)`/`int(str)`.
- `PyPath`: POSIX `os.path.join`, `basename` and `dirname`.
- `Process`: the event trace.
- `Batch`: the stop-at-first-exception loop.
- `EbiFastq`, `SraDownload`, `GenomeTracks`, `Md5Sums`: one module per script.

The scripts do less than their flags and help texts suggest:

- `ebi-fastq.py` always fetches reads 1 and 2. Its `--paired` flag is read into `paired` and never used. Each URL gets exactly one `curl`.
- In `sra-download.py`, the assertion on the archive count is not caught. A row with zero or several archives therefore ends the whole run, not just that row.
- `sra-download.py` and `md5sums.py` join paths with `os.path.join`. So an absolute sample name or manifest file name replaces the directory part, and the model keeps that.
- `pygenome_tracks.py` calls `int` on the GTF coordinates only on the `+` and `-` strands. On any other strand the raw GTF text is handed to `bw.stats`. Only if that call accepts it does the text reach the region string. If the call raises, the script ends with `StatsFailed`.

## Model

| member | source | states |
|---|---|---|
| `EbiFastq.LastTwo` | ebi-fastq.py:42 | `srr[-2:]` is the last two characters, or the whole accession when it is shorter than two |
| `EbiFastq.ShardPrefix` | ebi-fastq.py:45 | `srr[:6]` is the first six characters, or the whole accession when it is shorter |
| `EbiFastq.ShardLayout` | ebi-fastq.py:39-48 | for an accession of at least six characters, the base URL is `ftp://ftp.sra.ebi.ac.uk/vol1/fastq/acc[0:6]/0acc[-2:]/acc/acc` |
| `EbiFastq.ShortAccession` | ebi-fastq.py:42-45 | a short accession becomes its own prefix; below two characters the suffix is `"0"` plus the whole accession |
| `EbiFastq.FastqTraceShape` | ebi-fastq.py:33-54 | each row runs exactly two `curl -L url -o file` commands, read 1 then read 2; each URL `base_r.fastq.gz` goes with the target `outdir/sample_Rr_001.fastq.gz` of the same read r |
| `EbiFastq.GetFastq` | ebi-fastq.py:38-54 | the loop over `["1","2"]` issues exactly the downloads of `FastqTrace` |
| `EbiFastq.ProcessTable` | ebi-fastq.py:57-69 | rows are handled in file order; the first row without exactly two fields ends the run; the paired flag has no effect |
| `EbiFastq.AllRowsDownloaded` | ebi-fastq.py:65-69 | a table of two-field rows completes with two downloads per row, in row order |
| `EbiFastq.MalformedRowEndsRun` | ebi-fastq.py:67-69 | the first malformed row raises after every earlier row has been downloaded, and no later row is touched |
| `SraDownload.CompressTraceAt` | sra-download.py:66-75 | the i-th discovered FASTQ file F gets exactly one `pigz --processes T F` and then one move of `F.gz` to output name i, in discovery order |
| `SraDownload.CompressTargetsDistinct` | sra-download.py:68-75 | one `compress` call moves exactly as many files as it discovered, to pairwise distinct names |
| `SraDownload.OutputNamesDistinct` | sra-download.py:70-71 | different positions give different output names for the same sample and directory |
| `SraDownload.OutputNameRelative` | sra-download.py:71 | for a relative sample name, the i-th file (0-based) is named `targetdir/name_R{i+1}_001.fastq.gz` |
| `SraDownload.Compress` | sra-download.py:66-77 | the `enumerate` loop runs `pigz` and then the move for each file, and stops when a move finds no `.gz` |
| `SraDownload.CompressCompletes` | sra-download.py:68-75 | when `pigz` leaves a `.gz` for every file, `compress` completes with exactly the full compress-and-move trace |
| `SraDownload.MissingGzipEndsCompress` | sra-download.py:73-75 | the first file with no `.gz` ends the run at its move; earlier files are compressed and moved, that file has only been given to `pigz`, and later files are untouched |
| `SraDownload.DownloadNeedsOneArchive` | sra-download.py:39-51 | `download` gets past its assertion iff the glob finds exactly one archive; otherwise only `prefetch` has run, and neither the validator nor the converter |
| `SraDownload.RowStageOrder` | sra-download.py:39-63 | a row with one archive runs `prefetch`, `vdb-validate` and `fasterq-dump` with their fixed argument vectors, the last two on the same archive, and then compress (when every move succeeds) |
| `SraDownload.ExtraColumnsIgnored` | sra-download.py:100-101 | only `row[0]` (accession) and `row[1]` (sample) matter |
| `SraDownload.ArchiveMismatchEndsRun` | sra-download.py:99-106 | an archive-count mismatch ends the whole run after that row's `prefetch`; earlier rows are complete and later rows are untouched |
| `SraDownload.ProcessRow` | sra-download.py:99-106 | one iteration of the row loop: download into the row's scratch directory, then compress |
| `SraDownload.ProcessTable` | sra-download.py:80-109 | rows in file order, each in its own scratch directory, stopping at the first exception |
| `GenomeTracks.LogStem` | pygenome_tracks.py:65 | the log-name stem is a prefix of the genes file's base name and holds no `.` or `/` |
| `GenomeTracks.LogFileNameOf` | pygenome_tracks.py:65 | the log file for `dir/stem.ext` or `dir/stem` is `pyGenomeTracks_stem.log` |
| `GenomeTracks.BigWigAnyCase` | pygenome_tracks.py:79 | because `and` binds tighter than `or`, a line whose lower-case form holds `.bigwig` is selected even without `file = ` |
| `GenomeTracks.TrackPathBetweenEquals` | pygenome_tracks.py:80 | the path is the text between the first and the second `=`, stripped |
| `GenomeTracks.TrackPathNeedsEquals` | pygenome_tracks.py:80 | taking the path fails exactly on lines with no `=` |
| `GenomeTracks.LoadTracks` | pygenome_tracks.py:76-82 | the selected paths are kept in ini-line order; a selected line without `=` ends the script |
| `GenomeTracks.LoadGenes` | pygenome_tracks.py:85-88 | the gene names are the stripped lines of the gene file, in order, one per line |
| `GenomeTracks.DefaultPadding` | pygenome_tracks.py:37-44 | with the default 500/500 padding, a stranded gene grows by exactly 1000 and its interval stays inside |
| `GenomeTracks.Pad` | pygenome_tracks.py:100-105 | on `+`/`-` the width grows by exactly upstream + downstream; with non-negative padding the result contains the gene; any other strand leaves the interval unchanged |
| `GenomeTracks.PadStrandSymmetry` | pygenome_tracks.py:100-105 | padding a `-` gene by (u, d) equals padding a `+` gene by (d, u), and `+` moves start by u and end by d |
| `GenomeTracks.Reposition` | pygenome_tracks.py:98-105 | on `+`/`-` start then end are parsed with `int` and padded into integers; a non-integer raises; other strands keep the GTF text as text |
| `GenomeTracks.Padded` | pygenome_tracks.py:98-105 | on `+`/`-` the coordinates become integers and succeed iff both texts parse; on any other strand they stay the GTF strings |
| `GenomeTracks.Show` | pygenome_tracks.py:126 | the f-string prints an integer coordinate so that `int` reads it back, and a text coordinate as itself |
| `GenomeTracks.Locate` | pygenome_tracks.py:96-98 | the lookup succeeds iff its stripped output is one line of four words, which it returns; any other line count fails the assertion with that count |
| `GenomeTracks.SeveralLinesFail` | pygenome_tracks.py:96-97 | a gene matched by two or more GTF lines fails the one-line assertion |
| `GenomeTracks.LocateLine` | pygenome_tracks.py:96-98 | a lookup printing one line of four words yields those four words |
| `GenomeTracks.EmptyLookupFailsAtUnpacking` | pygenome_tracks.py:96-98 | an empty lookup passes the `len == 1` assertion (one empty line) and fails at the four-name unpacking |
| `GenomeTracks.IniCopyNextToIni` | pygenome_tracks.py:117 | the gene's ini copy is `dirname(ini)/gene.ini`, or `gene.ini` when the ini path has no directory |
| `GenomeTracks.PlotPathLayout` | pygenome_tracks.py:125 | the plot is `outdir/gene.format`; with the default outdir it is `./gene.format` |
| `GenomeTracks.RegionFields` | pygenome_tracks.py:126 | for a start without `-`, the region `chr:start-end` splits back into its chromosome, start and end |
| `GenomeTracks.NegativeStartRegion` | pygenome_tracks.py:100-126 | a padded start below zero is printed with its sign, giving `chr:-s-e`, whose range no longer splits back at `-` |
| `GenomeTracks.UnstrandedGene` | pygenome_tracks.py:98-126 | on a strand other than `+`/`-` the raw GTF strings go to `bw.stats`; if that raises, the script ends; otherwise those strings form the region |
| `GenomeTracks.StatsSeesIntsOrText` | pygenome_tracks.py:98-113 | a `bw.stats` that refuses text coordinates plots a `+` gene and ends the script on an unstranded gene with the same numbers |
| `GenomeTracks.CopyOntoBaseIni` | pygenome_tracks.py:117-118 | a base ini `dir/gene.ini` is its own copy, so `shutil.copy` raises and the script ends before the `sed` rewrite and the plot |
| `GenomeTracks.PlusStrandGene` | pygenome_tracks.py:91-126 | a `+` gene whose stats succeed on the padded integers runs the lookup, copies the ini, rewrites its maximum and plots `chr:(start-upstream)-(end+downstream)`; when the copy would land on the base ini it raises instead |
| `GenomeTracks.PlotGene` | pygenome_tracks.py:91-135 | one iteration of the gene loop equals `GeneStep`; a failing pyGenomeTracks run is skipped |
| `GenomeTracks.PlotGenes` | pygenome_tracks.py:91-135 | genes are plotted in file order, stopping at the first exception |
| `GenomeTracks.RunScript` | pygenome_tracks.py:65-135 | the log is named after the genes file; the ini file is read first, and an error there ends the script before any gene is looked up |
| `Md5Sums.SelectManifests` | md5sums.py:22-26 | the `*.md5` files are used when there are any; only otherwise the `*.md5sums.txt` files; with neither the script raises |
| `Md5Sums.Tidy` | md5sums.py:44 | the tidy row holds no empty token and is no longer than the row |
| `Md5Sums.TidyMembers` | md5sums.py:44 | a token survives the tidy iff it is non-empty |
| `Md5Sums.TidyAppend` | md5sums.py:44 | the tidy works token by token, so it keeps the token order |
| `Md5Sums.TidyIdempotent` | md5sums.py:44 | tidying twice is tidying once |
| `Md5Sums.Entry` | md5sums.py:44-47 | the fields can be taken iff the tidy row has at least two tokens; they are non-empty tokens of the row |
| `Md5Sums.EntrySkipsEmpties` | md5sums.py:44-47 | the checksum is the first non-empty token and the file the second, however many spaces come between; later tokens are ignored |
| `Md5Sums.ReadsPathLayout` | md5sums.py:14 | a relative file name is looked up as `reads/name`, an absolute one as itself |
| `Md5Sums.Hex` | md5sums.py:19 | `hexdigest` is two lower-case hex digits per digest byte |
| `Md5Sums.HexInjective` | md5sums.py:19 | different digests print differently |
| `Md5Sums.MatchCell` | md5sums.py:54 | the match column is `True` iff the manifest checksum equals the computed digest exactly |
| `Md5Sums.UpperCaseNeverMatches` | md5sums.py:54 | the comparison is case-sensitive: a checksum with an upper-case letter never matches |
| `Md5Sums.ReadAt` | md5sums.py:17 | `f.read(4096)` returns 4096 bytes, or fewer only at the end of the file |
| `Md5Sums.HashChunks` | md5sums.py:16-19 | the chunks concatenate to the whole file; all but the last hold 4096 bytes; there are ceil(n/4096) of them; the digest is that of the whole content |
| `Md5Sums.Md5` | md5sums.py:10-19 | `md5(file)` hashes the content of `reads/file`, or raises when it cannot be opened |
| `Md5Sums.CheckLine` | md5sums.py:42-54 | one manifest line writes `[file, txt, calculated, txt == calculated]` or raises |
| `Md5Sums.CheckManifest` | md5sums.py:38-54 | the lines of one manifest are checked in order, stopping at the first exception |
| `Md5Sums.CheckSums` | md5sums.py:22-54 | the script selects the manifests, writes the header, then checks every manifest in order |
| `Md5Sums.ReportShape` | md5sums.py:22-54 | with no manifest nothing is written; otherwise the CSV starts with the fixed four-column header and every row has four fields |
| `Md5Sums.LineRow` | md5sums.py:44-54 | a well-formed, readable line writes exactly its row; any other line writes nothing and raises |
| `Md5Sums.ManifestComplete` | md5sums.py:38-54 | a manifest of good lines writes exactly one row per line, in line order |
| `Md5Sums.ShortLineEndsManifest` | md5sums.py:42-47 | the first line with fewer than two non-empty tokens raises, after the rows of the earlier lines have been written |
| `PyStr.StripIdempotent` | pygenome_tracks.py:88 | stripping twice is stripping once |
| `PyStr.JoinSplit` | pygenome_tracks.py:80 | joining the pieces of `split(sep)` with `sep` gives the string back |
| `PyStr.SplitJoin` | pygenome_tracks.py:126 | splitting parts joined with `sep` gives the parts back when none holds `sep` |
| `PyStr.ParseIntToString` | pygenome_tracks.py:100-105 | `int(str(n)) == n` |
| `Batch.RunAllStops` | sra-download.py:99-106 | when item k is the first to raise, the run ends with its exception and holds the outputs of items 0 to k |
| `Batch.RunAllCompletes` | ebi-fastq.py:67-69 | when no item raises, the run holds every item's output in order |

## Left out

- External programs: `curl`, `prefetch`, `vdb-validate`, `fasterq-dump`, `pigz`, the awk/grep GTF lookup, the `sed` rewrite and `pyGenomeTracks`. Each is an event in the trace. The GTF lookup output is a parameter.
- Exit statuses of `curl`, `prefetch`, `vdb-validate`, `fasterq-dump`, `pigz` and `sed`: the scripts discard them, so they are not modelled. The exception is `pigz`'s effect on the following move. The failure of `pyGenomeTracks` is caught and logged, so it ends nothing. There are no retries in the code.
- `pyBigWig.open` and `pyBigWig.stats`, and `math.ceil(max * 1.05)` at pygenome_tracks.py:110-113. These are floating point on top of a library. The parameter `peak` gives the rounded maximum for a chromosome, start and end, or `None` where `bw.stats` raises. Which inputs make it raise is not modelled: text or negative coordinates, or a chromosome missing from a track. The failure of `max` on an empty track list is kept.
- `pyBigWig.open` failing on a selected path is not modelled either: the model only collects the paths.
- `GenomeTracks.GeneStep`: the ini copy is assumed to succeed unless its path string equals the base ini's. A copy onto the same file under another spelling or through a link, and a missing or unreadable base ini, are not modelled.
- The `print` calls at ebi-fastq.py:53 and md5sums.py:45 write progress lines to the console. The `print` at md5sums.py:45 indexes `row[1]` before `row[0]` is read, and the model's `ShortRow` failure covers that index.
- MD5 itself: `hashlib` is an uninterpreted function from the bytes fed so far to the digest bytes.
- `glob` ordering and matching, `csv.reader` tokenising, and reading ini and gene files into lines. Their results are inputs.
- Filesystem and process plumbing: argparse, logging and timestamps, `os.makedirs`, `TemporaryDirectory` lifetime, `shutil.copy`/`move` effects, and writing the CSV file. The copy and the move appear as events, and each one's failure is modelled only where the model can name its cause: the move of a `.gz` that `pigz` did not leave (`NoCompressedFile`) and the copy of the base ini onto itself (`SameFile`, detected by equal path strings).
- The SRA thread count is `str(args.threads)`, taken as a string parameter. It is `"None"` when the flag is absent. `pigz` then compresses nothing. In the model that is a `Scratch.gzipped` that is false for every file, so the first move raises `NoCompressedFile`.
- `PyStr.Lower`: does not model Unicode case mapping beyond ASCII letters, because the strings it is tested against (`.bw`, `.bigwig`) are ASCII.
- `PyStr.ParseInt`: accepts an optional sign and ASCII digits only. It does not model surrounding whitespace, underscores or non-ASCII digits, which Python's `int` also accepts.
- rename.py is not part of this model. It is a plain rename loop.
