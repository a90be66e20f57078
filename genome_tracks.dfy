/**
 * The genome-track plotting script: it collects the bigWig tracks named in a
 * base ini file, reads a list of genes, and for each gene looks up its GTF
 * interval, pads it by strand, writes a gene-specific copy of the ini file and
 * runs pyGenomeTracks on the padded region.
 */
module GenomeTracks {
  import opened Wrappers
  import opened Process
  import opened Batch
  import opened PyStr
  import PyPath

  const DefaultUpstream := 500
  const DefaultDownstream := 500
  const DefaultOutdir := "."
  const DefaultFormat := "pdf"
  const DefaultDpi := 300

  /** The command-line arguments of the script. */
  datatype Config = Config(
    ini: string, genes: string, gtf: string,
    upstream: int, downstream: int,
    outdir: string, format: string, dpi: int)

  /** The script's arguments when only the required ones (and the GTF file) are given. */
  function DefaultConfig(ini: string, genes: string, gtf: string): Config {
    Config(ini, genes, gtf, DefaultUpstream, DefaultDownstream, DefaultOutdir, DefaultFormat, DefaultDpi)
  }

  /**
   * A coordinate as the script holds it when it calls `bw.stats`: an `int` on
   * the `+` and `-` strands, where it was parsed and padded, and the GTF text
   * (a `str`) on any other strand.
   */
  datatype Coord = Num(n: int) | Text(s: string)

  /** How a coordinate is printed into the region string by the f-string. */
  function Show(c: Coord): (r: string)
    ensures c.Text? ==> r == c.s
    ensures c.Num? ==> ParseInt(r) == Some(c.n)
  {
    match c
    case Num(n) => ParseIntToString(n); IntToString(n)
    case Text(t) => t
  }

  /**
   * `ceil(1.05 * max)` over the per-track `bw.stats(chr, start, end, type="max")`
   * for the given chromosome, start and end, `None` when `bw.stats` raises on them.
   * A `Text` coordinate and the `Num` it spells are different arguments.
   */
  type Peak = (string, Coord, Coord) -> Option<int>

  /** What ends the script: each is an exception the script does not catch. */
  datatype Failure =
    | MissingEquals(line: string)              // `line.split("=")[1]` on a selected line with no `=`
    | LookupFailed(gene: string)               // `check_output` on the GTF pipeline raised
    | LineCount(gene: string, lines: nat)      // the `len(gene_info) == 1` assertion
    | FieldCount(gene: string, fields: nat)    // unpacking `gene_info[0].split()` into four names
    | NotAnInteger(gene: string, text: string) // `int(start)` or `int(end)`
    | NoBigWigs(gene: string)                  // `max` over the empty list of per-track maxima
    | StatsFailed(gene: string)                // `bw.stats` raised on the region (text or negative coordinates, unknown chromosome)
    | SameFile(path: string)                   // `shutil.copy` of the base ini onto itself

  /** The stem of the log file: the genes file's base name up to its first `.`. */
  function LogStem(genesPath: string): (r: string)
    ensures '.' !in r && '/' !in r
    ensures r <= PyPath.Basename(genesPath)
  {
    var base := PyPath.Basename(genesPath);
    SplitFirstIsPrefix(base, '.');
    SplitPiecesNoSep(base, '.');
    var r := Split(base, '.')[0];
    assert forall i :: 0 <= i < |r| ==> r[i] == base[i];
    r
  }

  function LogFileName(genesPath: string): string {
    "pyGenomeTracks_" + LogStem(genesPath) + ".log"
  }

  /** The log is named after the genes file's name without its directory and without any extension. */
  lemma LogFileNameOf(dir: string, stem: string, ext: string)
    requires dir == [] || dir[|dir| - 1] == '/'
    requires '/' !in stem && '/' !in ext && '.' !in stem
    ensures LogFileName(dir + stem + "." + ext) == "pyGenomeTracks_" + stem + ".log"
    ensures LogFileName(dir + stem) == "pyGenomeTracks_" + stem + ".log"
  {
    var name := stem + "." + ext;
    assert dir + stem + "." + ext == dir + name;
    LogStemWithExtension(dir, stem, ext);
    LogStemBare(dir, stem);
  }

  lemma LogStemWithExtension(dir: string, stem: string, ext: string)
    requires dir == [] || dir[|dir| - 1] == '/'
    requires '/' !in stem && '/' !in ext && '.' !in stem
    ensures LogStem(dir + (stem + "." + ext)) == stem
  {
    var name := stem + ['.'] + ext;
    assert stem + "." + ext == name;
    assert '/' !in name;
    PyPath.BasenameAfter(dir, name);
    SplitFirst(stem, ext, '.');
  }

  lemma LogStemBare(dir: string, stem: string)
    requires dir == [] || dir[|dir| - 1] == '/'
    requires '/' !in stem && '.' !in stem
    ensures LogStem(dir + stem) == stem
  {
    PyPath.BasenameAfter(dir, stem);
    SplitNoSep(stem, '.');
  }

  /**
   * The ini-line test. Python's `and` binds tighter than `or`, so a line whose
   * lower-case form mentions `.bigwig` is selected whether or not it holds `file = `.
   */
  predicate IsTrackLine(line: string) {
    (Contains(line, "file = ") && Contains(Lower(line), ".bw")) || Contains(Lower(line), ".bigwig")
  }

  /**
   * The extension test ignores case, and a `.bigwig` line is selected even
   * without `file = ` in it.
   */
  lemma BigWigAnyCase(pre: string, ext: string, post: string)
    requires Lower(ext) == ".bigwig"
    ensures IsTrackLine(pre + ext + post)
  {
    LowerAppend(pre + ext, post);
    LowerAppend(pre, ext);
    ContainsMiddle(Lower(pre), ".bigwig", Lower(post));
  }

  /** `line.split("=")[1].strip()`: `None` where the index raises. */
  function TrackPath(line: string): Option<string> {
    var parts := Split(line, '=');
    if |parts| < 2 then None else Some(Strip(parts[1]))
  }

  /** The path is the text between the first and the second `=`, stripped. */
  lemma TrackPathBetweenEquals(pre: string, mid: string, post: string)
    requires '=' !in pre && '=' !in mid
    requires post == [] || post[0] == '='
    ensures TrackPath(pre + "=" + mid + post) == Some(Strip(mid))
  {
    var line := pre + "=" + mid + post;
    assert line == pre + ['='] + (mid + post);
    SplitFirst(pre, mid + post, '=');
    var tail := Split(mid + post, '=');
    if post == [] {
      assert mid + post == mid;
      SplitNoSep(mid, '=');
    } else {
      assert mid + post == mid + ['='] + post[1..];
      SplitFirst(mid, post[1..], '=');
    }
    assert tail[0] == mid;
    assert Split(line, '=') == [pre] + tail;
  }

  /** The path lookup fails exactly on lines without `=`. */
  lemma TrackPathNeedsEquals(line: string)
    ensures TrackPath(line).None? <==> '=' !in line
  {
    var parts := Split(line, '=');
    JoinSplit(line, '=');
    if |parts| >= 2 {
      assert Join(parts, '=') == parts[0] + ['='] + Join(parts[1..], '=');
      assert line[|parts[0]|] == '=';
    } else {
      SplitPiecesNoSep(line, '=');
      assert line == parts[0];
    }
  }

  function TrackStep(line: string): Run<string, Failure> {
    if !IsTrackLine(line) then Run([], None)
    else match TrackPath(line)
      case None => Run([], Some(MissingEquals(line)))
      case Some(p) => Run([p], None)
  }

  const TrackSteps: (nat, string) -> Run<string, Failure> := (k: nat, line: string) => TrackStep(line)

  /** The loop over the base ini file: the selected tracks' paths, in line order. */
  method LoadTracks(lines: seq<string>) returns (bigwigs: seq<string>, failure: Option<Failure>)
    ensures Run(bigwigs, failure) == RunAll(lines, TrackSteps)
  {
    bigwigs, failure := [], None;
    var i := 0;
    while i < |lines|
      invariant 0 <= i <= |lines|
      invariant failure.None?
      invariant Run(bigwigs, failure) == RunAll(lines[..i], TrackSteps)
    {
      var line := lines[i];
      RunAllStep(lines, i, TrackSteps, bigwigs);
      if IsTrackLine(line) {
        var parts := Split(line, '=');
        if |parts| < 2 {
          failure := Some(MissingEquals(line));
          return;
        }
        bigwigs := bigwigs + [Strip(parts[1])];
      }
      i := i + 1;
    }
    assert lines[..i] == lines;
  }

  /** The gene names: every line of the gene file, stripped, in order. */
  function GeneNames(lines: seq<string>): seq<string> {
    seq(|lines|, i requires 0 <= i < |lines| => Strip(lines[i]))
  }

  method LoadGenes(lines: seq<string>) returns (genes: seq<string>)
    ensures |genes| == |lines|
    ensures forall i :: 0 <= i < |lines| ==> genes[i] == Strip(lines[i])
    ensures genes == GeneNames(lines)
  {
    genes := [];
    for i := 0 to |lines|
      invariant |genes| == i
      invariant forall k :: 0 <= k < i ==> genes[k] == Strip(lines[k])
    {
      genes := genes + [Strip(lines[i])];
    }
  }

  /**
   * Strand-aware padding: upstream lies before the start on the `+` strand and
   * after the end on the `-` strand; any other strand leaves the interval as it is.
   */
  function Pad(strand: string, start: int, end: int, upstream: int, downstream: int): (r: (int, int))
    ensures (strand == "+" || strand == "-") ==> r.1 - r.0 == (end - start) + upstream + downstream
    ensures upstream >= 0 && downstream >= 0 ==> r.0 <= start && end <= r.1
    ensures strand != "+" && strand != "-" ==> r == (start, end)
  {
    if strand == "+" then (start - upstream, end + downstream)
    else if strand == "-" then (start - downstream, end + upstream)
    else (start, end)
  }

  /** With the default 500 bases each way, a stranded gene grows by 1000 bases and keeps its interval inside. */
  lemma DefaultPadding(ini: string, genes: string, gtf: string, strand: string, start: int, end: int)
    requires strand == "+" || strand == "-"
    ensures var cfg := DefaultConfig(ini, genes, gtf);
      var r := Pad(strand, start, end, cfg.upstream, cfg.downstream);
      r.0 <= start && end <= r.1 && r.1 - r.0 == (end - start) + 1000
  {
    var cfg := DefaultConfig(ini, genes, gtf);
    var r := Pad(strand, start, end, cfg.upstream, cfg.downstream);
    assert cfg.upstream == 500 && cfg.downstream == 500;
  }

  /** Padding a `-` gene by (u, d) is padding a `+` gene by (d, u). */
  lemma PadStrandSymmetry(start: int, end: int, u: int, d: int)
    ensures Pad("-", start, end, u, d) == Pad("+", start, end, d, u)
    ensures Pad("+", start, end, u, d) == (start - u, end + d)
  {
  }

  /**
   * The coordinates that reach the region string: on `+` and `-` they are
   * parsed (start first), padded and printed again; otherwise they are the
   * GTF text untouched, because `int` is never called.
   */
  function Padded(gene: string, strand: string, start: string, end: string, upstream: int, downstream: int)
    : (r: Result<(Coord, Coord), Failure>)
    ensures strand != "+" && strand != "-" ==> r == Ok((Text(start), Text(end)))
    ensures (strand == "+" || strand == "-") && r.Ok? ==> r.value.0.Num? && r.value.1.Num?
    ensures (strand == "+" || strand == "-") ==>
      (r.Ok? <==> ParseInt(start).Some? && ParseInt(end).Some?)
  {
    if strand != "+" && strand != "-" then Ok((Text(start), Text(end)))
    else match ParseInt(start)
      case None => Err(NotAnInteger(gene, start))
      case Some(s) =>
        match ParseInt(end)
        case None => Err(NotAnInteger(gene, end))
        case Some(e) =>
          var r := Pad(strand, s, e, upstream, downstream);
          Ok((Num(r.0), Num(r.1)))
  }

  function AwkCommand(gtf: string, gene: string): string {
    "awk '{if ($3 == \"gene\") {print $0}}' " + gtf
      + " | grep -w 'gene_name \"" + gene + "\";' |awk '{print $1, $4, $5, $7}'"
  }

  /** `output.strip().split("\n")`: the lines of the GTF lookup. */
  function GeneLines(output: string): seq<string> {
    Split(Strip(output), '\n')
  }

  function IniCopyPath(ini: string, gene: string): string {
    PyPath.Join(PyPath.Dirname(ini), gene + ".ini")
  }

  /**
   * The gene's ini copy is `<directory of the base ini>/<gene>.ini`, or
   * `<gene>.ini` when the base ini path names no directory.
   */
  lemma IniCopyNextToIni(dir: string, base: string, gene: string)
    requires '/' !in base
    requires gene == [] || gene[0] != '/'
    ensures dir != [] && dir[|dir| - 1] != '/' ==> IniCopyPath(dir + "/" + base, gene) == dir + "/" + gene + ".ini"
    ensures IniCopyPath(base, gene) == gene + ".ini"
  {
    PyPath.DirnameAfter(dir, base);
    assert (gene + ".ini")[0] == if gene == [] then '.' else gene[0];
  }

  function PlotPath(outdir: string, gene: string, format: string): string {
    PyPath.Join(outdir, gene + "." + format)
  }

  /** The plot is `<outdir>/<gene>.<format>`; with the default output directory, `./<gene>.<format>`. */
  lemma PlotPathLayout(outdir: string, gene: string, format: string)
    requires gene == [] || gene[0] != '/'
    requires outdir != [] && outdir[|outdir| - 1] != '/'
    ensures PlotPath(outdir, gene, format) == outdir + "/" + gene + "." + format
    ensures PlotPath(DefaultOutdir, gene, format) == "./" + gene + "." + format
  {
    assert (gene + "." + format)[0] == if gene == [] then '.' else gene[0];
  }

  function Region(chrom: string, start: string, end: string): string {
    chrom + ":" + start + "-" + end
  }

  /**
   * The region string can be read back when its start holds no `-`: the
   * chromosome before the `:`, the start before the next `-`, the end after it.
   */
  lemma RegionFields(chrom: string, start: string, end: string)
    requires ':' !in chrom && ':' !in start && ':' !in end
    requires '-' !in start
    ensures Split(Region(chrom, start, end), ':') == [chrom, start + "-" + end]
    ensures Split(start + "-" + end, '-')[0] == start
    ensures (start + "-" + end)[|start| + 1..] == end
  {
    var range := start + "-" + end;
    assert Join([chrom, range], ':') == Region(chrom, start, end) by {
      assert [chrom, range][1..] == [range];
    }
    assert ':' !in range;
    SplitJoin([chrom, range], ':');
    assert range == start + ['-'] + end;
    SplitFirst(start, end, '-');
  }

  /**
   * A padded start below zero (a gene starting within `upstream` bases of the
   * chromosome start on `+`) is printed with its minus sign, so the range
   * reads `-s-e` and splitting it at `-` no longer gives the start first.
   */
  lemma NegativeStartRegion(chrom: string, start: int, end: string)
    requires start < 0
    ensures Region(chrom, IntToString(start), end) == chrom + ":-" + NatToString(-start) + "-" + end
    ensures Split(IntToString(start) + "-" + end, '-')[0] == ""
  {
    var range := IntToString(start) + "-" + end;
    assert range[0] == '-';
  }

  function SedCommand(maxValue: int, iniCopy: string): string {
    "sed -i 's/#max_value = auto/max_value= " + IntToString(maxValue) + "/g' " + iniCopy
  }

  function TracksCommand(iniCopy: string, region: string, output: string, dpi: int): string {
    "pyGenomeTracks --tracks " + iniCopy + " --region " + region + " --outFileName " + output + " --dpi " + IntToString(dpi)
  }

  /** The events of one gene once its region and its rounded-up maximum are known. */
  function PlotEvents(cfg: Config, gene: string, region: string, maxValue: int): seq<Event> {
    var iniCopy := IniCopyPath(cfg.ini, gene);
    [Copy(cfg.ini, iniCopy),
     Shell(SedCommand(maxValue, iniCopy)),
     Shell(TracksCommand(iniCopy, region, PlotPath(cfg.outdir, gene, cfg.format), cfg.dpi))]
  }

  /**
   * `gene_info = output.strip().split("\n")`, the one-line assertion and the
   * unpacking of that line's words into `chr, start, end, strand`.
   */
  function Locate(gene: string, output: string): (r: Result<seq<string>, Failure>)
    ensures r.Ok? <==> |GeneLines(output)| == 1 && |Words(GeneLines(output)[0])| == 4
    ensures r.Ok? ==> r.value == Words(GeneLines(output)[0]) && |r.value| == 4
    ensures |GeneLines(output)| != 1 ==> r == Err(LineCount(gene, |GeneLines(output)|))
  {
    var lines := GeneLines(output);
    if |lines| != 1 then Err(LineCount(gene, |lines|))
    else
      var fields := Words(lines[0]);
      if |fields| != 4 then Err(FieldCount(gene, |fields|))
      else Ok(fields)
  }

  /**
   * The chromosome and the two coordinates that reach the region string.
   * `lookup` gives the output of the GTF shell pipeline, `None` when
   * `check_output` raises.
   */
  function GeneCoords(cfg: Config, lookup: string -> Option<string>, gene: string)
    : Result<(string, Coord, Coord), Failure>
  {
    match lookup(AwkCommand(cfg.gtf, gene))
    case None => Err(LookupFailed(gene))
    case Some(out) =>
      match Locate(gene, out)
      case Err(e) => Err(e)
      case Ok(f) =>
        match Padded(gene, f[3], f[1], f[2], cfg.upstream, cfg.downstream)
        case Err(e) => Err(e)
        case Ok(c) => Ok((f[0], c.0, c.1))
  }

  /**
   * One iteration of the gene loop: the lookup always runs; the plot needs the
   * coordinates, at least one track and per-track maxima. `peak(chr, start, end)`
   * stands for `ceil(1.05 * max)` over the tracks' `bw.stats` on those
   * arguments, `None` when `bw.stats` raises on them. Copying the base ini
   * onto itself raises. A failing pyGenomeTracks run is logged and skipped by
   * the script, so it changes nothing here.
   */
  function GeneStep(cfg: Config, tracks: nat, lookup: string -> Option<string>, peak: Peak, gene: string)
    : Run<Event, Failure>
  {
    var lookedUp := [Shell(AwkCommand(cfg.gtf, gene))];
    match GeneCoords(cfg, lookup, gene)
    case Err(e) => Run(lookedUp, Some(e))
    case Ok(c) =>
      if tracks == 0 then Run(lookedUp, Some(NoBigWigs(gene)))
      else match peak(c.0, c.1, c.2)
        case None => Run(lookedUp, Some(StatsFailed(gene)))
        case Some(m) =>
          if IniCopyPath(cfg.ini, gene) == cfg.ini then Run(lookedUp, Some(SameFile(cfg.ini)))
          else Run(lookedUp + PlotEvents(cfg, gene, Region(c.0, Show(c.1), Show(c.2)), m), None)
  }

  function GeneSteps(cfg: Config, tracks: nat, lookup: string -> Option<string>, peak: Peak)
    : (nat, string) -> Run<Event, Failure>
  {
    (k: nat, gene: string) => GeneStep(cfg, tracks, lookup, peak, gene)
  }

  /** The whole script: the ini file is read first, then the genes are plotted in order. */
  function Script(cfg: Config, iniLines: seq<string>, geneLines: seq<string>,
                  lookup: string -> Option<string>, peak: Peak): Run<Event, Failure>
  {
    var tracks := RunAll(iniLines, TrackSteps);
    if tracks.failure.Some? then Run([], tracks.failure)
    else RunAll(GeneNames(geneLines), GeneSteps(cfg, |tracks.output|, lookup, peak))
  }

  /**
   * An empty lookup (no GTF line names the gene) passes the one-line assertion,
   * because stripping and splitting empty output leaves one empty line; the run
   * then ends at the four-field unpacking instead.
   */
  lemma EmptyLookupFailsAtUnpacking(cfg: Config, tracks: nat, lookup: string -> Option<string>, peak: Peak, gene: string)
    requires var out := lookup(AwkCommand(cfg.gtf, gene)); out.Some? && AllSpace(out.value)
    ensures GeneStep(cfg, tracks, lookup, peak, gene) == Run([Shell(AwkCommand(cfg.gtf, gene))], Some(FieldCount(gene, 0)))
  {
    var out := lookup(AwkCommand(cfg.gtf, gene)).value;
    StripUnique(out, "", "");
    assert out + "" + "" == out;
    assert GeneLines(out) == [""] by {
      assert Split("", '\n') == [""];
    }
    assert Locate(gene, out) == Err(FieldCount(gene, 0));
    assert GeneCoords(cfg, lookup, gene) == Err(FieldCount(gene, 0));
  }

  /**
   * A gene on the `+` strand whose lookup line reads `chrom start end +` runs
   * the lookup, asks `bw.stats` about the padded integers, copies the ini file
   * next to the base one, rewrites its maximum and plots the region
   * `chrom:(start - upstream)-(end + downstream)`. The copy raises instead
   * when it would land on the base ini itself. `LocateLine` shows which lookup
   * outputs read that way.
   */
  lemma PlusStrandGene(cfg: Config, tracks: nat, lookup: string -> Option<string>, peak: Peak,
                       gene: string, chrom: string, start: int, end: int, maxValue: int)
    requires tracks > 0
    requires var out := lookup(AwkCommand(cfg.gtf, gene));
      out.Some? && Locate(gene, out.value) == Ok([chrom, IntToString(start), IntToString(end), "+"])
    requires peak(chrom, Num(start - cfg.upstream), Num(end + cfg.downstream)) == Some(maxValue)
    ensures IniCopyPath(cfg.ini, gene) != cfg.ini ==> GeneStep(cfg, tracks, lookup, peak, gene) == Run(
      [Shell(AwkCommand(cfg.gtf, gene))]
        + PlotEvents(cfg, gene, Region(chrom, IntToString(start - cfg.upstream), IntToString(end + cfg.downstream)), maxValue),
      None)
    ensures IniCopyPath(cfg.ini, gene) == cfg.ini ==>
      GeneStep(cfg, tracks, lookup, peak, gene) == Run([Shell(AwkCommand(cfg.gtf, gene))], Some(SameFile(cfg.ini)))
  {
    PaddedPlus(gene, start, end, cfg.upstream, cfg.downstream);
    assert GeneCoords(cfg, lookup, gene) == Ok((chrom, Num(start - cfg.upstream), Num(end + cfg.downstream)));
  }

  /** A base ini named after the gene is its own ini copy. */
  lemma IniNamedAfterGene(dir: string, gene: string)
    requires dir != [] && dir[|dir| - 1] != '/'
    requires '/' !in gene
    ensures IniCopyPath(dir + "/" + gene + ".ini", gene) == dir + "/" + gene + ".ini"
  {
    var name := gene + ".ini";
    var path := dir + "/" + name;
    assert path == dir + "/" + gene + ".ini";
    assert '/' !in name;
    PyPath.DirnameAfter(dir, name);
    assert name[0] != '/';
  }

  /**
   * The ini copy is the base ini itself when the base ini is named after the
   * gene (`dir/tracks.ini` and gene `tracks`); `shutil.copy` then raises and
   * the script ends before the `sed` rewrite and the plot.
   */
  lemma CopyOntoBaseIni(cfg: Config, tracks: nat, lookup: string -> Option<string>, peak: Peak,
                        dir: string, gene: string)
    requires dir != [] && dir[|dir| - 1] != '/'
    requires '/' !in gene
    requires cfg.ini == dir + "/" + gene + ".ini"
    requires tracks > 0
    requires var c := GeneCoords(cfg, lookup, gene); c.Ok? && peak(c.value.0, c.value.1, c.value.2).Some?
    ensures GeneStep(cfg, tracks, lookup, peak, gene) == Run([Shell(AwkCommand(cfg.gtf, gene))], Some(SameFile(cfg.ini)))
  {
    IniNamedAfterGene(dir, gene);
  }

  /** The `bw.stats` that accepts integer coordinates only. */
  function NumbersOnly(): Peak {
    (c: string, s: Coord, e: Coord) => if s.Num? && e.Num? then Some(0) else None
  }

  /**
   * `bw.stats` is handed integers on a stranded gene and the GTF text on any
   * other strand: a `bw.stats` that refuses text coordinates plots the `+`
   * gene and ends the script on the unstranded gene with the same numbers.
   */
  lemma StatsSeesIntsOrText(cfg: Config, tracks: nat, plusLookup: string -> Option<string>,
                            otherLookup: string -> Option<string>,
                            gene: string, chrom: string, start: int, end: int, strand: string)
    requires tracks > 0 && strand != "+" && strand != "-"
    requires IniCopyPath(cfg.ini, gene) != cfg.ini
    requires var out := plusLookup(AwkCommand(cfg.gtf, gene));
      out.Some? && Locate(gene, out.value) == Ok([chrom, IntToString(start), IntToString(end), "+"])
    requires var out := otherLookup(AwkCommand(cfg.gtf, gene));
      out.Some? && Locate(gene, out.value) == Ok([chrom, IntToString(start), IntToString(end), strand])
    ensures GeneStep(cfg, tracks, plusLookup, NumbersOnly(), gene).failure.None?
    ensures GeneStep(cfg, tracks, otherLookup, NumbersOnly(), gene).failure == Some(StatsFailed(gene))
  {
    var peak := NumbersOnly();
    assert peak(chrom, Num(start - cfg.upstream), Num(end + cfg.downstream)) == Some(0);
    PlusStrandGene(cfg, tracks, plusLookup, peak, gene, chrom, start, end, 0);
    assert peak(chrom, Text(IntToString(start)), Text(IntToString(end))).None?;
    UnstrandedGene(cfg, tracks, otherLookup, peak, gene, chrom, IntToString(start), IntToString(end), strand);
  }

  /**
   * On a strand other than `+` and `-` the GTF text itself is handed to
   * `bw.stats` and, if that accepts it, to the region string; if `bw.stats`
   * raises on text coordinates, the script ends there.
   */
  lemma UnstrandedGene(cfg: Config, tracks: nat, lookup: string -> Option<string>, peak: Peak,
                       gene: string, chrom: string, start: string, end: string, strand: string)
    requires tracks > 0 && strand != "+" && strand != "-"
    requires var out := lookup(AwkCommand(cfg.gtf, gene));
      out.Some? && Locate(gene, out.value) == Ok([chrom, start, end, strand])
    ensures peak(chrom, Text(start), Text(end)).None? ==>
      GeneStep(cfg, tracks, lookup, peak, gene) == Run([Shell(AwkCommand(cfg.gtf, gene))], Some(StatsFailed(gene)))
    ensures peak(chrom, Text(start), Text(end)).Some? && IniCopyPath(cfg.ini, gene) != cfg.ini ==>
      GeneStep(cfg, tracks, lookup, peak, gene) == Run(
        [Shell(AwkCommand(cfg.gtf, gene))]
          + PlotEvents(cfg, gene, chrom + ":" + start + "-" + end, peak(chrom, Text(start), Text(end)).value),
        None)
  {
    assert GeneCoords(cfg, lookup, gene) == Ok((chrom, Text(start), Text(end)));
  }

  /**
   * A lookup printing two or more lines (the gene named on several GTF gene
   * lines) fails the one-line assertion.
   */
  lemma SeveralLinesFail(gene: string, first: string, rest: string)
    requires first != [] && !IsSpace(first[0]) && '\n' !in first
    requires rest != [] && !IsSpace(rest[|rest| - 1])
    ensures Locate(gene, first + "\n" + rest).Err?
    ensures Locate(gene, first + "\n" + rest).error.LineCount? && Locate(gene, first + "\n" + rest).error.lines >= 2
  {
    var out := first + "\n" + rest;
    StripUnique("", out, "");
    assert "" + out + "" == out;
    assert out == first + ['\n'] + rest;
    SplitFirst(first, rest, '\n');
  }

  /** A lookup printing one line of words, newline-terminated, yields those words. */
  lemma LocateLine(gene: string, ws: seq<string>)
    requires |ws| == 4
    requires forall i :: 0 <= i < |ws| ==> ws[i] != [] && NoSpace(ws[i])
    ensures Locate(gene, Join(ws, ' ') + "\n") == Ok(ws)
  {
    var line := Join(ws, ' ');
    WordsJoin(ws);
    SplitJoinLine(ws);
    assert line != [] && !IsSpace(line[0]) && !IsSpace(line[|line| - 1]) by {
      JoinEnds(ws);
    }
    StripUnique("", line, "\n");
    assert "" + line + "\n" == line + "\n";
    SplitNoSep(line, '\n');
    assert GeneLines(line + "\n") == [line];
  }

  /** Printed integers on the `+` strand are parsed back and padded. */
  lemma PaddedPlus(gene: string, start: int, end: int, upstream: int, downstream: int)
    ensures Padded(gene, "+", IntToString(start), IntToString(end), upstream, downstream)
      == Ok((Num(start - upstream), Num(end + downstream)))
  {
    ParseIntToString(start);
    ParseIntToString(end);
  }

  /** A line of space-separated words holds no newline. */
  lemma SplitJoinLine(ws: seq<string>)
    requires forall i :: 0 <= i < |ws| ==> NoSpace(ws[i])
    ensures '\n' !in Join(ws, ' ')
  {
    if |ws| > 1 {
      SplitJoinLine(ws[1..]);
      assert '\n' !in ws[0] by { assert IsSpace('\n'); }
    } else if |ws| == 1 {
      assert '\n' !in ws[0] by { assert IsSpace('\n'); }
    }
  }

  /** Joining non-empty words starts and ends with a word character. */
  lemma JoinEnds(ws: seq<string>)
    requires |ws| >= 1
    requires forall i :: 0 <= i < |ws| ==> ws[i] != [] && NoSpace(ws[i])
    ensures var s := Join(ws, ' '); s != [] && s[0] == ws[0][0] && s[|s| - 1] == ws[|ws| - 1][|ws[|ws| - 1]| - 1]
  {
    if |ws| > 1 {
      JoinEnds(ws[1..]);
    }
  }

  /**
   * The strand branch of the gene loop: on `+` and `-` the coordinates are
   * parsed, start first, and reassigned padded; otherwise they stay as read.
   */
  method Reposition(gene: string, strand: string, start: string, end: string, upstream: int, downstream: int)
    returns (coords: Result<(Coord, Coord), Failure>)
    ensures coords == Padded(gene, strand, start, end, upstream, downstream)
  {
    var s, e := Text(start), Text(end);
    if strand == "+" || strand == "-" {
      var startValue := ParseInt(start);
      if startValue.None? {
        return Err(NotAnInteger(gene, start));
      }
      var endValue := ParseInt(end);
      if endValue.None? {
        return Err(NotAnInteger(gene, end));
      }
      if strand == "+" {
        s, e := Num(startValue.value - upstream), Num(endValue.value + downstream);
      } else {
        s, e := Num(startValue.value - downstream), Num(endValue.value + upstream);
      }
    }
    return Ok((s, e));
  }

  /** The body of the gene loop. */
  method PlotGene(cfg: Config, tracks: nat, lookup: string -> Option<string>, peak: Peak, gene: string)
    returns (events: seq<Event>, failure: Option<Failure>)
    ensures Run(events, failure) == GeneStep(cfg, tracks, lookup, peak, gene)
  {
    var awk := AwkCommand(cfg.gtf, gene);
    events, failure := [Shell(awk)], None;
    var out := lookup(awk);
    if out.None? {
      return events, Some(LookupFailed(gene));
    }
    var located := Locate(gene, out.value);
    if located.Err? {
      return events, Some(located.error);
    }
    var fields := located.value;
    var coords := Reposition(gene, fields[3], fields[1], fields[2], cfg.upstream, cfg.downstream);
    if coords.Err? {
      return events, Some(coords.error);
    }
    assert GeneCoords(cfg, lookup, gene) == Ok((fields[0], coords.value.0, coords.value.1));
    if tracks == 0 {
      return events, Some(NoBigWigs(gene));
    }
    var maxValue := peak(fields[0], coords.value.0, coords.value.1);
    if maxValue.None? {
      return events, Some(StatsFailed(gene));
    }
    var iniCopy := IniCopyPath(cfg.ini, gene);
    if iniCopy == cfg.ini {
      return events, Some(SameFile(cfg.ini));
    }
    events := events + PlotEvents(cfg, gene, Region(fields[0], Show(coords.value.0), Show(coords.value.1)), maxValue.value);
  }

  /** The gene loop: genes in file order, the first exception ending it. */
  method PlotGenes(cfg: Config, tracks: nat, genes: seq<string>, lookup: string -> Option<string>, peak: Peak)
    returns (trace: seq<Event>, failure: Option<Failure>)
    ensures Run(trace, failure) == RunAll(genes, GeneSteps(cfg, tracks, lookup, peak))
  {
    var steps := GeneSteps(cfg, tracks, lookup, peak);
    trace, failure := [], None;
    var i := 0;
    while i < |genes|
      invariant 0 <= i <= |genes|
      invariant failure.None?
      invariant Run(trace, failure) == RunAll(genes[..i], steps)
    {
      var gene := genes[i];
      var events, geneFailure := PlotGene(cfg, tracks, lookup, peak, gene);
      RunAllStep(genes, i, steps, trace);
      trace, failure := trace + events, geneFailure;
      if failure.Some? {
        return;
      }
      i := i + 1;
    }
    assert genes[..i] == genes;
  }

  /**
   * The script: name the log after the genes file, load the tracks, stop if
   * that raised, load the genes, plot them.
   */
  method RunScript(cfg: Config, iniLines: seq<string>, geneLines: seq<string>,
              lookup: string -> Option<string>, peak: Peak)
    returns (logFile: string, trace: seq<Event>, failure: Option<Failure>)
    ensures logFile == LogFileName(cfg.genes)
    ensures Run(trace, failure) == Script(cfg, iniLines, geneLines, lookup, peak)
  {
    logFile := "pyGenomeTracks_" + LogStem(cfg.genes) + ".log";
    var bigwigs, loadFailure := LoadTracks(iniLines);
    if loadFailure.Some? {
      return logFile, [], loadFailure;
    }
    var genes := LoadGenes(geneLines);
    assert genes == GeneNames(geneLines);
    trace, failure := PlotGenes(cfg, |bigwigs|, genes, lookup, peak);
  }
}
