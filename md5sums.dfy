/**
 * The checksum checker: it picks the manifest files in the reads directory,
 * writes a CSV header, and for every manifest line recomputes the MD5 of the
 * named file, read in 4096-byte chunks, writing one row per line with the
 * manifest checksum, the computed one and whether they are equal.
 */
module Md5Sums {
  import opened Wrappers
  import opened Batch
  import PyPath

  newtype byte = x: int | 0 <= x < 256

  const ChunkSize := 4096
  const ReadsDir := "reads"
  const Header: seq<string> := ["file", "md5sum_txt", "md5sum_calculated", "md5sum_match"]

  /** What ends the script: no manifest at all, a manifest line without two tokens, a missing file. */
  datatype Failure = NoManifests | ShortRow(tokens: nat) | Unreadable(path: string)

  /** `*.md5` manifests win; `*.md5sums.txt` ones are only looked for when there is none. */
  function SelectManifests(md5s: seq<string>, txts: seq<string>): (r: Option<seq<string>>)
    ensures r.None? <==> md5s == [] && txts == []
    ensures md5s != [] ==> r == Some(md5s)
    ensures md5s == [] && txts != [] ==> r == Some(txts)
  {
    if md5s != [] then Some(md5s)
    else if txts != [] then Some(txts)
    else None
  }

  /** `[x for x in row if x != ""]`: the tokens between runs of spaces. */
  function Tidy(row: seq<string>): (r: seq<string>)
    ensures |r| <= |row|
    ensures forall i :: 0 <= i < |r| ==> r[i] != ""
  {
    if row == [] then []
    else (if row[0] == "" then [] else [row[0]]) + Tidy(row[1..])
  }

  /** The tidy keeps exactly the non-empty tokens. */
  lemma {:induction false} TidyMembers(row: seq<string>, x: string)
    ensures x in Tidy(row) <==> x in row && x != ""
  {
    if row != [] {
      TidyMembers(row[1..], x);
      assert row == [row[0]] + row[1..];
    }
  }

  /** The tidy keeps the order of the tokens: it works piece by piece. */
  lemma {:induction false} TidyAppend(a: seq<string>, b: seq<string>)
    ensures Tidy(a + b) == Tidy(a) + Tidy(b)
  {
    if a != [] {
      var head := if a[0] == "" then [] else [a[0]];
      assert (a + b)[0] == a[0] && (a + b)[1..] == a[1..] + b;
      TidyAppend(a[1..], b);
      assert Tidy(a + b) == head + (Tidy(a[1..]) + Tidy(b));
    } else {
      assert a + b == b;
    }
  }

  /** Tidying a tidy row changes nothing. */
  lemma {:induction false} TidyIdempotent(row: seq<string>)
    ensures Tidy(Tidy(row)) == Tidy(row)
  {
    if row != [] {
      var head := if row[0] == "" then [] else [row[0]];
      TidyAppend(head, Tidy(row[1..]));
      TidyIdempotent(row[1..]);
    }
  }

  /** A row of empty tokens tidies to nothing. */
  lemma {:induction false} TidyEmpties(row: seq<string>)
    requires forall i :: 0 <= i < |row| ==> row[i] == ""
    ensures Tidy(row) == []
  {
    if row != [] {
      TidyEmpties(row[1..]);
    }
  }

  /**
   * `row[0]` and `row[1]` of the tidy row: the manifest checksum and the file
   * name. Fewer than two non-empty tokens raise at the index.
   */
  function Entry(row: seq<string>): (r: Result<(string, string), Failure>)
    ensures r.Ok? <==> |Tidy(row)| >= 2
    ensures r.Ok? ==> r.value.0 != "" && r.value.1 != "" && r.value.0 in row && r.value.1 in row
  {
    var t := Tidy(row);
    if |t| < 2 then Err(ShortRow(|t|))
    else
      TidyMembers(row, t[0]);
      TidyMembers(row, t[1]);
      Ok((t[0], t[1]))
  }

  /**
   * The checksum is the first non-empty token and the file the second, however
   * many spaces separate them; later tokens are ignored.
   */
  lemma EntrySkipsEmpties(lead: seq<string>, sum: string, gap: seq<string>, file: string, rest: seq<string>)
    requires forall i :: 0 <= i < |lead| ==> lead[i] == ""
    requires forall i :: 0 <= i < |gap| ==> gap[i] == ""
    requires sum != "" && file != ""
    ensures Entry(lead + [sum] + gap + [file] + rest) == Ok((sum, file))
  {
    TidyEmpties(lead);
    TidyEmpties(gap);
    TidyAppend(lead + [sum] + gap + [file], rest);
    TidyAppend(lead + [sum] + gap, [file]);
    TidyAppend(lead + [sum], gap);
    TidyAppend(lead, [sum]);
  }

  /** The file a manifest names, looked up under the reads directory. */
  function ReadsPath(file: string): string {
    PyPath.Join(ReadsDir, file)
  }

  /** A relative name is looked up as `reads/<name>`; an absolute one as itself. */
  lemma ReadsPathLayout(file: string)
    ensures (file == [] || file[0] != '/') ==> ReadsPath(file) == "reads/" + file
    ensures (file != [] && file[0] == '/') ==> ReadsPath(file) == file
  {
  }

  /** One lower-case hex digit. */
  function Nibble(n: int): (c: char)
    requires 0 <= n < 16
    ensures IsHexDigit(c)
  {
    if n < 10 then (48 + n) as char else (87 + n) as char
  }

  predicate IsHexDigit(c: char) {
    '0' <= c <= '9' || 'a' <= c <= 'f'
  }

  /** `hexdigest()`: two lower-case hex digits per digest byte, high nibble first. */
  function Hex(d: seq<byte>): (r: string)
    ensures |r| == 2 * |d|
    ensures forall i :: 0 <= i < |r| ==> IsHexDigit(r[i])
  {
    if d == [] then []
    else [Nibble(d[0] as int / 16), Nibble(d[0] as int % 16)] + Hex(d[1..])
  }

  /** A byte is determined by its two printed digits. */
  lemma HexPair(x: byte, y: byte)
    requires Nibble(x as int / 16) == Nibble(y as int / 16)
    requires Nibble(x as int % 16) == Nibble(y as int % 16)
    ensures x == y
  {
    var a, b, c, e := x as int / 16, y as int / 16, x as int % 16, y as int % 16;
    assert a == b && c == e;
    assert x as int == 16 * a + c && y as int == 16 * b + e;
  }

  /** Different digests print differently. */
  lemma {:induction false} HexInjective(d: seq<byte>, e: seq<byte>)
    requires Hex(d) == Hex(e)
    ensures d == e
  {
    if d != [] {
      var h, k := Hex(d), Hex(e);
      assert e != [];
      assert h[0] == k[0] && h[1] == k[1];
      HexPair(d[0], e[0]);
      assert h[2..] == Hex(d[1..]) && k[2..] == Hex(e[1..]);
      HexInjective(d[1..], e[1..]);
      assert d == [d[0]] + d[1..] && e == [e[0]] + e[1..];
    }
  }

  /** The written form of the Python comparison, as `csv` prints a bool. */
  function MatchCell(txt: string, calculated: string): (r: string)
    ensures r == "True" <==> txt == calculated
    ensures r == "True" || r == "False"
  {
    if txt == calculated then "True" else "False"
  }

  /** The comparison is case-sensitive: a checksum written with an upper-case letter never matches. */
  lemma UpperCaseNeverMatches(txt: string, d: seq<byte>, i: nat)
    requires i < |txt| && 'A' <= txt[i] <= 'Z'
    ensures MatchCell(txt, Hex(d)) == "False"
  {
  }

  /** `f.read(n)` at offset `pos`: at most `n` bytes, fewer only at the end of the file. */
  function ReadAt(content: seq<byte>, pos: nat, n: nat): (r: seq<byte>)
    requires pos <= |content|
    ensures |r| == if pos + n <= |content| then n else |content| - pos
    ensures r == content[pos..pos + |r|]
  {
    if pos + n <= |content| then content[pos..pos + n] else content[pos..]
  }

  /** The chunks fed to the hash, concatenated in order. */
  function Flatten(chunks: seq<seq<byte>>): seq<byte> {
    if chunks == [] then []
    else Flatten(chunks[..|chunks| - 1]) + chunks[|chunks| - 1]
  }

  /** Every chunk is a non-empty read of at most `ChunkSize` bytes; all but the last are full. */
  predicate WellChunked(chunks: seq<seq<byte>>) {
    && (forall i :: 0 <= i < |chunks| ==> 0 < |chunks[i]| <= ChunkSize)
    && (forall i :: 0 <= i < |chunks| - 1 ==> |chunks[i]| == ChunkSize)
  }

  /** Appending a read keeps the chunks well formed when the chunks so far end on a full one. */
  lemma WellChunkedSnoc(chunks: seq<seq<byte>>, c: seq<byte>)
    requires WellChunked(chunks)
    requires chunks != [] ==> |chunks[|chunks| - 1]| == ChunkSize
    requires 0 < |c| <= ChunkSize
    ensures WellChunked(chunks + [c])
  {
  }

  /** The number of reads of a file of `n` bytes, for `k` non-empty reads covering it. */
  lemma ChunkCount(n: nat, k: nat)
    requires ChunkSize * k == n || ChunkSize * (k - 1) < n < ChunkSize * k
    ensures k == (n + ChunkSize - 1) / ChunkSize
  {
  }

  /**
   * `md5` once the file is open: chunks are read until a read comes back empty
   * and each is fed to the hash. `md5` stands for the MD5 function, which
   * `hashlib` computes incrementally over the bytes fed so far.
   */
  method HashChunks(content: seq<byte>, md5: seq<byte> -> seq<byte>) returns (hex: string, chunks: seq<seq<byte>>)
    ensures hex == Hex(md5(content))
    ensures Flatten(chunks) == content
    ensures WellChunked(chunks)
    ensures |chunks| == (|content| + ChunkSize - 1) / ChunkSize
  {
    var fed: seq<byte> := [];
    var pos := 0;
    chunks := [];
    var chunk := ReadAt(content, pos, ChunkSize);
    while chunk != []
      invariant pos <= |content|
      invariant chunk == ReadAt(content, pos, ChunkSize)
      invariant fed == content[..pos] == Flatten(chunks)
      invariant WellChunked(chunks)
      invariant pos == ChunkSize * |chunks| || (pos == |content| && ChunkSize * (|chunks| - 1) < pos < ChunkSize * |chunks|)
      invariant chunks != [] && |chunks[|chunks| - 1]| < ChunkSize ==> pos == |content|
      decreases |content| - pos
    {
      WellChunkedSnoc(chunks, chunk);
      assert content[..pos + |chunk|] == content[..pos] + chunk;
      assert (chunks + [chunk])[..|chunks|] == chunks;
      fed := fed + chunk;
      chunks := chunks + [chunk];
      pos := pos + |chunk|;
      chunk := ReadAt(content, pos, ChunkSize);
    }
    assert content[..pos] == content;
    ChunkCount(|content|, |chunks|);
    hex := Hex(md5(fed));
  }

  /** `md5(file)`: `None` where opening `reads/<file>` raises. */
  function FileDigest(files: string -> Option<seq<byte>>, md5: seq<byte> -> seq<byte>, file: string): Option<string> {
    match files(ReadsPath(file))
    case None => None
    case Some(content) => Some(Hex(md5(content)))
  }

  method Md5(files: string -> Option<seq<byte>>, md5: seq<byte> -> seq<byte>, file: string)
    returns (hex: Option<string>)
    ensures hex == FileDigest(files, md5, file)
  {
    var path := PyPath.Join(ReadsDir, file);
    var content := files(path);
    if content.None? {
      return None;
    }
    var h, chunks := HashChunks(content.value, md5);
    hex := Some(h);
  }

  /** One manifest line: the row the script writes for it, or the exception it raises. */
  function LineStep(files: string -> Option<seq<byte>>, md5: seq<byte> -> seq<byte>, row: seq<string>)
    : Run<seq<string>, Failure>
  {
    match Entry(row)
    case Err(e) => Run([], Some(e))
    case Ok(entry) =>
      var (txt, file) := entry;
      match FileDigest(files, md5, file)
      case None => Run([], Some(Unreadable(ReadsPath(file))))
      case Some(calculated) => Run([[file, txt, calculated, MatchCell(txt, calculated)]], None)
  }

  function LineSteps(files: string -> Option<seq<byte>>, md5: seq<byte> -> seq<byte>)
    : (nat, seq<string>) -> Run<seq<string>, Failure>
  {
    (k: nat, row: seq<string>) => LineStep(files, md5, row)
  }

  /** One manifest file: its lines in order. `rowsOf` stands for what `csv.reader` yields for it. */
  function ManifestStep(rowsOf: string -> seq<seq<string>>, files: string -> Option<seq<byte>>,
                        md5: seq<byte> -> seq<byte>, manifest: string): Run<seq<string>, Failure>
  {
    RunAll(rowsOf(manifest), LineSteps(files, md5))
  }

  function ManifestSteps(rowsOf: string -> seq<seq<string>>, files: string -> Option<seq<byte>>, md5: seq<byte> -> seq<byte>)
    : (nat, string) -> Run<seq<string>, Failure>
  {
    (k: nat, m: string) => ManifestStep(rowsOf, files, md5, m)
  }

  /** The CSV written, `None` when the script raises before opening it, and the exception that ended it. */
  datatype Report = Report(csv: Option<seq<seq<string>>>, failure: Option<Failure>)

  /** The whole script. */
  function Checked(md5s: seq<string>, txts: seq<string>, rowsOf: string -> seq<seq<string>>,
                   files: string -> Option<seq<byte>>, md5: seq<byte> -> seq<byte>): Report
  {
    match SelectManifests(md5s, txts)
    case None => Report(None, Some(NoManifests))
    case Some(ms) =>
      var r := RunAll(ms, ManifestSteps(rowsOf, files, md5));
      Report(Some([Header] + r.output), r.failure)
  }

  /** The body of the row loop: tidy, take the two fields, hash the file, write the row. */
  method CheckLine(files: string -> Option<seq<byte>>, md5: seq<byte> -> seq<byte>, line: seq<string>)
    returns (written: seq<seq<string>>, failure: Option<Failure>)
    ensures Run(written, failure) == LineStep(files, md5, line)
  {
    var row := Tidy(line);
    if |row| < 2 {
      return [], Some(ShortRow(|row|));
    }
    var txt, file := row[0], row[1];
    var calculated := Md5(files, md5, file);
    if calculated.None? {
      return [], Some(Unreadable(ReadsPath(file)));
    }
    return [[file, txt, calculated.value, MatchCell(txt, calculated.value)]], None;
  }

  /** The row loop over one manifest. */
  method CheckManifest(rowsOf: string -> seq<seq<string>>, files: string -> Option<seq<byte>>,
                       md5: seq<byte> -> seq<byte>, manifest: string)
    returns (written: seq<seq<string>>, failure: Option<Failure>)
    ensures Run(written, failure) == ManifestStep(rowsOf, files, md5, manifest)
  {
    var rows := rowsOf(manifest);
    var steps := LineSteps(files, md5);
    written, failure := [], None;
    var i := 0;
    while i < |rows|
      invariant 0 <= i <= |rows|
      invariant failure.None?
      invariant Run(written, failure) == RunAll(rows[..i], steps)
    {
      var out, f := CheckLine(files, md5, rows[i]);
      RunAllStep(rows, i, steps, written);
      written, failure := written + out, f;
      if failure.Some? {
        return;
      }
      i := i + 1;
    }
    assert rows[..i] == rows;
  }

  /** The script: select the manifests, write the header, then check every manifest in order. */
  method CheckSums(md5s: seq<string>, txts: seq<string>, rowsOf: string -> seq<seq<string>>,
                   files: string -> Option<seq<byte>>, md5: seq<byte> -> seq<byte>)
    returns (csv: Option<seq<seq<string>>>, failure: Option<Failure>)
    ensures Report(csv, failure) == Checked(md5s, txts, rowsOf, files, md5)
  {
    var manifests := md5s;
    if |manifests| == 0 {
      manifests := txts;
      if |manifests| == 0 {
        return None, Some(NoManifests);
      }
    }
    var steps := ManifestSteps(rowsOf, files, md5);
    var body: seq<seq<string>> := [];
    failure := None;
    var i := 0;
    while i < |manifests|
      invariant 0 <= i <= |manifests|
      invariant failure.None?
      invariant Run(body, failure) == RunAll(manifests[..i], steps)
    {
      var written, f := CheckManifest(rowsOf, files, md5, manifests[i]);
      RunAllStep(manifests, i, steps, body);
      body, failure := body + written, f;
      if failure.Some? {
        return Some([Header] + body), failure;
      }
      i := i + 1;
    }
    assert manifests[..i] == manifests;
    csv := Some([Header] + body);
  }

  /** A CSV row has the four columns of the header. */
  predicate FourColumns(row: seq<string>) {
    |row| == 4
  }

  /**
   * Without any manifest nothing is written; otherwise the CSV opens with the
   * fixed header and every later row has its four columns.
   */
  lemma ReportShape(md5s: seq<string>, txts: seq<string>, rowsOf: string -> seq<seq<string>>,
                    files: string -> Option<seq<byte>>, md5: seq<byte> -> seq<byte>)
    ensures var r := Checked(md5s, txts, rowsOf, files, md5);
      && (r.csv.None? <==> md5s == [] && txts == [])
      && (r.csv.None? ==> r.failure == Some(NoManifests))
      && (r.csv.Some? ==> (r.csv.value != [] && r.csv.value[0] == Header
                         && forall j :: 0 <= j < |r.csv.value| ==> FourColumns(r.csv.value[j])))
  {
    var sel := SelectManifests(md5s, txts);
    if sel.Some? {
      var ms := sel.value;
      var steps := ManifestSteps(rowsOf, files, md5);
      forall i | 0 <= i < |ms|
        ensures forall j :: 0 <= j < |steps(i, ms[i]).output| ==> FourColumns(steps(i, ms[i]).output[j])
      {
        var lines := rowsOf(ms[i]);
        var lineSteps := LineSteps(files, md5);
        forall k | 0 <= k < |lines|
          ensures forall j :: 0 <= j < |lineSteps(k, lines[k]).output| ==> FourColumns(lineSteps(k, lines[k]).output[j])
        {
          assert lineSteps(k, lines[k]) == LineStep(files, md5, lines[k]);
        }
        RunAllKeeps(lines, lineSteps, FourColumns);
        assert steps(i, ms[i]) == RunAll(lines, lineSteps);
      }
      RunAllKeeps(ms, steps, FourColumns);
      var body := RunAll(ms, steps).output;
      assert Checked(md5s, txts, rowsOf, files, md5).csv.value == [Header] + body;
      forall j | 0 <= j < |[Header] + body|
        ensures FourColumns(([Header] + body)[j])
      {
        if j > 0 {
          assert ([Header] + body)[j] == body[j - 1];
        }
      }
    }
  }

  /** A line is handled cleanly when it has both fields and its file can be read. */
  predicate GoodLine(files: string -> Option<seq<byte>>, line: seq<string>) {
    Entry(line).Ok? && files(ReadsPath(Entry(line).value.1)).Some?
  }

  /** The row a good line writes: file, manifest checksum, computed checksum, match. */
  function CsvRow(files: string -> Option<seq<byte>>, md5: seq<byte> -> seq<byte>, line: seq<string>): seq<string>
    requires GoodLine(files, line)
  {
    var (txt, file) := Entry(line).value;
    var calculated := Hex(md5(files(ReadsPath(file)).value));
    [file, txt, calculated, MatchCell(txt, calculated)]
  }

  /** A good line writes exactly its row and raises nothing; any other line raises and writes nothing. */
  lemma LineRow(files: string -> Option<seq<byte>>, md5: seq<byte> -> seq<byte>, line: seq<string>)
    ensures GoodLine(files, line) ==> LineStep(files, md5, line) == Run([CsvRow(files, md5, line)], None)
    ensures !GoodLine(files, line) ==> LineStep(files, md5, line).output == [] && LineStep(files, md5, line).failure.Some?
  {
  }

  /** A manifest of good lines writes exactly one row per line, in line order. */
  lemma ManifestComplete(rowsOf: string -> seq<seq<string>>, files: string -> Option<seq<byte>>,
                         md5: seq<byte> -> seq<byte>, manifest: string)
    requires forall k :: 0 <= k < |rowsOf(manifest)| ==> GoodLine(files, rowsOf(manifest)[k])
    ensures var r := ManifestStep(rowsOf, files, md5, manifest);
      && r.failure.None?
      && |r.output| == |rowsOf(manifest)|
      && forall k :: 0 <= k < |r.output| ==> r.output[k] == CsvRow(files, md5, rowsOf(manifest)[k])
  {
    var lines := rowsOf(manifest);
    var steps := LineSteps(files, md5);
    forall k | 0 <= k < |lines|
      ensures steps(k, lines[k]).failure.None? && |steps(k, lines[k]).output| == 1
    {
      assert steps(k, lines[k]) == LineStep(files, md5, lines[k]);
      LineRow(files, md5, lines[k]);
    }
    RunAllCompletes(lines, steps);
    OutputsOneEach(lines, steps);
    forall k | 0 <= k < |lines|
      ensures Outputs(lines, steps)[k] == CsvRow(files, md5, lines[k])
    {
      assert steps(k, lines[k]) == LineStep(files, md5, lines[k]);
      LineRow(files, md5, lines[k]);
    }
  }

  /**
   * The first line with fewer than two non-empty tokens ends the manifest, and
   * with it the script: the rows of the lines before it have been written.
   */
  lemma ShortLineEndsManifest(files: string -> Option<seq<byte>>, md5: seq<byte> -> seq<byte>,
                              lines: seq<seq<string>>, k: nat)
    requires k < |lines| && |Tidy(lines[k])| < 2
    requires forall i :: 0 <= i < k ==> GoodLine(files, lines[i])
    ensures RunAll(lines, LineSteps(files, md5)) ==
      Run(Outputs(lines[..k], LineSteps(files, md5)), Some(ShortRow(|Tidy(lines[k])|)))
  {
    var steps := LineSteps(files, md5);
    forall i | 0 <= i < k
      ensures steps(i, lines[i]).failure.None?
    {
      assert steps(i, lines[i]) == LineStep(files, md5, lines[i]);
      LineRow(files, md5, lines[i]);
    }
    assert steps(k, lines[k]) == Run([], Some(ShortRow(|Tidy(lines[k])|)));
    RunAllStops(lines, k, steps);
    assert lines[..k + 1][..k] == lines[..k];
  }
}
