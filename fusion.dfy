/**
  What writeFilesInto produces: the combined text and the position-map
  records, file by file in configured order, stopping at the first file that
  cannot be read.
 */
module Fusion {
  import opened Common
  import opened LineBreaks
  import opened Header

  /** The source tree: contents by relative path; a path without an entry cannot be read. */
  type Disk = map<Path, string>

  /** The generated line on which the first file's contents start (the header takes lines 1-4, its marker line 5). */
  const FirstContentLine := 6

  /** What is written after each file's contents. */
  const Separator := "\n\n"

  /** The line written before each file's contents: the path can be read back from it, and it ends in a line feed. */
  function Marker(f: Path): string {
    ";// " + f + ":\n"
  }

  /** What a readable file adds: its marker, then its contents unchanged, then the separator. */
  function Section(f: Path, contents: string): string {
    Marker(f) + contents + Separator
  }

  /** The path can be read back from its marker, which ends in a line feed. */
  lemma MarkerReadsBack(f: Path)
    ensures var m := Marker(f);
            |m| == |f| + 6 && m[4..|f| + 4] == f && m[|m| - 1] == '\n'
  {
  }

  /** A section holds the marker, then the contents unchanged, then the separator. */
  lemma SectionReadsBack(f: Path, contents: string)
    ensures var s := Section(f, contents);
            && |s| == |Marker(f)| + |contents| + |Separator|
            && s[..|Marker(f)|] == Marker(f)
            && s[|Marker(f)|..|Marker(f)| + |contents|] == contents
            && s[|s| - |Separator|..] == Separator
  {
  }

  /**
    linesInFile: 1, plus the number of pieces the break pattern splits the
    contents into, minus 1; that is one more than the number of breaks.
   */
  function LinesInFile(contents: string): (n: nat)
    ensures n == |Breaks(contents)| + 1
  {
    SplitLinesCount(contents);
    1 + (|SplitLines(contents)| - 1)
  }

  /**
    "\r\n" is one break, not two: after text that does not end in a lone
    '\r', writing "\r\n" or "\n" gives the same lines, so the same count.
   */
  lemma CrLfCountsOnce(a: string, b: string)
    requires !EndsWithCR(a)
    ensures SplitLines(a + "\r\n" + b) == SplitLines(a + "\n" + b)
    ensures LinesInFile(a + "\r\n" + b) == LinesInFile(a + "\n" + b)
  {
    var crlf, lf := "\r\n" + b, "\n" + b;
    assert a + "\r\n" + b == a + crlf && a + "\n" + b == a + lf;
    SplitAppend(a, crlf);
    SplitAppend(a, lf);
    UnfoldAtBreak(crlf);
    UnfoldAtBreak(lf);
    assert crlf[2..] == b && lf[1..] == b;
  }

  /** One addMapping call: generated and original positions, both 1-based lines, and the source path. */
  datatype Mapping = Mapping(generatedLine: int, generatedColumn: int, originalLine: int, originalColumn: int, source: Path)

  /** The records for one file: one per i in 0..linesInFile, i included. */
  function FileMappings(f: Path, linesInFile: nat, lineNo: int): (ms: seq<Mapping>)
    ensures |ms| == linesInFile + 1
    ensures forall i | 0 <= i < |ms| :: ms[i] == Mapping(lineNo + i, 1, i + 1, 1, f)
  {
    seq(linesInFile + 1, i => Mapping(lineNo + i, 1, i + 1, 1, f))
  }

  /** The outcome of one build: what reached the combined file, the records, and the path that failed to read. */
  datatype Build = Build(output: string, mappings: seq<Mapping>, failed: Option<Path>)

  /**
    The file tasks run after the header, with the line cursor at lineNo: each
    readable file adds its marker, its contents and the separator, and its
    records; an unreadable file adds only its marker and ends the build.
   */
  function FuseFiles(files: seq<Path>, disk: Disk, lineNo: int): (b: Build)
    ensures b.failed.Some? ==> b.failed.value in files && b.failed.value !in disk
    decreases |files|
  {
    if files == [] then Build("", [], None)
    else
      var f := files[0];
      if f !in disk then Build(Marker(f), [], Some(f))
      else
        var n := LinesInFile(disk[f]);
        var rest := FuseFiles(files[1..], disk, lineNo + n + 2);
        Build(Section(f, disk[f]) + rest.output, FileMappings(f, n, lineNo) + rest.mappings, rest.failed)
  }

  /** The whole build: the header, then the file tasks from the first content line. */
  function Fuse(stamp: string, files: seq<Path>, disk: Disk): Build
  {
    var b := FuseFiles(files, disk, FirstContentLine);
    Build(CreateHeader(stamp, files) + b.output, b.mappings, b.failed)
  }

  /** How many leading files can be read. */
  function ReadablePrefix(files: seq<Path>, disk: Disk): (k: nat)
    ensures k <= |files|
    ensures forall i | 0 <= i < k :: files[i] in disk
    ensures k < |files| ==> files[k] !in disk
    decreases |files|
  {
    if files == [] || files[0] !in disk then 0
    else 1 + ReadablePrefix(files[1..], disk)
  }

  /** The sections of readable files, concatenated in order. */
  function Sections(files: seq<Path>, disk: Disk): string
    requires forall i | 0 <= i < |files| :: files[i] in disk
    decreases |files|
  {
    if files == [] then "" else Section(files[0], disk[files[0]]) + Sections(files[1..], disk)
  }

  /** Records expected for readable files: linesInFile + 1 each. */
  function RecordCount(files: seq<Path>, disk: Disk): nat
    requires forall i | 0 <= i < |files| :: files[i] in disk
    decreases |files|
  {
    if files == [] then 0 else LinesInFile(disk[files[0]]) + 1 + RecordCount(files[1..], disk)
  }

  /** The recursion equation of FuseFiles for a readable first file. */
  lemma FuseFilesStep(files: seq<Path>, disk: Disk, lineNo: int)
    requires files != [] && files[0] in disk
    ensures var n := LinesInFile(disk[files[0]]);
            var rest := FuseFiles(files[1..], disk, lineNo + n + 2);
            FuseFiles(files, disk, lineNo)
              == Build(Section(files[0], disk[files[0]]) + rest.output,
                       FileMappings(files[0], n, lineNo) + rest.mappings, rest.failed)
  {
  }

  /** A build stops at the first file that cannot be read and reports that file. */
  lemma {:induction false} FuseFilesFailure(files: seq<Path>, disk: Disk, lineNo: int)
    ensures var k := ReadablePrefix(files, disk);
            FuseFiles(files, disk, lineNo).failed == (if k < |files| then Some(files[k]) else None)
    decreases |files|
  {
    if files != [] && files[0] in disk {
      var n := LinesInFile(disk[files[0]]);
      FuseFilesFailure(files[1..], disk, lineNo + n + 2);
      FuseFilesStep(files, disk, lineNo);
    }
  }

  lemma SectionsStep(files: seq<Path>, disk: Disk, k: nat)
    requires 0 < k <= |files|
    requires forall i | 0 <= i < k :: files[i] in disk
    ensures Sections(files[..k], disk) == Section(files[0], disk[files[0]]) + Sections(files[1..][..k - 1], disk)
  {
    assert files[..k][1..] == files[1..][..k - 1];
  }

  /** The inductive step of FuseFilesOutput, with the claim for the later files given. */
  lemma FuseFilesOutputStep(files: seq<Path>, disk: Disk, lineNo: int)
    requires files != [] && files[0] in disk
    requires var n := LinesInFile(disk[files[0]]);
             var k := ReadablePrefix(files, disk);
             FuseFiles(files[1..], disk, lineNo + n + 2).output
               == Sections(files[1..][..k - 1], disk) + (if k < |files| then Marker(files[k]) else "")
    ensures var k := ReadablePrefix(files, disk);
            FuseFiles(files, disk, lineNo).output
              == Sections(files[..k], disk) + (if k < |files| then Marker(files[k]) else "")
  {
    var n := LinesInFile(disk[files[0]]);
    var k := ReadablePrefix(files, disk);
    var section := Section(files[0], disk[files[0]]);
    var tail := if k < |files| then Marker(files[k]) else "";
    var rest := FuseFiles(files[1..], disk, lineNo + n + 2).output;
    var later := Sections(files[1..][..k - 1], disk);
    assert FuseFiles(files, disk, lineNo).output == section + rest by {
      FuseFilesStep(files, disk, lineNo);
    }
    assert Sections(files[..k], disk) == section + later by {
      SectionsStep(files, disk, k);
    }
    Regroup(FuseFiles(files, disk, lineNo).output, section, rest, later, tail, Sections(files[..k], disk));
  }

  /** Regrouping a concatenation: section + (later + tail) == (section + later) + tail. */
  lemma Regroup(whole: string, section: string, rest: string, later: string, tail: string, done: string)
    requires whole == section + rest && rest == later + tail && done == section + later
    ensures whole == done + tail
  {
  }

  /**
    The file tasks write every readable leading file's section, in configured
    order, and then only the marker of the first file that cannot be read.
   */
  lemma {:induction false} FuseFilesOutput(files: seq<Path>, disk: Disk, lineNo: int)
    ensures var k := ReadablePrefix(files, disk);
            FuseFiles(files, disk, lineNo).output
              == Sections(files[..k], disk) + (if k < |files| then Marker(files[k]) else "")
    decreases |files|
  {
    if files != [] && files[0] in disk {
      var n := LinesInFile(disk[files[0]]);
      var k := ReadablePrefix(files, disk);
      FuseFilesOutput(files[1..], disk, lineNo + n + 2);
      assert k < |files| ==> files[1..][k - 1] == files[k];
      FuseFilesOutputStep(files, disk, lineNo);
    } else if files != [] {
      FuseFilesStopsAt(files, disk, lineNo);
    }
  }

  /** The recursion equations when the first file cannot be read. */
  lemma FuseFilesStopsAt(files: seq<Path>, disk: Disk, lineNo: int)
    requires files != [] && files[0] !in disk
    ensures ReadablePrefix(files, disk) == 0
    ensures FuseFiles(files, disk, lineNo) == Build(Marker(files[0]), [], Some(files[0]))
    ensures Sections(files[..0], disk) == "" && RecordCount(files[..0], disk) == 0
  {
    assert files[..0] == [];
  }

  lemma RecordCountStep(files: seq<Path>, disk: Disk, k: nat)
    requires 0 < k <= |files|
    requires forall i | 0 <= i < k :: files[i] in disk
    ensures RecordCount(files[..k], disk) == LinesInFile(disk[files[0]]) + 1 + RecordCount(files[1..][..k - 1], disk)
  {
    assert files[..k][1..] == files[1..][..k - 1];
  }

  /** Each file written yields exactly linesInFile + 1 records. */
  lemma {:induction false} FuseFilesRecordCount(files: seq<Path>, disk: Disk, lineNo: int)
    ensures var k := ReadablePrefix(files, disk);
            |FuseFiles(files, disk, lineNo).mappings| == RecordCount(files[..k], disk)
    decreases |files|
  {
    if files != [] && files[0] in disk {
      var n := LinesInFile(disk[files[0]]);
      var k := ReadablePrefix(files, disk);
      FuseFilesRecordCount(files[1..], disk, lineNo + n + 2);
      FuseFilesStep(files, disk, lineNo);
      RecordCountStep(files, disk, k);
    } else if files != [] {
      FuseFilesStopsAt(files, disk, lineNo);
    }
  }

  /** A complete build has at least two records per file: every file has at least one line. */
  lemma {:induction false} FuseFilesRecordsPerFile(files: seq<Path>, disk: Disk, lineNo: int)
    ensures var b := FuseFiles(files, disk, lineNo);
            b.failed.None? ==> |b.mappings| >= 2 * |files|
  {
    var k := ReadablePrefix(files, disk);
    FuseFilesFailure(files, disk, lineNo);
    FuseFilesRecordCount(files, disk, lineNo);
    if k == |files| {
      assert files[..k] == files;
      RecordCountAtLeastTwo(files, disk);
    }
  }

  lemma {:induction false} RecordCountAtLeastTwo(files: seq<Path>, disk: Disk)
    requires forall i | 0 <= i < |files| :: files[i] in disk
    ensures RecordCount(files, disk) >= 2 * |files|
    decreases |files|
  {
    if files != [] {
      RecordCountAtLeastTwo(files[1..], disk);
    }
  }

  /**
    The combined file is the header followed by the sections of the files read,
    in configured order; a failed build ends with the failing file's marker and
    reports that file; each file read has linesInFile + 1 records.
   */
  lemma FuseShape(stamp: string, files: seq<Path>, disk: Disk)
    ensures var k := ReadablePrefix(files, disk);
            var b := Fuse(stamp, files, disk);
            && b.failed == (if k < |files| then Some(files[k]) else None)
            && b.output == CreateHeader(stamp, files) + Sections(files[..k], disk)
                           + (if k < |files| then Marker(files[k]) else "")
            && |b.mappings| == RecordCount(files[..k], disk)
  {
    FuseFilesFailure(files, disk, FirstContentLine);
    FuseFilesRecordCount(files, disk, FirstContentLine);
    FuseOutput(stamp, files, disk);
  }

  /** The combined text part of FuseShape. */
  lemma FuseOutput(stamp: string, files: seq<Path>, disk: Disk)
    ensures var k := ReadablePrefix(files, disk);
            Fuse(stamp, files, disk).output == CreateHeader(stamp, files) + Sections(files[..k], disk)
                                               + (if k < |files| then Marker(files[k]) else "")
  {
    var k := ReadablePrefix(files, disk);
    var body := FuseFiles(files, disk, FirstContentLine);
    FuseFilesOutput(files, disk, FirstContentLine);
    Regroup(Fuse(stamp, files, disk).output, CreateHeader(stamp, files), body.output,
            Sections(files[..k], disk), if k < |files| then Marker(files[k]) else "",
            CreateHeader(stamp, files) + Sections(files[..k], disk));
  }

  /**
    Every record names a configured, readable file, has both columns 1, a
    generated line at or after the cursor, and an original line between 1 and
    the file's linesInFile + 1.
   */
  lemma {:induction false} RecordsAreWellFormed(files: seq<Path>, disk: Disk, lineNo: int)
    ensures forall m | m in FuseFiles(files, disk, lineNo).mappings ::
              && m.source in files && m.source in disk && m.generatedLine >= lineNo
              && m.generatedColumn == 1 && m.originalColumn == 1
              && 1 <= m.originalLine <= LinesInFile(disk[m.source]) + 1
    decreases |files|
  {
    if files != [] && files[0] in disk {
      var n := LinesInFile(disk[files[0]]);
      var own := FileMappings(files[0], n, lineNo);
      var rest := FuseFiles(files[1..], disk, lineNo + n + 2).mappings;
      RecordsAreWellFormed(files[1..], disk, lineNo + n + 2);
      FuseFilesStep(files, disk, lineNo);
      forall m: Mapping | m in own + rest
        ensures m.source in files && m.source in disk && m.generatedLine >= lineNo
        ensures m.generatedColumn == 1 && m.originalColumn == 1
        ensures 1 <= m.originalLine <= LinesInFile(disk[m.source]) + 1
      {
        if m in rest {
          assert m.source in files[1..];
        } else {
          var i :| 0 <= i < |own| && own[i] == m;
        }
      }
    }
  }

  /** Generated lines strictly increase along ms. */
  predicate Increasing(ms: seq<Mapping>) {
    forall p, q | 0 <= p < q < |ms| :: ms[p].generatedLine < ms[q].generatedLine
  }

  /** Every generated line of ms lies in lo..hi-1. */
  predicate LinesWithin(ms: seq<Mapping>, lo: int, hi: int) {
    forall i | 0 <= i < |ms| :: lo <= ms[i].generatedLine < hi
  }

  lemma IncreasingAppend(own: seq<Mapping>, rest: seq<Mapping>, lo: int, mid: int, hi: int)
    requires Increasing(own) && LinesWithin(own, lo, mid)
    requires Increasing(rest) && LinesWithin(rest, mid, hi)
    requires lo <= mid <= hi
    ensures Increasing(own + rest) && LinesWithin(own + rest, lo, hi)
  {
    var ms := own + rest;
    forall p, q | 0 <= p < q < |ms| ensures ms[p].generatedLine < ms[q].generatedLine {
      if q < |own| {
        assert ms[p] == own[p] && ms[q] == own[q];
      } else if p < |own| {
        assert ms[p] == own[p] && ms[q] == rest[q - |own|];
      } else {
        assert ms[p] == rest[p - |own|] && ms[q] == rest[q - |own|];
      }
    }
    forall i | 0 <= i < |ms| ensures lo <= ms[i].generatedLine < hi {
      if i < |own| {
        assert ms[i] == own[i];
      } else {
        assert ms[i] == rest[i - |own|];
      }
    }
  }

  /** One file's records have increasing generated lines, lineNo to lineNo + linesInFile. */
  lemma FileMappingsIncrease(f: Path, linesInFile: nat, lineNo: int)
    ensures var own := FileMappings(f, linesInFile, lineNo);
            Increasing(own) && LinesWithin(own, lineNo, lineNo + linesInFile + 1)
  {
  }

  /** The cursor after the file tasks: past every file read, linesInFile + 2 lines each. */
  function CursorAfter(files: seq<Path>, disk: Disk, lineNo: int): (end: int)
    ensures end >= lineNo
    decreases |files|
  {
    if files == [] || files[0] !in disk then lineNo
    else CursorAfter(files[1..], disk, lineNo + LinesInFile(disk[files[0]]) + 2)
  }

  /**
    Generated lines strictly increase along the whole record sequence and stay
    between the starting cursor and the final one.
   */
  lemma {:induction false} GeneratedLinesIncrease(files: seq<Path>, disk: Disk, lineNo: int)
    ensures var ms := FuseFiles(files, disk, lineNo).mappings;
            Increasing(ms) && LinesWithin(ms, lineNo, CursorAfter(files, disk, lineNo))
    decreases |files|
  {
    if files != [] && files[0] in disk {
      var n := LinesInFile(disk[files[0]]);
      var own := FileMappings(files[0], n, lineNo);
      var rest := FuseFiles(files[1..], disk, lineNo + n + 2).mappings;
      var hi := CursorAfter(files, disk, lineNo);
      assert Increasing(own) && LinesWithin(own, lineNo, lineNo + n + 2) by {
        FileMappingsIncrease(files[0], n, lineNo);
      }
      assert Increasing(rest) && LinesWithin(rest, lineNo + n + 2, hi) by {
        GeneratedLinesIncrease(files[1..], disk, lineNo + n + 2);
      }
      assert FuseFiles(files, disk, lineNo).mappings == own + rest by {
        FuseFilesStep(files, disk, lineNo);
      }
      IncreasingAppend(own, rest, lineNo, lineNo + n + 2, hi);
    }
  }
}
