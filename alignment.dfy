/**
  The position map lines up with the combined file: every record's generated
  line holds exactly the source line the record names.
 */
module Alignment {
  import opened Common
  import opened LineBreaks
  import opened Header
  import opened Fusion

  /**
    Record m, read against the lines of the combined file: its generated line
    exists and holds original line m.originalLine of its source, or is empty
    when the record names the line just past the source's last one.
   */
  predicate PointsAt(lines: seq<string>, m: Mapping, disk: Disk) {
    && m.source in disk
    && 1 <= m.generatedLine <= |lines|
    && var src := SplitLines(disk[m.source]);
       && 1 <= m.originalLine <= |src| + 1
       && lines[m.generatedLine - 1] == (if m.originalLine <= |src| then src[m.originalLine - 1] else "")
  }

  /** No configured, readable file ends in a lone '\r'. */
  predicate NoTrailingCR(files: seq<Path>, disk: Disk) {
    forall f | f in files && f in disk :: !EndsWithCR(disk[f])
  }

  predicate PathsHaveNoBreaks(files: seq<Path>) {
    forall f | f in files :: NoBreaks(f)
  }

  /**
    Text that ends with a line break: its lines before lineNo - 1 are
    complete, and line lineNo - 1 is the open, empty line the next write goes
    onto. A section written next has its marker on line lineNo - 1 and its
    contents from line lineNo. (A lone '\r' at its end would merge with a
    following '\n'.)
   */
  predicate FinishedLine(text: string, lineNo: int) {
    && !EndsWithCR(text)
    && |SplitLines(text)| == lineNo - 1
    && SplitLines(text)[|SplitLines(text)| - 1] == ""
  }

  /** The marker without its line feed. */
  function MarkerLine(f: Path): string {
    ";// " + f + ":"
  }

  lemma MarkerLines(f: Path)
    requires NoBreaks(f)
    ensures Marker(f) == MarkerLine(f) + "\n"
    ensures SplitLines(Marker(f)) == [MarkerLine(f), ""]
  {
    var m := MarkerLine(f);
    assert NoBreaks(m) by {
      assert NoBreaks(";// ") && NoBreaks(":");
      NoBreaksAppend(";// ", f);
      NoBreaksAppend(";// " + f, ":");
    }
    SingleLine(m);
    OneLineFeed();
    SplitAppend(m, "\n");
    assert m + "" == m;
  }

  /** Neither part ends in a lone '\r', so neither does their concatenation. */
  lemma NoTrailingCRAppend(a: string, b: string)
    requires !EndsWithCR(a) && !EndsWithCR(b)
    ensures !EndsWithCR(a + b)
  {
    if |b| > 0 {
      assert (a + b)[|a + b| - 1] == b[|b| - 1];
    } else {
      assert a + b == a;
    }
  }

  /** The marker fills the open, empty last line and opens a new empty one. */
  lemma MarkerAfterBreak(prefix: string, f: Path)
    requires NoBreaks(f) && !EndsWithCR(prefix)
    requires SplitLines(prefix)[|SplitLines(prefix)| - 1] == ""
    ensures var p := SplitLines(prefix);
            SplitLines(prefix + Marker(f)) == p[..|p| - 1] + [MarkerLine(f), ""]
    ensures !EndsWithCR(prefix + Marker(f))
  {
    MarkerLines(f);
    AppendAfterBreak(prefix, Marker(f));
    NoTrailingCRAppend(prefix, Marker(f));
  }

  /** Text after a line that is followed by an empty one fills that empty line onwards. */
  lemma TextAfterLine(y: string, c: string, init: seq<string>, line: string)
    requires !EndsWithCR(y) && SplitLines(y) == init + [line, ""]
    ensures SplitLines(y + c) == init + [line] + SplitLines(c)
  {
    AppendAfterBreak(y, c);
    assert (init + [line, ""])[..|init| + 1] == init + [line];
  }

  lemma SectionParts(prefix: string, f: Path, c: string)
    ensures prefix + Section(f, c) == prefix + Marker(f) + c + "\n\n"
  {
  }

  /**
    A section written after text ending in a line break (not a lone '\r'):
    the marker fills the open, empty last line, the contents' lines follow,
    and the separator adds one empty line and starts another.
   */
  lemma AppendSection(prefix: string, f: Path, c: string)
    requires NoBreaks(f) && !EndsWithCR(c) && !EndsWithCR(prefix)
    requires SplitLines(prefix)[|SplitLines(prefix)| - 1] == ""
    ensures var p := SplitLines(prefix);
            SplitLines(prefix + Section(f, c))
              == p[..|p| - 1] + [MarkerLine(f)] + SplitLines(c) + ["", ""]
  {
    var p := SplitLines(prefix);
    var init := p[..|p| - 1];
    var y := prefix + Marker(f);
    MarkerAfterBreak(prefix, f);
    TextAfterLine(y, c, init, MarkerLine(f));
    NoTrailingCRAppend(y, c);
    AppendTwoLineFeeds(y + c);
    SectionParts(prefix, f, c);
  }

  lemma SectionEndsWithLineFeed(f: Path, c: string)
    ensures !EndsWithCR(Section(f, c))
  {
    var s := Section(f, c);
    assert s[|s| - 1] == '\n';
  }

  /** Positions in the lines of a marker line, contents and two empty lines. */
  lemma LineAfterMarker(init: seq<string>, line: string, src: seq<string>, i: nat)
    requires i <= |src|
    ensures var ls := init + [line] + src + ["", ""];
            |init| + 1 + i < |ls| - 1
            && ls[|init| + 1 + i] == (if i < |src| then src[i] else "")
  {
  }

  /**
    Once a section is written with line lineNo - 1 open (the marker's line), line
    lineNo + i of everything written holds line i + 1 of the contents, and
    the line just past the contents is empty, whatever is written later.
   */
  lemma SectionLineAt(prefix: string, f: Path, c: string, lineNo: int, later: string, i: nat)
    requires NoBreaks(f) && !EndsWithCR(c) && FinishedLine(prefix, lineNo)
    requires i <= |SplitLines(c)|
    ensures var lines := SplitLines(prefix + Section(f, c) + later);
            var src := SplitLines(c);
            lineNo - 1 + i < |lines| && lines[lineNo - 1 + i] == (if i < |src| then src[i] else "")
  {
    var p := SplitLines(prefix);
    var init := p[..|p| - 1];
    var s := prefix + Section(f, c);
    var ls := init + [MarkerLine(f)] + SplitLines(c) + ["", ""];
    assert SplitLines(s) == ls by {
      AppendSection(prefix, f, c);
    }
    assert SplitLines(s + later) == Glue(ls, SplitLines(later)) by {
      SectionEndsWithLineFeed(f, c);
      NoTrailingCRAppend(prefix, Section(f, c));
      SplitAppend(s, later);
    }
    LineAfterMarker(init, MarkerLine(f), SplitLines(c), i);
    GlueAt(ls, SplitLines(later));
  }

  /** Line i + 1 of a source, or the empty line just past its last one. */
  function SourceLine(src: seq<string>, i: nat): string
    requires i <= |src|
  {
    if i < |src| then src[i] else ""
  }

  /** Lines lineNo onwards hold the source's lines, then one empty line. */
  predicate HoldsSource(lines: seq<string>, lineNo: int, src: seq<string>) {
    && 1 <= lineNo && lineNo - 1 + |src| < |lines|
    && forall i: nat | i <= |src| :: lines[lineNo - 1 + i] == SourceLine(src, i)
  }

  /** Every record of ms points at its line. */
  predicate AllPointAt(lines: seq<string>, ms: seq<Mapping>, disk: Disk) {
    forall m | m in ms :: PointsAt(lines, m, disk)
  }

  lemma SectionHoldsSource(prefix: string, f: Path, c: string, lineNo: int, later: string)
    requires NoBreaks(f) && !EndsWithCR(c) && FinishedLine(prefix, lineNo)
    ensures HoldsSource(SplitLines(prefix + Section(f, c) + later), lineNo, SplitLines(c))
  {
    var lines := SplitLines(prefix + Section(f, c) + later);
    SectionLineAt(prefix, f, c, lineNo, later, |SplitLines(c)|);
    forall i: nat | i <= |SplitLines(c)| ensures lines[lineNo - 1 + i] == SourceLine(SplitLines(c), i) {
      SectionLineAt(prefix, f, c, lineNo, later, i);
    }
  }

  /** Where lines hold a file's contents from lineNo on, that file's records point at their lines. */
  lemma FileRecordsPointAt(lines: seq<string>, f: Path, disk: Disk, lineNo: int)
    requires f in disk && HoldsSource(lines, lineNo, SplitLines(disk[f]))
    ensures AllPointAt(lines, FileMappings(f, LinesInFile(disk[f]), lineNo), disk)
  {
    var src := SplitLines(disk[f]);
    var own := FileMappings(f, LinesInFile(disk[f]), lineNo);
    forall m | m in own ensures PointsAt(lines, m, disk) {
      var i :| 0 <= i < |own| && own[i] == m;
      assert lines[lineNo - 1 + i] == SourceLine(src, i);
    }
  }

  lemma AllPointAtAppend(lines: seq<string>, own: seq<Mapping>, rest: seq<Mapping>, disk: Disk)
    requires AllPointAt(lines, own, disk) && AllPointAt(lines, rest, disk)
    ensures AllPointAt(lines, own + rest, disk)
  {
    forall m | m in own + rest ensures PointsAt(lines, m, disk) {
      if m !in own {
        assert m in rest;
      }
    }
  }

  /** What the section after a finished line leaves behind: a finished line again. */
  lemma SectionLeavesFinishedLine(prefix: string, f: Path, c: string, lineNo: int)
    requires NoBreaks(f) && !EndsWithCR(c) && FinishedLine(prefix, lineNo)
    ensures FinishedLine(prefix + Section(f, c), lineNo + LinesInFile(c) + 2)
  {
    AppendSection(prefix, f, c);
    SectionEndsWithLineFeed(f, c);
    NoTrailingCRAppend(prefix, Section(f, c));
  }

  /**
    The file tasks, started when line lineNo - 1 is open and empty (so the
    first marker goes there and the first contents start on line lineNo):
    every record points at the line of the combined text that holds its
    source line.
   */
  lemma {:induction false} RecordsPointAtTheirLines(files: seq<Path>, disk: Disk, lineNo: int, prefix: string)
    requires PathsHaveNoBreaks(files) && NoTrailingCR(files, disk) && FinishedLine(prefix, lineNo)
    ensures var b := FuseFiles(files, disk, lineNo);
            AllPointAt(SplitLines(prefix + b.output), b.mappings, disk)
    decreases |files|, 1
  {
    if files != [] && files[0] in disk {
      assert NoBreaks(files[0]) && !EndsWithCR(disk[files[0]]);
      assert PathsHaveNoBreaks(files[1..]) && NoTrailingCR(files[1..], disk) by {
        forall g | g in files[1..] ensures g in files {}
      }
      FirstSectionThenRest(files, disk, lineNo, prefix);
    }
  }

  /** FuseFilesStep, seen after a prefix. */
  lemma FuseFilesStepFrom(files: seq<Path>, disk: Disk, lineNo: int, prefix: string)
    requires files != [] && files[0] in disk
    ensures var n := LinesInFile(disk[files[0]]);
            var b := FuseFiles(files, disk, lineNo);
            var rest := FuseFiles(files[1..], disk, lineNo + n + 2);
            && b.mappings == FileMappings(files[0], n, lineNo) + rest.mappings
            && SplitLines(prefix + b.output) == SplitLines(prefix + Section(files[0], disk[files[0]]) + rest.output)
  {
    FuseFilesStep(files, disk, lineNo);
    var b := FuseFiles(files, disk, lineNo);
    var rest := FuseFiles(files[1..], disk, lineNo + LinesInFile(disk[files[0]]) + 2);
    assert prefix + b.output == prefix + Section(files[0], disk[files[0]]) + rest.output;
  }

  lemma AllPointAtSame(lines: seq<string>, ms: seq<Mapping>, lines': seq<string>, ms': seq<Mapping>, disk: Disk)
    requires AllPointAt(lines, ms, disk) && lines' == lines && ms' == ms
    ensures AllPointAt(lines', ms', disk)
  {
  }

  /** The inductive step of RecordsPointAtTheirLines: the first file's section, then the rest. */
  lemma {:induction false} FirstSectionThenRest(files: seq<Path>, disk: Disk, lineNo: int, prefix: string)
    requires files != [] && files[0] in disk
    requires NoBreaks(files[0]) && !EndsWithCR(disk[files[0]]) && FinishedLine(prefix, lineNo)
    requires PathsHaveNoBreaks(files[1..]) && NoTrailingCR(files[1..], disk)
    ensures var b := FuseFiles(files, disk, lineNo);
            AllPointAt(SplitLines(prefix + b.output), b.mappings, disk)
    decreases |files|, 0
  {
    var f := files[0];
    var n := LinesInFile(disk[f]);
    var next := prefix + Section(f, disk[f]);
    var rest := FuseFiles(files[1..], disk, lineNo + n + 2);
    var own := FileMappings(f, n, lineNo);
    var lines := SplitLines(next + rest.output);
    assert AllPointAt(lines, rest.mappings, disk) by {
      SectionLeavesFinishedLine(prefix, f, disk[f], lineNo);
      RecordsPointAtTheirLines(files[1..], disk, lineNo + n + 2, next);
    }
    assert AllPointAt(lines, own, disk) by {
      SectionHoldsSource(prefix, f, disk[f], lineNo, rest.output);
      FileRecordsPointAt(lines, f, disk, lineNo);
    }
    AllPointAtAppend(lines, own, rest.mappings, disk);
    FuseFilesStepFrom(files, disk, lineNo, prefix);
    AllPointAtSame(lines, own + rest.mappings, SplitLines(prefix + FuseFiles(files, disk, lineNo).output),
                   FuseFiles(files, disk, lineNo).mappings, disk);
  }

  /** The header leaves line 5 open and empty: the first marker goes there and the first contents start on line 6. */
  lemma HeaderEndsOnFinishedLine(stamp: string, files: seq<Path>)
    requires NoBreaks(stamp) && PathsHaveNoBreaks(files)
    ensures FinishedLine(CreateHeader(stamp, files), FirstContentLine)
  {
    var h := CreateHeader(stamp, files);
    HeaderLines(stamp, files);
    HeaderParts(stamp, files);
    assert h[|h| - 1] == '\n';
  }

  /**
    Every record of a build, complete or stopped by a read error, points at
    the line of the combined file that holds the source line it names,
    provided the stamp and the paths have no line breaks and no file ends in
    a lone '\r'.
   */
  lemma ArtifactLinesMatchSources(stamp: string, files: seq<Path>, disk: Disk)
    requires NoBreaks(stamp) && PathsHaveNoBreaks(files) && NoTrailingCR(files, disk)
    ensures var b := Fuse(stamp, files, disk);
            AllPointAt(SplitLines(b.output), b.mappings, disk)
  {
    HeaderEndsOnFinishedLine(stamp, files);
    RecordsPointAtTheirLines(files, disk, FirstContentLine, CreateHeader(stamp, files));
  }

  lemma CarriageReturnLines()
    ensures SplitLines("x\r") == ["x", ""]
    ensures SplitLines("x\r\n\n") == ["x", "", ""]
  {
    assert SplitLines("\r") == ["", ""] by {
      UnfoldAtBreak("\r");
      assert "\r"[1..] == "";
    }
    assert SplitLines("\r\n\n") == ["", "", ""] by {
      UnfoldAtBreak("\r\n\n");
      assert "\r\n\n"[2..] == "\n";
      OneLineFeed();
    }
    UnfoldAtChar("x\r");
    assert "x\r"[1..] == "\r";
    UnfoldAtChar("x\r\n\n");
    assert "x\r\n\n"[1..] == "\r\n\n";
    assert ['x'] + "" == "x";
  }

  /** f's section when its contents are "x\r": the separator's first line feed completes the break. */
  lemma CrFirstSection(f: Path)
    ensures Section(f, "x\r") == Marker(f) + "x\r\n\n"
  {
    assert "x\r" + Separator == "x\r\n\n";
  }

  lemma MarkerEndsWithLineFeed(f: Path)
    ensures !EndsWithCR(Marker(f))
  {
    var m := Marker(f);
    assert m[|m| - 1] == '\n';
  }

  lemma CrFirstLines(f: Path)
    requires NoBreaks(f)
    ensures SplitLines(Section(f, "x\r")) == [MarkerLine(f), "x", "", ""]
  {
    CrFirstSection(f);
    CarriageReturnLines();
    MarkerLines(f);
    MarkerEndsWithLineFeed(f);
    AppendAfterBreak(Marker(f), "x\r\n\n");
    assert [MarkerLine(f), ""][..1] == [MarkerLine(f)];
  }

  lemma SevenLines(a: string, b: string, c: string, m: string, y: string)
    ensures [a, b, c, ""][..3] + [m] + [y] + ["", ""] == [a, b, c, m, y, "", ""]
  {
  }

  lemma CrLines(f: Path, g: Path)
    requires NoBreaks(f) && NoBreaks(g)
    ensures SplitLines(Section(f, "x\r") + Section(g, "y"))
         == [MarkerLine(f), "x", "", MarkerLine(g), "y", "", ""]
  {
    var first := Section(f, "x\r");
    var p := [MarkerLine(f), "x", "", ""];
    assert SplitLines(first) == p by {
      CrFirstLines(f);
    }
    assert SplitLines(first + Section(g, "y"))
        == p[..|p| - 1] + [MarkerLine(g)] + SplitLines("y") + ["", ""] by {
      SectionEndsWithLineFeed(f, "x\r");
      AppendSection(first, g, "y");
    }
    SingleLine("y");
    SevenLines(MarkerLine(f), "x", "", MarkerLine(g), "y");
  }

  lemma CrBuild(f: Path, g: Path)
    requires f != g
    ensures FuseFiles([f, g], map[f := "x\r", g := "y"], 2)
         == Build(Section(f, "x\r") + Section(g, "y"), FileMappings(f, 2, 2) + FileMappings(g, 1, 6), None)
  {
    var disk := map[f := "x\r", g := "y"];
    var second := Build(Section(g, "y"), FileMappings(g, 1, 6), None);
    assert LinesInFile("x\r") == 2 by {
      CarriageReturnLines();
    }
    assert FuseFiles([g], disk, 6) == second by {
      SingleLine("y");
      FuseFilesStep([g], disk, 6);
      assert [g][1..] == [];
      assert Section(g, "y") + "" == Section(g, "y");
      assert FileMappings(g, 1, 6) + [] == FileMappings(g, 1, 6);
    }
    assert FuseFiles([f, g], disk, 2)
        == Build(Section(f, "x\r") + second.output, FileMappings(f, 2, 2) + second.mappings, second.failed) by {
      FuseFilesStep([f, g], disk, 2);
      assert [f, g][1..] == [g];
    }
  }

  /**
    Why no file may end in a lone '\r': the separator's first line feed
    joins it into one break, so the file's section is one line shorter than
    its linesInFile + 2 and every later record points one line too far. Here
    g's line 1, "y", is on line 5 of the text but its record says line 6.
   */
  lemma LoneCarriageReturnShiftsMap(f: Path, g: Path)
    requires f != g && NoBreaks(f) && NoBreaks(g)
    ensures FinishedLine("", 2) && PathsHaveNoBreaks([f, g])
    ensures var disk := map[f := "x\r", g := "y"];
            var b := FuseFiles([f, g], disk, 2);
            && |b.mappings| == 5 && b.mappings[3] == Mapping(6, 1, 1, 1, g)
            && SplitLines(b.output) == [MarkerLine(f), "x", "", MarkerLine(g), "y", "", ""]
            && !AllPointAt(SplitLines(b.output), b.mappings, disk)
  {
    var disk := map[f := "x\r", g := "y"];
    var b := FuseFiles([f, g], disk, 2);
    CrBuild(f, g);
    CrLines(f, g);
    SingleLine("y");
    assert !PointsAt(SplitLines(b.output), b.mappings[3], disk);
  }

  /** f's section followed by h's marker: the marker lands on the line just after "x". */
  lemma CrFailLines(f: Path, h: Path)
    requires NoBreaks(f) && NoBreaks(h)
    ensures SplitLines(Section(f, "x\r") + Marker(h)) == [MarkerLine(f), "x", "", MarkerLine(h), ""]
  {
    var first := Section(f, "x\r");
    var p := [MarkerLine(f), "x", "", ""];
    CrFirstLines(f);
    SectionEndsWithLineFeed(f, "x\r");
    MarkerLines(h);
    AppendAfterBreak(first, Marker(h));
    assert p[..3] + [MarkerLine(h), ""] == [MarkerLine(f), "x", "", MarkerLine(h), ""];
  }

  /**
    A lone '\r' misaligns its own file's last record as soon as anything
    follows the section, here only the marker of a file that cannot be read:
    f's record for the line past its end names line 4, which holds h's marker.
   */
  lemma LoneCarriageReturnBeforeFailure(f: Path, h: Path)
    requires f != h && NoBreaks(f) && NoBreaks(h)
    ensures FinishedLine("", 2) && PathsHaveNoBreaks([f, h])
    ensures var disk := map[f := "x\r"];
            var b := FuseFiles([f, h], disk, 2);
            && b.failed == Some(h)
            && b.mappings == FileMappings(f, 2, 2) && b.mappings[2] == Mapping(4, 1, 3, 1, f)
            && SplitLines(b.output) == [MarkerLine(f), "x", "", MarkerLine(h), ""]
            && !AllPointAt(SplitLines(b.output), b.mappings, disk)
  {
    var disk := map[f := "x\r"];
    assert LinesInFile("x\r") == 2 by {
      CarriageReturnLines();
    }
    assert FuseFiles([f, h], disk, 2) == Build(Section(f, "x\r") + Marker(h), FileMappings(f, 2, 2), Some(h)) by {
      FuseFilesStep([f, h], disk, 2);
      assert [f, h][1..] == [h];
      FuseFilesStopsAt([h], disk, 6);
      assert FileMappings(f, 2, 2) + [] == FileMappings(f, 2, 2);
    }
    var b := FuseFiles([f, h], disk, 2);
    CrFailLines(f, h);
    CarriageReturnLines();
    assert MarkerLine(h)[0] == ';';
    assert !PointsAt(SplitLines(b.output), b.mappings[2], disk);
  }
}
