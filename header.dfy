/**
  The header the fuser writes at the top of the combined file: a generation
  comment and the loader call that lists every configured file.
 */
module Header {
  import opened Common
  import opened LineBreaks

  const GeneratedPrefix := "// This file was generated on "
  const LoaderPrefix := "JSLoader.expectToLoadModules(["
  const LoaderSuffix := "]);"

  function Quote(f: Path): string {
    "'" + f + "'"
  }

  /** The file list as the header prints it: quoted, comma-separated, in configured order. */
  function Manifest(files: seq<Path>): (m: string)
    ensures m == "" <==> files == []
    ensures files != [] ==> |m| >= 2 && m[0] == '\'' && m[|m| - 1] == '\''
    decreases |files|
  {
    if |files| == 0 then ""
    else if |files| == 1 then Quote(files[0])
    else Quote(files[0]) + "," + Manifest(files[1..])
  }

  /** createHeader: the stamp is the already formatted GMT date. */
  function CreateHeader(stamp: string, files: seq<Path>): string {
    GeneratedPrefix + stamp + "\n\n" + LoaderPrefix + Manifest(files) + LoaderSuffix + "\n\n"
  }

  /**
    The stamp follows the generation comment, the file list follows the
    loader call's opening, and the header ends in a blank line.
   */
  lemma HeaderFields(stamp: string, files: seq<Path>)
    ensures var h := CreateHeader(stamp, files);
            var k := |GeneratedPrefix| + |stamp| + 2 + |LoaderPrefix|;
            && |h| == k + |Manifest(files)| + |LoaderSuffix| + 2
            && h[..|GeneratedPrefix|] == GeneratedPrefix
            && h[|GeneratedPrefix|..|GeneratedPrefix| + |stamp|] == stamp
            && h[k..k + |Manifest(files)|] == Manifest(files)
            && h[|h| - 2..] == "\n\n"
  {
    var sep := "\n\n";
    assert |sep| == 2;
    Fields(GeneratedPrefix, stamp, sep, LoaderPrefix, Manifest(files), LoaderSuffix, sep);
  }

  /** Where each of seven concatenated parts sits. */
  lemma Fields(a: string, b: string, c: string, d: string, e: string, f: string, g: string)
    ensures var h := a + b + c + d + e + f + g;
            var k := |a| + |b| + |c| + |d|;
            && |h| == k + |e| + |f| + |g|
            && h[..|a|] == a && h[|a|..|a| + |b|] == b
            && h[k..k + |e|] == e && h[|h| - |g|..] == g
  {
  }

  /** The first index at or after i that holds a single quote. */
  function NextQuote(s: string, i: nat): (r: Option<nat>)
    requires i <= |s|
    ensures r.Some? ==> i <= r.value < |s| && s[r.value] == '\''
    ensures r.Some? ==> forall k | i <= k < r.value :: s[k] != '\''
    ensures r.None? ==> forall k | i <= k < |s| :: s[k] != '\''
    decreases |s| - i
  {
    if i == |s| then None
    else if s[i] == '\'' then Some(i)
    else NextQuote(s, i + 1)
  }

  /** Reads a manifest back into the list of paths it names. */
  function ParseManifest(s: string): Option<seq<Path>> {
    if s == "" then Some([]) else ParseItems(s)
  }

  /** One or more quoted items separated by commas. */
  function ParseItems(s: string): Option<seq<Path>>
    decreases |s|
  {
    if |s| < 2 || s[0] != '\'' then None
    else match NextQuote(s, 1)
      case None => None
      case Some(j) =>
        var rest := s[j + 1..];
        if rest == "" then Some([s[1..j]])
        else if rest[0] != ',' then None
        else match ParseItems(rest[1..])
          case None => None
          case Some(more) => Some([s[1..j]] + more)
  }

  predicate NoQuote(f: Path) {
    forall k | 0 <= k < |f| :: f[k] != '\''
  }

  /** The closing quote of a quoted path without quotes is the one right after it. */
  lemma QuoteEnd(f: Path, tail: string)
    requires NoQuote(f)
    ensures NextQuote(Quote(f) + tail, 1) == Some(|f| + 1)
  {
    var s := Quote(f) + tail;
    assert s[|f| + 1] == '\'';
    assert forall k | 1 <= k < |f| + 1 :: s[k] == f[k - 1];
  }

  /** A single quoted path parses to that path. */
  lemma ParseLast(f: Path)
    requires NoQuote(f)
    ensures ParseItems(Quote(f)) == Some([f])
  {
    var s := Quote(f);
    QuoteEnd(f, "");
    assert s + "" == s;
    assert s[|f| + 2..] == "";
    assert s[1..|f| + 1] == f;
  }

  /** A quoted path, a comma and more items parse to that path and the items. */
  lemma ParseCons(f: Path, more: string)
    requires NoQuote(f) && more != ""
    ensures ParseItems(Quote(f) + "," + more)
         == match ParseItems(more) case None => None case Some(m) => Some([f] + m)
  {
    var tail := "," + more;
    var s := Quote(f) + tail;
    assert s == Quote(f) + "," + more;
    QuoteEnd(f, tail);
    assert s[|f| + 2..] == tail;
    assert s[1..|f| + 1] == f;
    assert tail[1..] == more;
  }

  /** The manifest names every file, in configured order: parsing it gives the list back. */
  lemma {:induction false} ManifestRoundTrip(files: seq<Path>)
    requires forall f | f in files :: NoQuote(f)
    ensures ParseManifest(Manifest(files)) == Some(files)
    decreases |files|
  {
    if |files| == 1 {
      ParseLast(files[0]);
      assert files == [files[0]];
    } else if |files| > 1 {
      ManifestRoundTrip(files[1..]);
      assert Manifest(files[1..]) != "" by {
        assert |Quote(files[1])| >= 2;
      }
      ParseCons(files[0], Manifest(files[1..]));
      assert [files[0]] + files[1..] == files;
    }
  }

  /** A manifest of paths without breaks has no breaks. */
  lemma {:induction false} ManifestHasNoBreaks(files: seq<Path>)
    requires forall f | f in files :: NoBreaks(f)
    ensures NoBreaks(Manifest(files))
    decreases |files|
  {
    if |files| >= 1 {
      NoBreaksAppend("'", files[0]);
      NoBreaksAppend("'" + files[0], "'");
    }
    if |files| > 1 {
      ManifestHasNoBreaks(files[1..]);
      NoBreaksAppend(Quote(files[0]), ",");
      NoBreaksAppend(Quote(files[0]) + ",", Manifest(files[1..]));
    }
  }

  lemma GeneratedPrefixHasNoBreaks()
    ensures NoBreaks(GeneratedPrefix)
  {
  }

  lemma LoaderTextHasNoBreaks()
    ensures NoBreaks(LoaderPrefix) && NoBreaks(LoaderSuffix)
  {
  }

  /**
    The header is four lines followed by an empty fifth: the first file's
    marker completes line 5, so its contents start on line 6.
   */
  lemma HeaderLines(stamp: string, files: seq<Path>)
    requires NoBreaks(stamp)
    requires forall f | f in files :: NoBreaks(f)
    ensures SplitLines(CreateHeader(stamp, files))
         == [GeneratedPrefix + stamp, "", LoaderPrefix + Manifest(files) + LoaderSuffix, "", ""]
  {
    var first := GeneratedPrefix + stamp;
    var loader := LoaderPrefix + Manifest(files) + LoaderSuffix;
    assert NoBreaks(first) && NoBreaks(loader) by {
      GeneratedPrefixHasNoBreaks();
      LoaderTextHasNoBreaks();
      NoBreaksAppend(GeneratedPrefix, stamp);
      ManifestHasNoBreaks(files);
      NoBreaksAppend(LoaderPrefix, Manifest(files));
      NoBreaksAppend(LoaderPrefix + Manifest(files), LoaderSuffix);
    }
    var blank := first + "\n\n";
    assert SplitLines(blank) == [first, "", ""] by {
      SingleLine(first);
      AppendTwoLineFeeds(first);
    }
    assert SplitLines(blank + loader) == [first, "", loader] by {
      AppendLineAfterBreak(blank, loader);
    }
    assert !EndsWithCR(blank + loader) by {
      assert (blank + loader)[|blank + loader| - 1] == ';';
    }
    AppendTwoLineFeeds(blank + loader);
    HeaderParts(stamp, files);
  }

  lemma HeaderParts(stamp: string, files: seq<Path>)
    ensures CreateHeader(stamp, files)
         == (GeneratedPrefix + stamp) + "\n\n" + (LoaderPrefix + Manifest(files) + LoaderSuffix) + "\n\n"
  {
  }
}
