/** `load_data`: the file name's extension chooses the spreadsheet decoder. */
module Loader {
  import opened Wrappers

  /** The decoder engine handed to `read_excel`. */
  datatype Engine = Openpyxl | Xlrd

  /** `s.split(sep)`: the pieces between separators, at least one. */
  function Split(s: string, sep: char): (parts: seq<string>)
    ensures |parts| >= 1
  {
    if s == [] then [""]
    else
      var p := Split(s[..|s| - 1], sep);
      var c := s[|s| - 1];
      if c == sep then p + [""]
      else p[..|p| - 1] + [p[|p| - 1] + [c]]
  }

  /** No piece holds the separator, and the last piece is the text after the
      last separator (all of `s` when there is none). */
  lemma {:induction false} SplitPieces(s: string, sep: char)
    ensures forall i :: 0 <= i < |Split(s, sep)| ==> sep !in Split(s, sep)[i]
    ensures var parts := Split(s, sep);
      var last := parts[|parts| - 1];
      |last| <= |s| && s[|s| - |last|..] == last &&
      (|last| == |s| || s[|s| - |last| - 1] == sep)
  {
    if s != [] {
      SplitPieces(s[..|s| - 1], sep);
    }
  }

  /** `sep.join(parts)`. */
  function Join(parts: seq<string>, sep: char): string
    requires |parts| >= 1
  {
    if |parts| == 1 then parts[0]
    else Join(parts[..|parts| - 1], sep) + [sep] + parts[|parts| - 1]
  }

  lemma JoinSnoc(p: seq<string>, x: string, sep: char)
    requires |p| >= 1
    ensures Join(p + [x], sep) == Join(p, sep) + [sep] + x
  {
    assert (p + [x])[..|p|] == p;
  }

  lemma JoinExtendLast(p: seq<string>, c: char, sep: char)
    requires |p| >= 1
    ensures Join(p[..|p| - 1] + [p[|p| - 1] + [c]], sep) == Join(p, sep) + [c]
  {
    if |p| > 1 {
      var q := p[..|p| - 1];
      JoinSnoc(q, p[|p| - 1] + [c], sep);
      assert p == q + [p[|p| - 1]];
      JoinSnoc(q, p[|p| - 1], sep);
    }
  }

  /** Joining the pieces with the separator gives back the original text. */
  lemma {:induction false} SplitJoin(s: string, sep: char)
    ensures Join(Split(s, sep), sep) == s
  {
    if s != [] {
      var p := Split(s[..|s| - 1], sep);
      var c := s[|s| - 1];
      SplitJoin(s[..|s| - 1], sep);
      assert s == s[..|s| - 1] + [c];
      if c == sep {
        assert Split(s, sep) == p + [""];
        JoinSnoc(p, "", sep);
      } else {
        assert Split(s, sep) == p[..|p| - 1] + [p[|p| - 1] + [c]];
        JoinExtendLast(p, c, sep);
      }
    }
  }

  /** `path.name.split('.')[-1]`. */
  function Extension(fileName: string): (ext: string)
    ensures '.' !in ext
    ensures |ext| <= |fileName| && fileName[|fileName| - |ext|..] == ext
    ensures |ext| == |fileName| || fileName[|fileName| - |ext| - 1] == '.'
  {
    var parts := Split(fileName, '.');
    SplitPieces(fileName, '.');
    parts[|parts| - 1]
  }

  /** The extension is exactly what follows the last dot. */
  lemma ExtensionAfterLastDot(stem: string, ext: string)
    requires '.' !in ext
    ensures Extension(stem + "." + ext) == ext
  {
    var name := stem + "." + ext;
    var r := Extension(name);
    assert name[|stem|] == '.';
    assert forall k :: |name| - |r| <= k < |name| ==> name[k] != '.' by {
      forall k | |name| - |r| <= k < |name| ensures name[k] != '.' {
        assert name[k] == r[k - (|name| - |r|)];
      }
    }
    assert forall k :: |stem| < k < |name| ==> name[k] != '.' by {
      forall k | |stem| < k < |name| ensures name[k] != '.' {
        assert name[k] == ext[k - |stem| - 1];
      }
    }
    if |r| > |ext| {
      assert false;
    } else if |r| < |ext| {
      assert false;
    }
    assert r == name[|name| - |ext|..] == ext;
  }

  /** A file name without a dot is its own extension. */
  lemma ExtensionWithoutDot(fileName: string)
    requires '.' !in fileName
    ensures Extension(fileName) == fileName
  {
    var r := Extension(fileName);
  }

  /** `load_data`: "xlsx" selects openpyxl, "xls" selects xlrd, and any other
      extension is reported as unsupported (None), which halts the page. */
  function LoadData(fileName: string): (r: Option<Engine>)
    ensures r == Some(Openpyxl) <==> Extension(fileName) == "xlsx"
    ensures r == Some(Xlrd) <==> Extension(fileName) == "xls"
    ensures r == None <==> Extension(fileName) != "xlsx" && Extension(fileName) != "xls"
  {
    var ext := Extension(fileName);
    if ext == "xlsx" then Some(Openpyxl)
    else if ext == "xls" then Some(Xlrd)
    else None
  }

  /** A name ending in ".xlsx" loads with openpyxl and one ending in ".xls"
      with xlrd, whatever comes before the last dot. */
  lemma LoadDataByExtension(stem: string)
    ensures LoadData(stem + ".xlsx") == Some(Openpyxl)
    ensures LoadData(stem + ".xls") == Some(Xlrd)
  {
    ExtensionAfterLastDot(stem, "xlsx");
    assert stem + ".xlsx" == stem + "." + "xlsx";
    ExtensionAfterLastDot(stem, "xls");
    assert stem + ".xls" == stem + "." + "xls";
  }
}
