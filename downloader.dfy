/**
 * The archive downloader: validates the instrument name, picks the next free
 * trace folder `data/TR_XX` under the working directory, records the archive
 * search, and writes `names.txt` listing the base names of the fetched files.
 */
module Downloader {
  import opened Wrappers
  import opened Text
  import opened Sequences

  datatype DownloadError = InvalidInstrument(instrument: string)

  /**
   * One archive search: the time range, the instrument attribute it names
   * (intensity observable implied), and the sampling interval in hours.
   */
  datatype Query = Query(startTime: string, endTime: string, instrument: string, sampleHours: int)

  const TracePrefix: string := "TR_"
  /** The fallback instrument attribute of the lookup. */
  const DefaultInstrument: string := "hmi"
  const NamesFile: string := "names.txt"
  /** The base directory, `data` under the working directory. */
  const DataDir: string := "data"

  predicate Public(attr: string) { !StartsWith(attr, "_") }

  // ----- instrument validation -----

  /** The lower-cased public attribute names of the instrument registry, in listing order. */
  function ValidInstruments(attrs: seq<string>): (v: seq<string>)
    ensures forall x :: x in v <==> exists a :: a in attrs && Public(a) && Lower(a) == x
    decreases |attrs|
  {
    if attrs == [] then []
    else
      var init := attrs[..|attrs| - 1];
      var last := attrs[|attrs| - 1];
      assert attrs == init + [last];
      ValidInstruments(init) + (if Public(last) then [Lower(last)] else [])
  }

  predicate IsValidInstrument(instrument: string, attrs: seq<string>)
  {
    Lower(instrument) in ValidInstruments(attrs)
  }

  /** Validation compares lower-cased names: the case of the argument never matters. */
  lemma ValidationIgnoresCase(instrument: string, attrs: seq<string>)
    ensures IsValidInstrument(instrument, attrs) == IsValidInstrument(Lower(instrument), attrs)
  {
    LowerIdempotent(instrument);
  }

  /** The exact-case attribute lookup with the `hmi` fallback, as the downloader performs it. */
  function SearchedInstrumentAsWritten(instrument: string, attrs: seq<string>): (r: string)
    ensures r == instrument || r == DefaultInstrument
    ensures instrument in attrs ==> r == instrument
    ensures instrument !in attrs ==> r == DefaultInstrument
  {
    if instrument in attrs then instrument else DefaultInstrument
  }

  /** An upper-case name passes validation yet the lookup silently falls back to `hmi`. */
  lemma UpperCaseNameSearchesDefault()
    ensures IsValidInstrument("AIA", ["aia", "hmi"])
    ensures SearchedInstrumentAsWritten("AIA", ["aia", "hmi"]) == "hmi"
  {
    assert Lower("AIA") == "aia";
    assert Lower("aia") == "aia";
    assert "aia"[..1][0] == 'a';
  }

  /** The first public attribute that matches `instrument` ignoring case, else the fallback. */
  function SearchedInstrument(instrument: string, attrs: seq<string>): (r: string)
    ensures (exists a :: a in attrs && Public(a) && Lower(a) == Lower(instrument)) ==>
              r in attrs && Public(r) && Lower(r) == Lower(instrument)
    ensures (forall a :: a in attrs && Public(a) ==> Lower(a) != Lower(instrument)) ==>
              r == DefaultInstrument
    decreases |attrs|
  {
    if attrs == [] then DefaultInstrument
    else if Public(attrs[0]) && Lower(attrs[0]) == Lower(instrument) then attrs[0]
    else
      var r := SearchedInstrument(instrument, attrs[1..]);
      assert forall a :: a in attrs && a != attrs[0] ==> a in attrs[1..];
      r
  }

  /** The corrected lookup searches the instrument validation accepted, in any case. */
  lemma SearchedInstrumentIsValidated(instrument: string, attrs: seq<string>)
    requires IsValidInstrument(instrument, attrs)
    ensures SearchedInstrument(instrument, attrs) in attrs
    ensures Lower(SearchedInstrument(instrument, attrs)) == Lower(instrument)
    ensures SearchedInstrument(Lower(instrument), attrs) == SearchedInstrument(instrument, attrs)
  {
    LowerIdempotent(instrument);
  }

  /** The upper-case name of the counterexample now searches its own instrument. */
  lemma UpperCaseNameSearchesItself()
    ensures SearchedInstrument("AIA", ["aia", "hmi"]) == "aia"
  {
    assert Lower("AIA") == "aia";
    assert Lower("aia") == "aia";
    assert "aia"[..1][0] == 'a';
  }

  // ----- trace numbering -----

  /** `glob(data/TR_*)`: the paths of the entries of `data` starting with `TR_`. */
  function TraceGlob(entries: seq<string>): (paths: seq<string>)
    ensures forall p :: p in paths <==> exists e :: e in entries && StartsWith(e, TracePrefix) && p == DataDir + "/" + e
    decreases |entries|
  {
    if entries == [] then []
    else
      var init := entries[..|entries| - 1];
      var last := entries[|entries| - 1];
      assert entries == init + [last];
      TraceGlob(init) + (if StartsWith(last, TracePrefix) then [DataDir + "/" + last] else [])
  }

  /** `int(name.replace("TR_", ""))`, None where `int` raises. */
  function TraceNumber(name: string): Option<int>
  {
    ParseInt(RemoveAll(name, TracePrefix))
  }

  /** What the numbering loop collects: the parsable trace numbers, in listing order. */
  function TraceNumbers(paths: seq<string>): (nums: seq<int>)
    ensures forall n :: n in nums <==> exists k :: 0 <= k < |paths| && TraceNumber(BaseName(paths[k])) == Some(n)
    decreases |paths|
  {
    if paths == [] then []
    else
      var init := paths[..|paths| - 1];
      var last := paths[|paths| - 1];
      assert forall k :: 0 <= k < |init| ==> init[k] == paths[k];
      TraceNumbers(init) + (match TraceNumber(BaseName(last)) case Some(n) => [n] case None => [])
  }

  /** One more than the largest number, or 1 when there is none. */
  function NextTrace(nums: seq<int>): (n: int)
    ensures forall k :: 0 <= k < |nums| ==> nums[k] < n
    ensures nums == [] ==> n == 1
    ensures nums != [] ==> n - 1 in nums
  {
    if nums == [] then 1 else MaxOf(nums) + 1
  }

  /** `f"TR_{n:02d}"`. */
  function TraceFolderName(n: int): string
  {
    TracePrefix + Format02(n)
  }

  /** A folder name reads back as its own number, and the glob pattern matches it. */
  lemma TraceFolderNameRoundTrip(n: int)
    ensures StartsWith(TraceFolderName(n), TracePrefix)
    ensures TraceNumber(TraceFolderName(n)) == Some(n)
  {
    var digits := Format02(n);
    assert TraceFolderName(n)[..|TracePrefix|] == TracePrefix;
    RemoveAllPrefix(TracePrefix, digits);
    FormatChars(n);
    RemoveAllAbsent(digits, TracePrefix);
    ParseFormat02(n);
  }

  /** The digits of a folder name hold neither a separator nor the prefix's first letter. */
  lemma FormatChars(n: int)
    ensures forall k :: 0 <= k < |Format02(n)| ==> IsDigit(Format02(n)[k]) || Format02(n)[k] == '-'
  {
    if n < 0 {
      assert Format02(n) == "-" + NatToString(-n);
    }
  }

  lemma FolderNameIsPlain(n: int)
    ensures '/' !in TraceFolderName(n)
  {
    FormatChars(n);
  }

  /** The trace number a download in a directory holding `entries` uses. */
  function NewTraceNumber(entries: seq<string>): int
  {
    NextTrace(TraceNumbers(TraceGlob(entries)))
  }

  /** Entry names of a directory carry no separator. */
  predicate PlainNames(entries: seq<string>)
  {
    forall k :: 0 <= k < |entries| ==> '/' !in entries[k]
  }

  lemma PlainNamesAppend(entries: seq<string>, e: string)
    requires PlainNames(entries) && '/' !in e
    ensures PlainNames(entries + [e])
  {
  }

  /** The new trace number exceeds the number of every existing `TR_*` folder whose name parses. */
  lemma NewTraceNumberExceeds(entries: seq<string>, e: string, m: int)
    requires PlainNames(entries)
    requires e in entries && StartsWith(e, TracePrefix) && TraceNumber(e) == Some(m)
    ensures m < NewTraceNumber(entries)
  {
    var k :| 0 <= k < |entries| && entries[k] == e;
    BaseNameOfJoin(DataDir, e);
    assert DataDir + "/" + e in TraceGlob(entries);
    var nums := TraceNumbers(TraceGlob(entries));
    assert m in nums;
  }

  /** The new trace folder never already exists, so every download starts a new one. */
  lemma NewTraceFolderIsFresh(entries: seq<string>)
    requires PlainNames(entries)
    ensures TraceFolderName(NewTraceNumber(entries)) !in entries
  {
    var n := NewTraceNumber(entries);
    if TraceFolderName(n) in entries {
      TraceFolderNameRoundTrip(n);
      NewTraceNumberExceeds(entries, TraceFolderName(n), n);
    }
  }

  /** The numbering takes the largest number found, and only numbers found: it is tight. */
  lemma NewTraceNumberTight(entries: seq<string>)
    ensures NewTraceNumber(entries) == 1 ||
            exists k :: 0 <= k < |TraceGlob(entries)| &&
              TraceNumber(BaseName(TraceGlob(entries)[k])) == Some(NewTraceNumber(entries) - 1)
  {
    var paths := TraceGlob(entries);
    var nums := TraceNumbers(paths);
    if nums != [] {
      var n := NextTrace(nums) - 1;
      assert n in nums;
      var k :| 0 <= k < |paths| && TraceNumber(BaseName(paths[k])) == Some(n);
      assert NewTraceNumber(entries) - 1 == n;
      assert TraceNumber(BaseName(TraceGlob(entries)[k])) == Some(NewTraceNumber(entries) - 1);
    }
  }

  /** After a download adds folder n, the next download uses n + 1. */
  lemma NumberingAdvances(entries: seq<string>)
    ensures NewTraceNumber(entries + [TraceFolderName(NewTraceNumber(entries))]) == NewTraceNumber(entries) + 1
  {
    var n := NewTraceNumber(entries);
    var f := TraceFolderName(n);
    TraceFolderNameRoundTrip(n);
    BaseNameOfJoin(DataDir, f);
    GlobAppend(entries, f);
    NumbersAppend(TraceGlob(entries), DataDir + "/" + f);
    NextTraceAppend(TraceNumbers(TraceGlob(entries)));
  }

  lemma GlobAppend(entries: seq<string>, e: string)
    requires StartsWith(e, TracePrefix)
    ensures TraceGlob(entries + [e]) == TraceGlob(entries) + [DataDir + "/" + e]
  {
    assert (entries + [e])[..|entries|] == entries;
  }

  lemma NumbersAppend(paths: seq<string>, p: string)
    ensures TraceNumbers(paths + [p]) ==
            TraceNumbers(paths) + (match TraceNumber(BaseName(p)) case Some(n) => [n] case None => [])
  {
    assert (paths + [p])[..|paths|] == paths;
  }

  /** Adding the next number makes it the largest, so numbering moves on by one. */
  lemma NextTraceAppend(nums: seq<int>)
    ensures NextTrace(nums + [NextTrace(nums)]) == NextTrace(nums) + 1
  {
    var n := NextTrace(nums);
    var m := NextTrace(nums + [n]);
    assert (nums + [n])[|nums|] == n;
    assert m - 1 in nums + [n];
  }

  /** The numbering loop over the globbed paths. */
  method CollectTraceNumbers(paths: seq<string>) returns (nums: seq<int>)
    ensures nums == TraceNumbers(paths)
  {
    nums := [];
    for k := 0 to |paths|
      invariant nums == TraceNumbers(paths[..k])
    {
      assert paths[..k + 1][..k] == paths[..k];
      var basename := BaseName(paths[k]);
      match TraceNumber(basename) {
        case Some(num) => nums := nums + [num];
        case None =>
      }
    }
    assert paths[..|paths|] == paths;
  }

  // ----- names.txt -----

  /** The contents of `names.txt`: one base name per line, each line ended by a newline. */
  function NamesText(files: seq<string>): string
    decreases |files|
  {
    if files == [] then ""
    else NamesText(files[..|files| - 1]) + BaseName(files[|files| - 1]) + "\n"
  }

  /** The base names of the fetched files, in order. */
  function BaseNames(files: seq<string>): (names: seq<string>)
    ensures |names| == |files| && forall k :: 0 <= k < |files| ==> names[k] == BaseName(files[k])
  {
    seq(|files|, k requires 0 <= k < |files| => BaseName(files[k]))
  }

  lemma {:induction false} NamesTextCons(file: string, files: seq<string>)
    ensures NamesText([file] + files) == BaseName(file) + "\n" + NamesText(files)
    decreases |files|
  {
    if files != [] {
      var init := files[..|files| - 1];
      assert ([file] + files)[..|files|] == [file] + init;
      NamesTextCons(file, init);
    } else {
      assert [file][..0] == [];
    }
  }

  lemma BaseNamesCons(file: string, files: seq<string>)
    ensures BaseNames([file] + files) == [BaseName(file)] + BaseNames(files)
  {
    var all := [file] + files;
    assert forall k :: 0 <= k < |files| ==> all[k + 1] == files[k];
  }

  /** Reading `names.txt` back line by line gives the base names of the fetched files. */
  lemma {:induction false} NamesTextLines(files: seq<string>)
    requires forall k :: 0 <= k < |files| ==> '\n' !in BaseName(files[k])
    ensures Lines(NamesText(files)) == BaseNames(files)
    decreases |files|
  {
    if files != [] {
      var first, rest := files[0], files[1..];
      assert files == [first] + rest;
      forall k | 0 <= k < |rest|
        ensures '\n' !in BaseName(rest[k])
      {
        assert rest[k] == files[k + 1];
      }
      NamesTextLines(rest);
      NamesTextCons(first, rest);
      LinesOfLine(BaseName(first), NamesText(rest));
      BaseNamesCons(first, rest);
    }
  }

  /** The writing loop of `names.txt`. */
  method WriteNames(files: seq<string>) returns (text: string)
    ensures text == NamesText(files)
  {
    text := "";
    for k := 0 to |files|
      invariant text == NamesText(files[..k])
    {
      assert files[..k + 1][..k] == files[..k];
      text := text + BaseName(files[k]) + "\n";
    }
    assert files[..|files|] == files;
  }

  // ----- the data directory -----

  /** The path f lies inside the entry e: it starts with e and a separator. */
  predicate Under(f: string, e: string)
  {
    |e| < |f| && f[..|e| + 1] == e + "/"
  }

  /** Every written file lies inside one of the listed entries. */
  predicate FilesUnder(files: map<string, string>, entries: seq<string>)
  {
    forall f :: f in files ==> exists k :: 0 <= k < |entries| && Under(f, entries[k])
  }

  /** A path inside a separator-free folder lies inside no other separator-free entry. */
  lemma UnderOnlyItsFolder(folder: string, name: string, e: string)
    requires '/' !in folder && '/' !in e && Under(folder + "/" + name, e)
    ensures e == folder
  {
    var f := folder + "/" + name;
    var head := f[..|e| + 1];
    assert head == e + "/";
    assert forall j :: 0 <= j < |e| ==> f[j] == head[j] == e[j] != '/';
    assert forall j :: 0 <= j < |folder| ==> f[j] == folder[j] != '/';
    assert f[|folder|] == '/' && f[|e|] == head[|e|] == '/';
    assert |e| == |folder|;
    assert e == head[..|e|] == f[..|folder|] == folder;
  }

  /** A folder that is not yet an entry holds no written file. */
  lemma FreshFolderIsEmpty(files: map<string, string>, entries: seq<string>, folder: string, name: string)
    requires PlainNames(entries) && FilesUnder(files, entries)
    requires '/' !in folder && folder !in entries
    ensures folder + "/" + name !in files
  {
    if folder + "/" + name in files {
      var k :| 0 <= k < |entries| && Under(folder + "/" + name, entries[k]);
      UnderOnlyItsFolder(folder, name, entries[k]);
      assert false;
    }
  }

  /** Writing a file inside a newly listed folder keeps every file inside a listed entry. */
  lemma FilesUnderAppend(files: map<string, string>, entries: seq<string>, folder: string, name: string, text: string)
    requires FilesUnder(files, entries)
    ensures FilesUnder(files[folder + "/" + name := text], entries + [folder])
  {
    var all := entries + [folder];
    var f0 := folder + "/" + name;
    assert Under(f0, all[|entries|]) by {
      assert f0[..|folder| + 1] == folder + "/";
    }
    forall f | f in files
      ensures exists k :: 0 <= k < |all| && Under(f, all[k])
    {
      var k :| 0 <= k < |entries| && Under(f, entries[k]);
      assert all[k] == entries[k];
    }
  }

  /** The `data` directory under the working directory, and what the downloader issued. */
  class DataDirectory {
    /** Whether `data` exists. */
    var present: bool
    /** The names of the entries of `data`, in listing order. */
    var entries: seq<string>
    /** The text files written below `data`, by path relative to it. */
    var files: map<string, string>
    /** The archive searches issued, in order. */
    var queries: seq<Query>

    ghost predicate Valid()
      reads this
    {
      (!present ==> entries == []) && PlainNames(entries) && FilesUnder(files, entries)
    }

    constructor ()
      ensures Valid() && !present && entries == [] && files == map[] && queries == []
    {
      present := false;
      entries := [];
      files := map[];
      queries := [];
    }

    /**
     * `download_fits`: `attrs` is the attribute listing of the instrument
     * registry and `fetched` the paths the archive client returns for the search.
     */
    method DownloadFits(startTime: string, endTime: string, instrument: string, sampleHours: int,
                        attrs: seq<string>, fetched: seq<string>)
      returns (r: Result<seq<string>, DownloadError>)
      requires Valid()
      modifies this
      ensures Valid()
      ensures !IsValidInstrument(instrument, attrs) ==>
                r == Failure(InvalidInstrument(instrument)) && present == old(present) &&
                entries == old(entries) && files == old(files) && queries == old(queries)
      ensures IsValidInstrument(instrument, attrs) ==>
                var folder := TraceFolderName(NewTraceNumber(old(entries)));
                r == Success(fetched) && present &&
                folder !in old(entries) && entries == old(entries) + [folder] &&
                folder + "/" + NamesFile !in old(files) &&
                files == old(files)[folder + "/" + NamesFile := NamesText(fetched)] &&
                queries == old(queries) + [Query(startTime, endTime, SearchedInstrument(instrument, attrs), sampleHours)]
    {
      if Lower(instrument) !in ValidInstruments(attrs) {
        return Failure(InvalidInstrument(instrument));
      }
      present := true;
      var paths := TraceGlob(entries);
      var nums := CollectTraceNumbers(paths);
      var newTrace := NextTrace(nums);
      var folder := TraceFolderName(newTrace);
      NewTraceFolderIsFresh(entries);
      FolderNameIsPlain(newTrace);
      PlainNamesAppend(entries, folder);
      FreshFolderIsEmpty(files, entries, folder, NamesFile);
      var text := WriteNames(fetched);
      FilesUnderAppend(files, entries, folder, NamesFile, text);
      entries := entries + [folder];
      queries := queries + [Query(startTime, endTime, SearchedInstrument(instrument, attrs), sampleHours)];
      files := files[folder + "/" + NamesFile := text];
      r := Success(fetched);
    }
  }

  /** Trace folders are never reused: the same directory yields distinct folders on consecutive downloads. */
  lemma ConsecutiveFoldersDiffer(entries: seq<string>)
    ensures TraceFolderName(NewTraceNumber(entries)) !=
            TraceFolderName(NewTraceNumber(entries + [TraceFolderName(NewTraceNumber(entries))]))
  {
    var n := NewTraceNumber(entries);
    NumberingAdvances(entries);
    TraceFolderNameRoundTrip(n);
    TraceFolderNameRoundTrip(n + 1);
  }
}
