/**
 * Line scanning as values: the query id current after each line, and the sequence of decoded
 * records a file, a directory and a whole directory walk credit to query ids.
 */
module Scan {
  import opened Results
  import opened Patterns
  import opened Tables
  import opened Digits

  /** Stands in for `json.loads(line)["data"]`: the metrics of a data line, already decoded. */
  type Decoder = string -> Row

  /** The id a file starts with, before any marker line. */
  const InitialId: string := "0"

  /**
   * The query id current after the lines: the capture of the last marker line among them,
   * or `start` when none is a marker.
   */
  function CurrentId(start: string, lines: seq<string>): string
    decreases |lines|
  {
    if lines == [] then start
    else match QueryMarker(lines[|lines| - 1])
      case Some(id) => id
      case None => CurrentId(start, lines[..|lines| - 1])
  }

  /**
   * The records the lines credit, in order: each data line's decoded metrics under the id
   * current after that line, so a marker on the same line takes effect first.
   */
  function Credits(start: string, lines: seq<string>, decode: Decoder): seq<Credit>
    decreases |lines|
  {
    if lines == [] then []
    else
      var last := lines[|lines| - 1];
      Credits(start, lines[..|lines| - 1], decode) +
        (if IsDataLine(last) then [Credit(CurrentId(start, lines), decode(Clean(last)))] else [])
  }

  /** The records of one file; every file starts again at id "0". */
  function FileCredits(lines: seq<string>, decode: Decoder): seq<Credit> {
    Credits(InitialId, lines, decode)
  }

  /** The records of the files of one directory, file after file. */
  function DirCredits(files: seq<seq<string>>, decode: Decoder): seq<Credit>
    decreases |files|
  {
    if files == [] then []
    else DirCredits(files[..|files| - 1], decode) + FileCredits(files[|files| - 1], decode)
  }

  /** The records of every directory the walk visits, the root first. */
  function TreeCredits(dirs: seq<seq<seq<string>>>, decode: Decoder): seq<Credit>
    decreases |dirs|
  {
    if dirs == [] then []
    else TreeCredits(dirs[..|dirs| - 1], decode) + DirCredits(dirs[|dirs| - 1], decode)
  }

  /** Scanning one more line: the id it leaves current, and the record it credits if any. */
  lemma CreditsStep(start: string, lines: seq<string>, i: nat, decode: Decoder)
    requires i < |lines|
    ensures CurrentId(start, lines[..i + 1])
         == match QueryMarker(lines[i]) case Some(id) => id case None => CurrentId(start, lines[..i])
    ensures Credits(start, lines[..i + 1], decode)
         == Credits(start, lines[..i], decode) +
            (if IsDataLine(lines[i]) then [Credit(CurrentId(start, lines[..i + 1]), decode(Clean(lines[i])))] else [])
  {
    assert lines[..i + 1][..i] == lines[..i];
  }

  /** After a marker line with id, and no marker line after it, the current id is id. */
  lemma {:induction false} CurrentIdIsLastMarker(start: string, lines: seq<string>, j: nat, id: string)
    requires j < |lines| && QueryMarker(lines[j]) == Some(id)
    requires forall i :: j < i < |lines| ==> QueryMarker(lines[i]).None?
    ensures CurrentId(start, lines) == id
    decreases |lines|
  {
    if j < |lines| - 1 {
      var prefix := lines[..|lines| - 1];
      assert forall i :: j < i < |prefix| ==> prefix[i] == lines[i];
      CurrentIdIsLastMarker(start, prefix, j, id);
    }
  }

  /** Until a marker line is seen, the current id stays the starting one. */
  lemma {:induction false} CurrentIdWithoutMarker(start: string, lines: seq<string>)
    requires forall i :: 0 <= i < |lines| ==> QueryMarker(lines[i]).None?
    ensures CurrentId(start, lines) == start
    decreases |lines|
  {
    if lines != [] {
      var prefix := lines[..|lines| - 1];
      assert forall i :: 0 <= i < |prefix| ==> prefix[i] == lines[i];
      CurrentIdWithoutMarker(start, prefix);
    }
  }

  /**
   * A line that is both a marker and a data line credits its record to the id it itself
   * names, whatever id was current before it.
   */
  lemma MarkerBeforeData(start: string, lines: seq<string>, line: string, decode: Decoder)
    requires QueryMarker(line).Some? && IsDataLine(line)
    ensures Credits(start, lines + [line], decode)
         == Credits(start, lines, decode) + [Credit(QueryMarker(line).value, decode(Clean(line)))]
  {
    assert (lines + [line])[..|lines|] == lines;
  }

  /** The number of data lines among the lines. */
  function DataCount(lines: seq<string>): (r: nat)
    ensures r <= |lines|
    decreases |lines|
  {
    if lines == [] then 0
    else DataCount(lines[..|lines| - 1]) + (if IsDataLine(lines[|lines| - 1]) then 1 else 0)
  }

  /** A file credits exactly as many records as it has data lines. */
  lemma {:induction false} CreditsLength(start: string, lines: seq<string>, decode: Decoder)
    ensures |Credits(start, lines, decode)| == DataCount(lines)
    decreases |lines|
  {
    if lines != [] {
      CreditsLength(start, lines[..|lines| - 1], decode);
    }
  }

  /** A later data line has a higher rank among the data lines than an earlier one. */
  lemma {:induction false} DataRanksIncrease(lines: seq<string>, j: nat, k: nat)
    requires j < k <= |lines| && IsDataLine(lines[j])
    ensures DataCount(lines[..j]) < DataCount(lines[..k])
    decreases k - j
  {
    if k == j + 1 {
      assert lines[..j + 1][..j] == lines[..j];
    } else {
      DataRanksIncrease(lines, j, k - 1);
      assert lines[..k][..k - 1] == lines[..k - 1];
    }
  }

  /**
   * The data line j, the r-th data line of the file with r counted from 0, contributes the r-th
   * record: its decoded metrics under the id current at that line. With CreditsLength and
   * DataRanksIncrease, the credits are the data lines' records, each exactly once, in line order.
   */
  lemma {:induction false} CreditsOfLines(start: string, lines: seq<string>, decode: Decoder, j: nat)
    requires j < |lines| && IsDataLine(lines[j])
    ensures DataCount(lines[..j]) < |Credits(start, lines, decode)|
    ensures Credits(start, lines, decode)[DataCount(lines[..j])]
         == Credit(CurrentId(start, lines[..j + 1]), decode(Clean(lines[j])))
    decreases |lines|
  {
    var prefix := lines[..|lines| - 1];
    CreditsLength(start, prefix, decode);
    if j == |lines| - 1 {
      assert lines[..j + 1] == lines;
      assert lines[..j] == prefix;
    } else {
      assert prefix[..j] == lines[..j];
      assert prefix[..j + 1] == lines[..j + 1];
      CreditsOfLines(start, prefix, decode, j);
    }
  }

  /** Only data lines are credited: a file without data lines adds no record. */
  lemma {:induction false} NoDataNoCredits(start: string, lines: seq<string>, decode: Decoder)
    requires forall i :: 0 <= i < |lines| ==> !IsDataLine(lines[i])
    ensures Credits(start, lines, decode) == []
    decreases |lines|
  {
    if lines != [] {
      var prefix := lines[..|lines| - 1];
      assert forall i :: 0 <= i < |prefix| ==> prefix[i] == lines[i];
      NoDataNoCredits(start, prefix, decode);
    }
  }

  /** Visiting one more file of a directory appends that file's records. */
  lemma DirCreditsStep(files: seq<seq<string>>, f: nat, decode: Decoder)
    requires f < |files|
    ensures DirCredits(files[..f + 1], decode) == DirCredits(files[..f], decode) + FileCredits(files[f], decode)
  {
    assert files[..f + 1][..f] == files[..f];
  }

  /** Visiting one more directory appends that directory's records. */
  lemma TreeCreditsSnoc(dirs: seq<seq<seq<string>>>, files: seq<seq<string>>, decode: Decoder)
    ensures TreeCredits(dirs + [files], decode) == TreeCredits(dirs, decode) + DirCredits(files, decode)
  {
    assert (dirs + [files])[..|dirs|] == dirs;
  }

  /** A walk over the parent directory, holding no file, and one run directory credits that run's records. */
  lemma SingleRunTree(files: seq<seq<string>>, decode: Decoder)
    ensures TreeCredits([[], files], decode) == DirCredits(files, decode)
  {
    var noDirs: seq<seq<seq<string>>>, noFiles: seq<seq<string>> := [], [];
    TreeCreditsSnoc(noDirs, noFiles, decode);
    TreeCreditsSnoc(noDirs + [noFiles], files, decode);
    assert [[], files] == noDirs + [noFiles] + [files];
  }

  /** A directory with one file credits that file's records. */
  lemma SingleFileDir(file: seq<string>, decode: Decoder)
    ensures DirCredits([file], decode) == FileCredits(file, decode)
  {
    assert [file][..0] == [];
  }

  /**
   * A file holding the marker line of query n followed by a data line credits that line's
   * record to `str(n)`.
   */
  lemma MarkedRecordFile(n: nat, dataLine: string, decode: Decoder)
    requires 1 <= n <= 99
    requires IsDataLine(dataLine) && QueryMarker(dataLine).None?
    ensures FileCredits(["Query " + DecimalString(n) + ".\"", dataLine], decode)
         == [Credit(DecimalString(n), decode(Clean(dataLine)))]
  {
    var marker := "Query " + DecimalString(n) + ".\"";
    var lines := [marker, dataLine];
    MarkerOfQueryLine(n);
    assert marker[..8] != DataPrefix by { assert marker[0] == 'Q'; }
    assert lines[..1] == [marker];
    assert [marker][..0] == [];
    assert CurrentId(InitialId, lines) == DecimalString(n);
    assert Credits(InitialId, [marker], decode) == [];
  }
}
