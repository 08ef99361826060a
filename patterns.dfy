/**
 * The two regular expressions of the aggregator, written out as string predicates:
 * the query marker `Query.(?P<number>\d\d|\d)."`, found anywhere in a line by `re.search`,
 * and the data record shape `{"data":\D.*}}`, anchored at the line start by `re.match`.
 */
module Patterns {
  import opened Results
  import opened Digits

  /** The regular-expression token `.`: any character except a newline. */
  predicate IsAny(c: char) {
    c != '\n'
  }

  /** The marker pattern matches at position p, its group taking exactly `width` digits. */
  predicate MarkerMatches(line: string, p: nat, width: nat) {
    && 1 <= width <= 2
    && p + 8 + width <= |line|
    && line[p..p + 5] == "Query"
    && IsAny(line[p + 5])
    && (forall i :: p + 6 <= i < p + 6 + width ==> IsDigit(line[i]))
    && IsAny(line[p + 6 + width])
    && line[p + 7 + width] == '"'
  }

  /** The capture of an attempt at position p: the alternation tries two digits before one. */
  function MarkerAt(line: string, p: nat): (r: Option<string>)
    ensures r.Some? <==> MarkerMatches(line, p, 1) || MarkerMatches(line, p, 2)
    ensures r.Some? ==> 1 <= |r.value| <= 2 && AllDigits(r.value)
    ensures MarkerMatches(line, p, 2) ==> r == Some(line[p + 6..p + 8])
    ensures !MarkerMatches(line, p, 2) && MarkerMatches(line, p, 1) ==> r == Some(line[p + 6..p + 7])
  {
    if MarkerMatches(line, p, 2) then Some(line[p + 6..p + 8])
    else if MarkerMatches(line, p, 1) then Some(line[p + 6..p + 7])
    else None
  }

  /** `re.search` from position p onwards: the first position where an attempt succeeds. */
  function SearchFrom(line: string, p: nat): (r: Option<string>)
    ensures r.Some? ==> 1 <= |r.value| <= 2 && AllDigits(r.value)
    decreases |line| - p
  {
    if p >= |line| then None
    else match MarkerAt(line, p)
      case Some(id) => Some(id)
      case None => SearchFrom(line, p + 1)
  }

  /** The captured query number of a marker line, verbatim, or None when the line holds no marker. */
  function QueryMarker(line: string): Option<string> {
    SearchFrom(line, 0)
  }

  /** The search from p returns the capture of the leftmost successful attempt at or after p. */
  lemma {:induction false} SearchFromIsLeftmost(line: string, p: nat)
    ensures SearchFrom(line, p).None? <==> forall j :: p <= j ==> MarkerAt(line, j).None?
    ensures SearchFrom(line, p).Some? ==>
      exists j :: p <= j && MarkerAt(line, j) == SearchFrom(line, p) &&
        forall i :: p <= i < j ==> MarkerAt(line, i).None?
    decreases |line| - p
  {
    if p >= |line| {
      forall j | p <= j ensures MarkerAt(line, j).None? {
      }
    } else if MarkerAt(line, p).None? {
      SearchFromIsLeftmost(line, p + 1);
      if SearchFrom(line, p).Some? {
        var j :| p + 1 <= j && MarkerAt(line, j) == SearchFrom(line, p + 1) &&
          forall i :: p + 1 <= i < j ==> MarkerAt(line, i).None?;
        assert forall i :: p <= i < j ==> MarkerAt(line, i).None?;
      }
    }
  }

  /**
   * A line is a marker exactly when the pattern matches somewhere in it, and its id is
   * the capture of the leftmost match.
   */
  lemma QueryMarkerIsLeftmostMatch(line: string, id: string)
    ensures QueryMarker(line) == Some(id) <==>
      exists j :: 0 <= j && MarkerAt(line, j) == Some(id) &&
        forall i :: 0 <= i < j ==> MarkerAt(line, i).None?
    ensures QueryMarker(line).None? <==> forall j :: 0 <= j ==> MarkerAt(line, j).None?
  {
    SearchFromIsLeftmost(line, 0);
    if exists j :: 0 <= j && MarkerAt(line, j) == Some(id) &&
        forall i :: 0 <= i < j ==> MarkerAt(line, i).None? {
      var j :| 0 <= j && MarkerAt(line, j) == Some(id) &&
        forall i :: 0 <= i < j ==> MarkerAt(line, i).None?;
      if QueryMarker(line).Some? {
        var j' :| 0 <= j' && MarkerAt(line, j') == QueryMarker(line) &&
          forall i :: 0 <= i < j' ==> MarkerAt(line, i).None?;
        assert !(j < j') && !(j' < j);
      }
    }
  }

  /** The marker line the benchmark prints for query n (1 <= n <= 99) yields `str(n)`. */
  lemma MarkerOfQueryLine(n: nat)
    requires 1 <= n <= 99
    ensures QueryMarker("Query " + DecimalString(n) + ".\"") == Some(DecimalString(n))
  {
    var s := DecimalString(n);
    var line := "Query " + s + ".\"";
    assert line[0..5] == "Query";
    if n < 10 {
      assert !MarkerMatches(line, 0, 2);
      assert MarkerMatches(line, 0, 1);
      assert line[6..7] == s;
    } else {
      assert MarkerMatches(line, 0, 2);
      assert line[6..8] == s;
    }
  }

  /** The capture is kept verbatim, so `"07"` stays `"07"`, and both `.` take any character. */
  lemma MarkerKeepsLeadingZero()
    ensures QueryMarker("Query_07x\"") == Some("07")
  {
    var a := "Query_07x\"";
    assert a[0..5] == "Query" && MarkerMatches(a, 0, 2) && a[6..8] == "07";
    assert SearchFrom(a, 0) == MarkerAt(a, 0);
  }

  /** A two-digit attempt that leaves no room for the closing `."` falls back to one digit. */
  lemma MarkerFallsBackToOneDigit()
    ensures QueryMarker("Query 12\"") == Some("1")
  {
    var b := "Query 12\"";
    assert b[0..5] == "Query" && !MarkerMatches(b, 0, 2) && MarkerMatches(b, 0, 1) && b[6..7] == "1";
    assert SearchFrom(b, 0) == MarkerAt(b, 0);
  }

  /** The marker may sit anywhere in the line. */
  lemma MarkerInMidLine()
    ensures QueryMarker("> Query 5.\" done") == Some("5")
  {
    var c := "> Query 5.\" done";
    assert !MarkerMatches(c, 0, 1) && !MarkerMatches(c, 0, 2);
    assert !MarkerMatches(c, 1, 1) && !MarkerMatches(c, 1, 2);
    assert c[2..7] == "Query" && MarkerMatches(c, 2, 1) && !MarkerMatches(c, 2, 2) && c[8..9] == "5";
    assert SearchFrom(c, 0) == SearchFrom(c, 1) == SearchFrom(c, 2) == MarkerAt(c, 2);
  }

  /** Without the closing quote there is no marker. */
  lemma MarkerNeedsQuote()
    ensures QueryMarker("Query 5.") == None
  {
    var d := "Query 5.";
    forall p: nat | p < |d| ensures MarkerAt(d, p).None? {
    }
    SearchFromIsLeftmost(d, 0);
  }

  /** `{"data":`, the literal prefix of a data record line. */
  const DataPrefix: string := "{\"data\":"

  /** `.*}}` matches from position i: a `}}` follows, with no newline before it. */
  predicate ClosesFrom(line: string, i: nat)
    decreases |line| - i
  {
    if i + 2 > |line| then false
    else if line[i] == '}' && line[i + 1] == '}' then true
    else IsAny(line[i]) && ClosesFrom(line, i + 1)
  }

  /** `.*` spans line[i..j] and `}}` sits at j. */
  ghost predicate ClosesAt(line: string, i: nat, j: nat) {
    && i <= j && j + 2 <= |line|
    && line[j] == '}' && line[j + 1] == '}'
    && forall k :: i <= k < j ==> IsAny(line[k])
  }

  /** The scan for `}}` succeeds exactly when some `}}` is reachable without crossing a newline. */
  lemma {:induction false} ClosesFromIff(line: string, i: nat)
    ensures ClosesFrom(line, i) <==> exists j :: ClosesAt(line, i, j)
    decreases |line| - i
  {
    if i + 2 > |line| {
    } else if line[i] == '}' && line[i + 1] == '}' {
      assert ClosesAt(line, i, i);
    } else {
      ClosesFromIff(line, i + 1);
      if exists j :: ClosesAt(line, i, j) {
        var j :| ClosesAt(line, i, j);
        assert j != i;
        assert ClosesAt(line, i + 1, j);
      }
      if IsAny(line[i]) && ClosesFrom(line, i + 1) {
        var j :| ClosesAt(line, i + 1, j);
        assert ClosesAt(line, i, j);
      }
    }
  }

  /** `re.match('{"data":\D.*}}', line)`: anchored at the start, not at the end. */
  predicate IsDataLine(line: string) {
    && |line| >= 9
    && line[..8] == DataPrefix
    && !IsDigit(line[8])
    && ClosesFrom(line, 9)
  }

  /**
   * A data line starts with `{"data":`, then one non-digit, and has a `}}` later on with no
   * newline in between; anything may follow that `}}`.
   */
  lemma DataLineShape(line: string)
    ensures IsDataLine(line) <==>
      |line| >= 9 && line[..8] == DataPrefix && !IsDigit(line[8]) &&
      exists j :: ClosesAt(line, 9, j)
  {
    if |line| >= 9 {
      ClosesFromIff(line, 9);
    }
  }

  /** `line.replace("\n", "")`: the line with every newline removed. */
  function Clean(line: string): (r: string)
    ensures forall i :: 0 <= i < |r| ==> r[i] != '\n'
    ensures (forall i :: 0 <= i < |line| ==> line[i] != '\n') ==> r == line
    ensures |r| <= |line|
    decreases |line|
  {
    if line == [] then []
    else if line[0] == '\n' then Clean(line[1..])
    else [line[0]] + Clean(line[1..])
  }

  /** Removing newlines works piece by piece: the cleaned halves, joined in order. */
  lemma {:induction false} CleanAppend(a: string, b: string)
    ensures Clean(a + b) == Clean(a) + Clean(b)
    decreases |a|
  {
    if a != [] {
      assert (a + b)[1..] == a[1..] + b;
      CleanAppend(a[1..], b);
    } else {
      assert a + b == b;
    }
  }

  /** A newline is dropped and every other character is kept. */
  lemma CleanChar(c: char)
    ensures Clean([c]) == if c == '\n' then [] else [c]
  {
  }

  /** The trailing newline a file line carries is removed and the text before it is kept. */
  lemma CleanDropsTrailingNewline(text: string)
    requires forall i :: 0 <= i < |text| ==> text[i] != '\n'
    ensures Clean(text + "\n") == text
  {
    CleanAppend(text, "\n");
  }
}
