/**
 * The vtysh summaries of the BGP container (sonic_data_client/bgp.go): the
 * route and prefix totals of `show ip route summary [prefix]` and the
 * neighbor table of `show ip bgp summary`.  Each parser walks the output's
 * lines by index and indexes the lines' whitespace fields without a bounds
 * check, so a short output panics.
 */
module SdcBgp {
  import opened Wrappers
  import opened GoStrings

  /** One neighbor row of the BGP summary, in the order of its columns. */
  datatype Bgpinfo = Bgpinfo(
    version: string, asNumber: string, msgRcvd: string, msgSent: string, tblVer: string,
    inQ: string, outQ: string, upDown: string, statePfxRcd: string)

  const IndexPanic := "index out of range"

  /** The first space-separated token of a line: the piece before its first space. */
  function FirstToken(line: string): string
  {
    BeforeChar(line, ' ')
  }

  /**
   * The token is the first piece of the line split on spaces, and it is
   * empty exactly for an empty line and for a line that starts with a space.
   */
  lemma FirstTokenEmpty(line: string)
    ensures Split(line, " ")[0] == FirstToken(line)
    ensures FirstToken(line) == "" <==> line == "" || line[0] == ' '
  {
    SplitFirstPiece(line, ' ');
  }

  /** The first line at or after `from` whose first token is `tok`. */
  function FirstWithToken(lines: seq<string>, from: nat, tok: string): (n: Option<nat>)
    requires from <= |lines|
    ensures n.Some? ==> from <= n.value < |lines| && FirstToken(lines[n.value]) == tok
    ensures n.Some? ==> forall j {:trigger FirstToken(lines[j])} :: from <= j < n.value ==> FirstToken(lines[j]) != tok
    ensures n.None? ==> forall j {:trigger FirstToken(lines[j])} :: from <= j < |lines| ==> FirstToken(lines[j]) != tok
    decreases |lines| - from
  {
    if from == |lines| then None
    else if FirstToken(lines[from]) == tok then Some(from)
    else FirstWithToken(lines, from + 1, tok)
  }

  /* GetIprouteNum and GetPrefixNum */

  /** A `Totals` line: one whose first field is `Totals`. */
  predicate IsTotals(line: string)
  {
    |Fields(line)| >= 1 && Fields(line)[0] == "Totals"
  }

  /** A line the totals loop reads without a panic: it has a field, and three on a `Totals` line. */
  predicate TotalsRowReadable(line: string)
  {
    |Fields(line)| >= 1 && (IsTotals(line) ==> |Fields(line)| >= 3)
  }

  /** The fields of the last `Totals` line among `rows`. */
  function LastTotals(rows: seq<string>): (t: Option<seq<string>>)
    ensures t.Some? ==> exists j :: 0 <= j < |rows| && IsTotals(rows[j]) && Fields(rows[j]) == t.value
                                    && forall j' :: j < j' < |rows| ==> !IsTotals(rows[j'])
    ensures t.None? ==> forall j :: 0 <= j < |rows| ==> !IsTotals(rows[j])
  {
    if rows == [] then None
    else if IsTotals(rows[|rows| - 1]) then Some(Fields(rows[|rows| - 1]))
    else
      var t := LastTotals(rows[..|rows| - 1]);
      assert forall j :: 0 <= j < |rows| - 1 ==> rows[..|rows| - 1][j] == rows[j];
      t
  }

  /** The totals as the parsers report them: nothing, or the route count under its key and the FIB count. */
  function TotalsMap(t: Option<seq<string>>, routesKey: string): map<string, string>
    requires t.Some? ==> |t.value| >= 3
  {
    match t
    case None => map[]
    case Some(f) => map[routesKey := f[1]]["FIB" := f[2]]
  }

  /**
   * What the totals loop yields for `lines`: the lines before the first one
   * whose first token is empty are read; without such a line, or with an
   * unreadable line before it, it panics; otherwise the last `Totals` line
   * gives the counts.
   */
  function RouteSummary(lines: seq<string>, routesKey: string): (r: Result<map<string, string>>)
  {
    match FirstWithToken(lines, 0, "")
    case None => Panic(IndexPanic)
    case Some(n) =>
      if exists j :: 0 <= j < n && !TotalsRowReadable(lines[j]) then Panic(IndexPanic)
      else
        var t := LastTotals(lines[..n]);
        assert t.Some? ==> |t.value| >= 3 by {
          if t.Some? {
            var j :| 0 <= j < n && IsTotals(lines[..n][j]) && Fields(lines[..n][j]) == t.value;
            assert TotalsRowReadable(lines[j]);
          }
        }
        Ok(TotalsMap(t, routesKey))
  }

  /**
   * The scan shared by GetIprouteNum and GetPrefixNum over the command's
   * output; `routesKey` is the key of the route count.
   */
  method ScanTotals(out: Result<string>, routesKey: string) returns (r: Result<map<string, string>>)
    ensures out.Ok? ==> r == RouteSummary(Split(out.value, "\n"), routesKey)
    ensures !out.Ok? ==> r.Err?
  {
    if !out.Ok? {
      return Err(if out.Err? then out.msg else out.reason);
    }
    var stringlist := Split(out.value, "\n");
    var data: map<string, string> := map[];
    var i := 0;
    while true
      invariant 0 <= i <= |stringlist|
      invariant forall j :: 0 <= j < i ==> FirstToken(stringlist[j]) != "" && TotalsRowReadable(stringlist[j])
      invariant LastTotals(stringlist[..i]).Some? ==> |LastTotals(stringlist[..i]).value| >= 3
      invariant data.Keys <= {routesKey, "FIB"}
      invariant data == TotalsMap(LastTotals(stringlist[..i]), routesKey)
      decreases |stringlist| - i
    {
      if i >= |stringlist| {
        ScanPanics(stringlist, i, routesKey);
        return Panic(IndexPanic);
      }
      var line := stringlist[i];
      FirstTokenEmpty(line);
      if Split(line, " ")[0] == "" {
        ScanEnds(stringlist, i, routesKey);
        break;
      }
      var next := ReadTotalsRow(line, routesKey, data);
      if next.None? {
        ScanPanics(stringlist, i, routesKey);
        return Panic(IndexPanic);
      }
      data := next.value;
      TotalsStep(stringlist, i, routesKey);
      i := i + 1;
    }
    return Ok(data);
  }

  /**
   * The body of the scan for one row: its fields are read, and a `Totals`
   * row's second and third fields replace the counts; `None` when reading
   * a field panics.
   */
  method ReadTotalsRow(line: string, routesKey: string, data: map<string, string>)
    returns (next: Option<map<string, string>>)
    requires data.Keys <= {routesKey, "FIB"}
    ensures next.Some? <==> TotalsRowReadable(line)
    ensures next.Some? ==> next.value.Keys <= {routesKey, "FIB"}
    ensures next.Some? && IsTotals(line) ==> next.value == map[routesKey := Fields(line)[1]]["FIB" := Fields(line)[2]]
    ensures next.Some? && !IsTotals(line) ==> next.value == data
  {
    var f := Fields(line);
    if |f| < 1 {
      return None;
    }
    if f[0] != "Totals" {
      return Some(data);
    }
    if |f| < 3 {
      return None;
    }
    var counts := data[routesKey := f[1]];
    counts := counts["FIB" := f[2]];
    Overwrite(data, routesKey, f[1], f[2]);
    return Some(counts);
  }

  /** Counts written over counts: the new pair is all that is left. */
  lemma Overwrite(m: map<string, string>, routesKey: string, routes: string, fib: string)
    requires m.Keys <= {routesKey, "FIB"}
    ensures m[routesKey := routes]["FIB" := fib] == map[routesKey := routes]["FIB" := fib]
  {
  }

  /** One more readable row: a `Totals` row replaces the counts, any other row keeps them. */
  lemma TotalsStep(lines: seq<string>, i: nat, routesKey: string)
    requires i < |lines| && TotalsRowReadable(lines[i])
    requires LastTotals(lines[..i]).Some? ==> |LastTotals(lines[..i]).value| >= 3
    ensures LastTotals(lines[..i + 1]).Some? ==> |LastTotals(lines[..i + 1]).value| >= 3
    ensures TotalsMap(LastTotals(lines[..i + 1]), routesKey) ==
      if IsTotals(lines[i]) then map[routesKey := Fields(lines[i])[1]]["FIB" := Fields(lines[i])[2]]
      else TotalsMap(LastTotals(lines[..i]), routesKey)
  {
    assert lines[..i + 1][..i] == lines[..i];
  }

  /** The scan stops at an unreadable line, or past the last line, before any line ends it. */
  lemma ScanPanics(lines: seq<string>, i: nat, routesKey: string)
    requires i <= |lines|
    requires forall j :: 0 <= j < i ==> FirstToken(lines[j]) != "" && TotalsRowReadable(lines[j])
    requires i < |lines| ==> FirstToken(lines[i]) != "" && !TotalsRowReadable(lines[i])
    ensures RouteSummary(lines, routesKey) == Panic(IndexPanic)
  {
    if i < |lines| {
      var n := FirstWithToken(lines, 0, "");
      if n.Some? {
        assert i < n.value;
      }
    }
  }

  /** The scan ends at the first line with an empty first token, after readable lines. */
  lemma ScanEnds(lines: seq<string>, i: nat, routesKey: string)
    requires i < |lines| && FirstToken(lines[i]) == ""
    requires forall j :: 0 <= j < i ==> FirstToken(lines[j]) != "" && TotalsRowReadable(lines[j])
    requires LastTotals(lines[..i]).Some? ==> |LastTotals(lines[..i]).value| >= 3
    ensures RouteSummary(lines, routesKey) == Ok(TotalsMap(LastTotals(lines[..i]), routesKey))
  {
    assert FirstWithToken(lines, 0, "") == Some(i);
  }

  /** GetIprouteNum: the scan keyed by `Routes`. */
  method GetIprouteNum(out: Result<string>) returns (r: Result<map<string, string>>)
    ensures out.Ok? ==> r == RouteSummary(Split(out.value, "\n"), "Routes")
    ensures !out.Ok? ==> r.Err?
  {
    r := ScanTotals(out, "Routes");
  }

  /** GetPrefixNum: the same scan keyed by `PrefixRoutes`. */
  method GetPrefixNum(out: Result<string>) returns (r: Result<map<string, string>>)
    ensures out.Ok? ==> r == RouteSummary(Split(out.value, "\n"), "PrefixRoutes")
    ensures !out.Ok? ==> r.Err?
  {
    r := ScanTotals(out, "PrefixRoutes");
  }

  /**
   * The scan succeeds exactly when a line with an empty first token ends
   * readable lines, and otherwise panics; it never reports an error.
   */
  lemma RouteSummaryOk(lines: seq<string>, routesKey: string)
    ensures !RouteSummary(lines, routesKey).Err?
    ensures RouteSummary(lines, routesKey).Ok? <==>
      exists n :: 0 <= n < |lines| && FirstToken(lines[n]) == ""
                  && forall j :: 0 <= j < n ==> FirstToken(lines[j]) != "" && TotalsRowReadable(lines[j])
  {
    if exists n :: 0 <= n < |lines| && FirstToken(lines[n]) == ""
                   && forall j :: 0 <= j < n ==> FirstToken(lines[j]) != "" && TotalsRowReadable(lines[j]) {
      var n :| 0 <= n < |lines| && FirstToken(lines[n]) == ""
               && forall j :: 0 <= j < n ==> FirstToken(lines[j]) != "" && TotalsRowReadable(lines[j]);
      assert FirstWithToken(lines, 0, "") == Some(n);
    }
  }

  /**
   * The totals of a table ending at line `n`: nothing when no row before
   * `n` is a `Totals` line, and otherwise the second and third fields of the
   * last such row, under the route key and `FIB`.
   */
  lemma RouteSummaryCounts(lines: seq<string>, routesKey: string, n: nat)
    requires n < |lines| && FirstToken(lines[n]) == ""
    requires forall j :: 0 <= j < n ==> FirstToken(lines[j]) != "" && TotalsRowReadable(lines[j])
    ensures RouteSummary(lines, routesKey).Ok?
    ensures RouteSummary(lines, routesKey).value == map[] <==> forall j :: 0 <= j < n ==> !IsTotals(lines[j])
    ensures RouteSummary(lines, routesKey).value != map[] ==>
      exists j :: 0 <= j < n && IsTotals(lines[j]) && |Fields(lines[j])| >= 3
                  && RouteSummary(lines, routesKey).value == map[routesKey := Fields(lines[j])[1]]["FIB" := Fields(lines[j])[2]]
                  && forall j' :: j < j' < n ==> !IsTotals(lines[j'])
  {
    var rows := lines[..n];
    assert forall j :: 0 <= j < n ==> rows[j] == lines[j];
    var t := LastTotals(rows);
    if t.Some? {
      var j :| 0 <= j < n && IsTotals(rows[j]) && Fields(rows[j]) == t.value
               && forall j' :: j < j' < n ==> !IsTotals(rows[j']);
      assert TotalsRowReadable(lines[j]);
      ScanEnds(lines, n, routesKey);
      var counts := map[routesKey := t.value[1]]["FIB" := t.value[2]];
      assert "FIB" in counts;
      assert lines[j] == rows[j] && Fields(lines[j]) == t.value;
    } else {
      ScanEnds(lines, n, routesKey);
    }
  }

  /* BgpSummary */

  /**
   * One neighbor row: its first field and the next nine as the columns;
   * `None` when the row has fewer than ten fields and reading it panics.
   */
  function ParseRow(line: string): (row: Option<(string, Bgpinfo)>)
    ensures row.Some? <==> |Fields(line)| >= 10
  {
    var f := Fields(line);
    if |f| < 10 then None
    else Some((f[0], Bgpinfo(f[1], f[2], f[3], f[4], f[5], f[6], f[7], f[8], f[9])))
  }

  /** The parsed rows from line `lo` up to `hi`, `None` when one of them cannot be read. */
  function RowsBetween(lines: seq<string>, lo: nat, hi: nat): (rows: Option<seq<(string, Bgpinfo)>>)
    requires lo <= hi <= |lines|
    ensures rows.Some? ==> |rows.value| == hi - lo
    decreases hi - lo
  {
    if hi == lo then Some([])
    else match RowsBetween(lines, lo, hi - 1)
      case None => None
      case Some(rs) =>
        match ParseRow(lines[hi - 1])
        case None => None
        case Some(row) => Some(rs + [row])
  }

  /** The rows are readable exactly when each line parses, and then each is that line's parse. */
  lemma {:induction false} RowsBetweenMeaning(lines: seq<string>, lo: nat, hi: nat)
    requires lo <= hi <= |lines|
    ensures RowsBetween(lines, lo, hi).Some? <==> forall j :: lo <= j < hi ==> ParseRow(lines[j]).Some?
    ensures RowsBetween(lines, lo, hi).Some? ==>
      forall j :: lo <= j < hi ==> RowsBetween(lines, lo, hi).value[j - lo] == ParseRow(lines[j]).value
    decreases hi - lo
  {
    if hi > lo {
      RowsBetweenMeaning(lines, lo, hi - 1);
    }
  }

  /** Once a row cannot be read, no longer stretch of rows can. */
  lemma {:induction false} RowsBetweenStuck(lines: seq<string>, lo: nat, i: nat, hi: nat)
    requires lo <= i < hi <= |lines| && ParseRow(lines[i]).None?
    ensures RowsBetween(lines, lo, hi).None?
    decreases hi - lo
  {
    if hi - 1 > i {
      RowsBetweenStuck(lines, lo, i, hi - 1);
    } else {
      assert hi - 1 == i;
    }
  }

  /** The neighbor table of parsed rows, in order: a later row for the same neighbor replaces an earlier one. */
  function NeighborTable(rows: seq<(string, Bgpinfo)>): map<string, Bgpinfo>
  {
    if rows == [] then map[]
    else
      var row := rows[|rows| - 1];
      NeighborTable(rows[..|rows| - 1])[row.0 := row.1]
  }

  /** The neighbors reported: one per neighbor named by a row. */
  lemma {:induction false} NeighborKeys(rows: seq<(string, Bgpinfo)>, k: string)
    ensures k in NeighborTable(rows) <==> exists j :: 0 <= j < |rows| && rows[j].0 == k
  {
    if rows != [] {
      var init := rows[..|rows| - 1];
      NeighborKeys(init, k);
      if exists j :: 0 <= j < |rows| && rows[j].0 == k {
        var j :| 0 <= j < |rows| && rows[j].0 == k;
        if j < |rows| - 1 {
          assert init[j] == rows[j];
        }
      }
    }
  }

  /** A neighbor holds the columns of the last row that names it. */
  lemma {:induction false} NeighborLastRow(rows: seq<(string, Bgpinfo)>, j: nat)
    requires j < |rows| && forall j' :: j < j' < |rows| ==> rows[j'].0 != rows[j].0
    ensures rows[j].0 in NeighborTable(rows) && NeighborTable(rows)[rows[j].0] == rows[j].1
  {
    if j < |rows| - 1 {
      var init := rows[..|rows| - 1];
      assert init[j] == rows[j];
      NeighborLastRow(init, j);
    }
  }

  /**
   * What BgpSummary yields for `lines`: an empty table without a line whose
   * first token is `Neighbor`, and otherwise the neighbor rows after the
   * first such line.
   */
  function BgpTable(lines: seq<string>): Result<map<string, Bgpinfo>>
  {
    match FirstWithToken(lines, 0, "Neighbor")
    case None => Ok(map[])
    case Some(h) => NeighborRows(lines, h + 1)
  }

  /**
   * The neighbor rows from line `from` on: those before the next line whose
   * first token is empty, a panic when there is no such line or a row
   * before it has fewer than ten fields.
   */
  function NeighborRows(lines: seq<string>, from: nat): Result<map<string, Bgpinfo>>
    requires from <= |lines|
  {
    match FirstWithToken(lines, from, "")
    case None => Panic(IndexPanic)
    case Some(n) =>
      match RowsBetween(lines, from, n)
      case None => Panic(IndexPanic)
      case Some(rows) => Ok(NeighborTable(rows))
  }

  /** The neighbor loop stops at an unreadable row, or past the last line, before any line ends it. */
  lemma NeighborsPanic(lines: seq<string>, from: nat, i: nat)
    requires from <= i <= |lines|
    requires FirstWithToken(lines, from, "") == FirstWithToken(lines, i, "")
    requires i < |lines| ==> FirstToken(lines[i]) != "" && ParseRow(lines[i]).None?
    ensures NeighborRows(lines, from) == Panic(IndexPanic)
  {
    if i < |lines| {
      var n := FirstWithToken(lines, from, "");
      if n.Some? {
        RowsBetweenStuck(lines, from, i, n.value);
      }
    }
  }

  /** The neighbor loop ends at the first line with an empty first token after the header. */
  lemma NeighborsEnd(lines: seq<string>, from: nat, i: nat, rows: seq<(string, Bgpinfo)>)
    requires from <= i < |lines| && FirstToken(lines[i]) == ""
    requires FirstWithToken(lines, from, "") == FirstWithToken(lines, i, "")
    requires RowsBetween(lines, from, i) == Some(rows)
    ensures NeighborRows(lines, from) == Ok(NeighborTable(rows))
  {
    assert FirstWithToken(lines, from, "") == Some(i);
  }

  /**
   * BgpSummary over the output of `show ip bgp summary`: the search for the
   * header line, then the neighbor rows after it.
   */
  method BgpSummary(out: Result<string>) returns (r: Result<map<string, Bgpinfo>>)
    ensures out.Ok? ==> r == BgpTable(Split(out.value, "\n"))
    ensures !out.Ok? ==> r.Err?
  {
    if !out.Ok? {
      return Err(if out.Err? then out.msg else out.reason);
    }
    var stringlist := Split(out.value, "\n");
    var findbgpflag, bgpinfoindex := FindNeighborHeader(stringlist);
    if findbgpflag {
      assert BgpTable(stringlist) == NeighborRows(stringlist, bgpinfoindex);
      r := ReadNeighbors(stringlist, bgpinfoindex);
    } else {
      r := Ok(map[]);
    }
  }

  /**
   * The first loop of BgpSummary: the rows start after the first line whose
   * first token is `Neighbor`.
   */
  method FindNeighborHeader(stringlist: seq<string>) returns (findbgpflag: bool, bgpinfoindex: nat)
    ensures findbgpflag <==> FirstWithToken(stringlist, 0, "Neighbor").Some?
    ensures findbgpflag ==> bgpinfoindex == FirstWithToken(stringlist, 0, "Neighbor").value + 1
  {
    findbgpflag := false;
    bgpinfoindex := 0;
    for i := 0 to |stringlist|
      invariant FirstWithToken(stringlist, 0, "Neighbor") == FirstWithToken(stringlist, i, "Neighbor")
    {
      FirstTokenEmpty(stringlist[i]);
      if Split(stringlist[i], " ")[0] == "Neighbor" {
        bgpinfoindex := i + 1;
        findbgpflag := true;
        return;
      }
    }
  }

  /**
   * The second loop of BgpSummary: each row from `bgpinfoindex` on enters
   * the table under its first field, up to the first line whose first
   * token is empty; reading the line past the last one panics.
   */
  method ReadNeighbors(stringlist: seq<string>, bgpinfoindex: nat) returns (r: Result<map<string, Bgpinfo>>)
    requires bgpinfoindex <= |stringlist|
    ensures r == NeighborRows(stringlist, bgpinfoindex)
  {
    var data: map<string, Bgpinfo> := map[];
    var i := bgpinfoindex;
    ghost var rows: seq<(string, Bgpinfo)> := [];
    while i < |stringlist| && Split(stringlist[i], " ")[0] != ""
      invariant bgpinfoindex <= i <= |stringlist|
      invariant FirstWithToken(stringlist, bgpinfoindex, "") == FirstWithToken(stringlist, i, "")
      invariant RowsBetween(stringlist, bgpinfoindex, i) == Some(rows)
      invariant data == NeighborTable(rows)
      decreases |stringlist| - i
    {
      FirstTokenEmpty(stringlist[i]);
      var row := ParseRow(stringlist[i]);
      if row.None? {
        NeighborsPanic(stringlist, bgpinfoindex, i);
        return Panic(IndexPanic);
      }
      data := data[row.value.0 := row.value.1];
      assert (rows + [row.value])[..|rows|] == rows;
      rows := rows + [row.value];
      i := i + 1;
    }
    if i == |stringlist| {
      NeighborsPanic(stringlist, bgpinfoindex, i);
      return Panic(IndexPanic);
    }
    FirstTokenEmpty(stringlist[i]);
    NeighborsEnd(stringlist, bgpinfoindex, i, rows);
    return Ok(data);
  }
}
