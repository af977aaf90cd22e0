/** The matchweek export: one CSV row of 21 cells per match, under a fixed
    21-name header, with the referee taken from the match page's summary
    texts. Fetching pages and writing the file are not modelled; the row,
    the header and the string steps are. */
module MatchweekResult {
  import opened Wrappers
  import opened Documents
  import opened Statistics
  import opened MatchResult
  import Kickoff
  import opened Strings

  /** One CSV cell: the row mixes strings and integers. */
  datatype Cell = Text(text: string) | Count(count: int)

  /** The header row `fields`. */
  const Fields: seq<string> := [
    "Season", "Date", "HomeTeam", "AwayTeam", "FTHG", "FTAG", "HTHG", "HTAG",
    "Referee", "HS", "AS", "HST", "AST", "HC", "AC", "HF", "AF", "HY", "AY",
    "HR", "AR"]

  /** `team1` is exported under the home headers, `team2` under the away
      headers. */
  datatype Side = Home | Away

  function TeamOf(m: MatchRecord, side: Side): TeamRecord
  {
    if side == Home then m.team1 else m.team2
  }

  /** The header name under which a team's statistic is exported. */
  function StatColumn(f: Field, side: Side): string
  {
    var home := side == Home;
    match f
    case Ftg => if home then "FTHG" else "FTAG"
    case Htg => if home then "HTHG" else "HTAG"
    case Sh => if home then "HS" else "AS"
    case Sot => if home then "HST" else "AST"
    case Co => if home then "HC" else "AC"
    case Fo => if home then "HF" else "AF"
    case Yc => if home then "HY" else "AY"
    case Rc => if home then "HR" else "AR"
  }

  /** The cell of `row` under header `name`: the first column of that name. */
  function Column(row: seq<Cell>, name: string): Option<Cell>
  {
    var i := Kickoff.IndexOf(Fields, name);
    if i < |row| then Some(row[i]) else None
  }

  /** `manipulate_stats(data, ref)`: season, kickoff, the two short names,
      then the paired statistics with the referee after the half-time goals. */
  function ManipulateStats(m: MatchRecord, referee: string): (row: seq<Cell>)
    ensures |row| == |Fields|
    ensures row[8] == Text(referee)
    ensures forall i :: 0 <= i < |row| && i != 8 && row[i].Text? ==> i < 4
  {
    var s1 := m.team1.stats;
    var s2 := m.team2.stats;
    [ Text(m.matchInfo.season), Text(m.matchInfo.kickoff),
      Text(m.team1.info.shortName), Text(m.team2.info.shortName),
      Count(s1.ftg), Count(s2.ftg), Count(s1.htg), Count(s2.htg),
      Text(referee),
      Count(s1.sh), Count(s2.sh), Count(s1.sot), Count(s2.sot),
      Count(s1.co), Count(s2.co), Count(s1.fo), Count(s2.fo),
      Count(s1.yc), Count(s2.yc), Count(s1.rc), Count(s2.rc) ]
  }

  /** No two header names coincide, so a name selects one column. */
  lemma FieldsDistinct()
    ensures forall i, j :: 0 <= i < j < |Fields| ==> Fields[i] != Fields[j]
  {
  }

  /** The column `IndexOf` finds for each statistic. */
  function StatPosition(f: Field, side: Side): (i: nat)
    ensures i < |Fields| && Fields[i] == StatColumn(f, side)
  {
    var away := if side == Home then 0 else 1;
    match f
    case Ftg => 4 + away
    case Htg => 6 + away
    case Sh => 9 + away
    case Sot => 11 + away
    case Co => 13 + away
    case Fo => 15 + away
    case Yc => 17 + away
    case Rc => 19 + away
  }

  /** A row as long as the header holds under each name the cell at that
      name's position. */
  lemma ColumnAt(row: seq<Cell>, i: nat)
    requires |row| == |Fields| && i < |Fields|
    ensures Column(row, Fields[i]) == Some(row[i])
  {
    FieldsDistinct();
    Kickoff.IndexOfDistinct(Fields, i);
  }

  /** The names of the identity columns and of the referee column. */
  lemma InfoHeaders()
    ensures Fields[0] == "Season" && Fields[1] == "Date" && Fields[2] == "HomeTeam"
    ensures Fields[3] == "AwayTeam" && Fields[8] == "Referee"
  {
  }

  /** The identity cells and the referee cell of a row. */
  lemma InfoCells(m: MatchRecord, referee: string)
    ensures var row := ManipulateStats(m, referee);
      && row[0] == Text(m.matchInfo.season) && row[1] == Text(m.matchInfo.kickoff)
      && row[2] == Text(m.team1.info.shortName) && row[3] == Text(m.team2.info.shortName)
  {
  }

  /** The identity columns and the referee sit under the header that names
      them. */
  lemma {:induction false} InfoColumnsLineUp(m: MatchRecord, referee: string)
    ensures var row := ManipulateStats(m, referee);
      && Column(row, "Season") == Some(Text(m.matchInfo.season))
      && Column(row, "Date") == Some(Text(m.matchInfo.kickoff))
      && Column(row, "HomeTeam") == Some(Text(m.team1.info.shortName))
      && Column(row, "AwayTeam") == Some(Text(m.team2.info.shortName))
      && Column(row, "Referee") == Some(Text(referee))
  {
    var row := ManipulateStats(m, referee);
    InfoHeaders();
    InfoCells(m, referee);
    ColumnAt(row, 0);
    ColumnAt(row, 1);
    ColumnAt(row, 2);
    ColumnAt(row, 3);
    ColumnAt(row, 8);
  }

  /** The statistic cells of a row, team 1 before team 2 for each statistic. */
  lemma StatCells(m: MatchRecord, referee: string)
    ensures var row := ManipulateStats(m, referee);
      var s1, s2 := m.team1.stats, m.team2.stats;
      && row[4] == Count(s1.ftg) && row[5] == Count(s2.ftg)
      && row[6] == Count(s1.htg) && row[7] == Count(s2.htg)
      && row[9] == Count(s1.sh) && row[10] == Count(s2.sh)
      && row[11] == Count(s1.sot) && row[12] == Count(s2.sot)
      && row[13] == Count(s1.co) && row[14] == Count(s2.co)
      && row[15] == Count(s1.fo) && row[16] == Count(s2.fo)
      && row[17] == Count(s1.yc) && row[18] == Count(s2.yc)
      && row[19] == Count(s1.rc) && row[20] == Count(s2.rc)
  {
  }

  /** Each team's statistic sits under the header that names it: `FTHG` holds
      the home side's full-time goals, `AR` the away side's red cards. */
  lemma {:induction false} StatColumnLinesUp(m: MatchRecord, referee: string, f: Field, side: Side)
    ensures Column(ManipulateStats(m, referee), StatColumn(f, side)) == Some(Count(StatOf(TeamOf(m, side).stats, f)))
  {
    var row := ManipulateStats(m, referee);
    var i := StatPosition(f, side);
    StatCells(m, referee);
    assert row[i] == Count(StatOf(TeamOf(m, side).stats, f));
    ColumnAt(row, i);
  }

  /** Distinct statistics of distinct sides get distinct headers. */
  lemma {:induction false} StatColumnInjective(f: Field, side: Side, g: Field, other: Side)
    requires StatColumn(f, side) == StatColumn(g, other)
    ensures f == g && side == other
  {
    FieldsDistinct();
    var i, j := StatPosition(f, side), StatPosition(g, other);
    assert Fields[i] == Fields[j];
  }

  /** The referee step: the text of the last summary element, stripped, after
      its last `": "`. Indexing `[-1]` of an empty list is an error. */
  function Referee(summaries: seq<string>): (r: Result<string, Error>)
    ensures r.Err? <==> summaries == []
    ensures r.Err? ==> r.error == NoSummary
  {
    if summaries == [] then Err(NoSummary)
    else Ok(LastPiece(Strip(summaries[|summaries| - 1])))
  }

  /** The referee is a separator-free tail of the last summary, with no
      surrounding whitespace left on the side that was stripped. */
  lemma {:induction false} RefereeInLastSummary(summaries: seq<string>)
    requires summaries != []
    ensures AfterLastSeparator(Strip(summaries[|summaries| - 1]), Referee(summaries).value)
    ensures var name := Referee(summaries).value; name == [] || !IsSpace(name[|name| - 1])
  {
    var t := Strip(summaries[|summaries| - 1]);
    LastPieceEndsAsText(t);
  }

  /** The row for one match: the referee from the summaries, then the record
      built from the fixture document and filled from the same document. A
      page without summaries fails before the documents are looked at, and a
      fixture that does not build fails before any statistic is read. */
  function MatchRow(summaries: seq<string>, doc: Json): (r: Result<seq<Cell>, Error>)
    ensures r.Ok? <==> (
      && summaries != []
      && BuildRecord(doc).Ok?
      && ExtractStats(BuildRecord(doc).value, doc).failure.None?)
    ensures summaries == [] ==> r == Err(NoSummary)
    ensures summaries != [] && BuildRecord(doc).Err? ==> r == Err(BuildRecord(doc).error)
    ensures r.Ok? ==> (
      && |r.value| == |Fields|
      && r.value == ManipulateStats(ExtractStats(BuildRecord(doc).value, doc).record, Referee(summaries).value))
  {
    var referee :- Referee(summaries);
    var m :- BuildRecord(doc);
    var x := ExtractStats(m, doc);
    if x.failure.Some? then Err(x.failure.value) else Ok(ManipulateStats(x.record, referee))
  }

  /** The identity columns of an exported row, read straight off the two
      inputs: the season label, the converted kickoff, the short names of
      `teams[0]` and `teams[1]`, and the tail of the last summary. */
  lemma {:induction false} MatchRowInfo(summaries: seq<string>, doc: Json)
    requires MatchRow(summaries, doc).Ok?
    ensures var row := MatchRow(summaries, doc).value;
      var entity := Sub(doc, "entity");
      var teams := Sub(entity, "teams");
      var given := Sub(Sub(entity, "kickoff"), "label");
      && teams.Arr? && |teams.items| >= 2 && given.Str?
      && Column(row, "Season") == Some(Text(Sub(Sub(Sub(entity, "gameweek"), "compSeason"), "label").s))
      && Kickoff.KickoffDate(given.s).Some?
      && Column(row, "Date") == Some(Text(Kickoff.KickoffDate(given.s).value))
      && Column(row, "HomeTeam") == Some(Text(Sub(Sub(teams.items[0], "team"), "shortName").s))
      && Column(row, "AwayTeam") == Some(Text(Sub(Sub(teams.items[1], "team"), "shortName").s))
      && Column(row, "Referee") == Some(Text(LastPiece(Strip(summaries[|summaries| - 1]))))
  {
    var m := BuildRecord(doc).value;
    var x := ExtractStats(m, doc);
    InfoColumnsLineUp(x.record, Referee(summaries).value);
  }

  /** The statistic columns of an exported row, read straight off the two
      inputs: under each side's full-time goals header the `score` of its
      team in the fixture, and under every other statistic's header the
      value of the last entry carrying that statistic in the team's own
      list, or 0 when no entry carries it. */
  lemma {:induction false} MatchRowStats(summaries: seq<string>, doc: Json, f: Field, side: Side)
    requires MatchRow(summaries, doc).Ok?
    ensures var row := MatchRow(summaries, doc).value;
      var teams := Sub(Sub(doc, "entity"), "teams");
      teams.Arr? && |teams.items| >= 2 &&
      var team := teams.items[if side == Home then 0 else 1];
      var id := Sub(Sub(team, "team"), "id").n;
      && StatEntries(doc, id).Ok?
      && Column(row, StatColumn(f, side)) == Some(Count(
           if f == Ftg then Sub(team, "score").n else LastOr(StatEntries(doc, id).value, f, 0)))
  {
    var m := BuildRecord(doc).value;
    var x := ExtractStats(m, doc);
    var teams := Sub(Sub(doc, "entity"), "teams");
    var team := teams.items[if side == Home then 0 else 1];
    assert TeamOf(m, side).info.id == Sub(Sub(team, "team"), "id").n;
    StatColumnLinesUp(x.record, Referee(summaries).value, f, side);
    ExtractIsOverlay(m, doc);
    if f != Ftg {
      OverlayAt(TeamOf(m, side).stats, StatEntries(doc, TeamOf(m, side).info.id).value, f);
    }
  }

  /** The body of the per-match loop: build the objects, fill them in place,
      flatten them. */
  method ProcessMatch(summaries: seq<string>, doc: Json) returns (r: Result<seq<Cell>, Error>)
    ensures r == MatchRow(summaries, doc)
  {
    var referee :- Referee(summaries);
    var m :- MatchStatistic.FromDocument(doc);
    var failure := m.GetStats(doc);
    if failure.Some? {
      return Err(failure.value);
    }
    r := Ok(ManipulateStats(m.Value(), referee));
  }
}
