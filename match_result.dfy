/** The match record: `Ground`, `TeamInfo`, `MatchInfo`, `Statistic`,
    `TeamStat` and `MatchStatistic`. A record is built from the fixture
    document (identities, context and full-time goals) and then filled in
    place by `get_stats` from the statistics map. */
module MatchResult {
  import opened Wrappers
  import opened Decimal
  import opened Documents
  import opened Statistics
  import Kickoff

  datatype Ground = Ground(name: string, city: string)

  datatype TeamInfo = TeamInfo(id: int, name: string, shortName: string)

  datatype MatchInfo = MatchInfo(
    gameWeekId: int,
    matchId: int,
    season: string,
    round: int,
    league: string,
    kickoff: string,
    ground: Ground,
    attendance: int)

  /** The value of a `TeamStat` and of a `MatchStatistic` at one moment. */
  datatype TeamRecord = TeamRecord(info: TeamInfo, stats: Stats)
  datatype MatchRecord = MatchRecord(matchInfo: MatchInfo, team1: TeamRecord, team2: TeamRecord)

  /** `Ground(data)`. */
  function ParseGround(doc: Json): (r: Result<Ground, Error>)
    ensures r.Ok? <==> Sub(doc, "name").Str? && Sub(doc, "city").Str?
    ensures r.Ok? ==> r.value == Ground(Sub(doc, "name").s, Sub(doc, "city").s)
  {
    var name :- StrMember(doc, "name");
    var city :- StrMember(doc, "city");
    Ok(Ground(name, city))
  }

  /** `TeamInfo(data)`: the identity is read from the nested `team` object. */
  function ParseTeamInfo(doc: Json): (r: Result<TeamInfo, Error>)
    ensures var t := Sub(doc, "team");
      r.Ok? <==> Sub(t, "id").Num? && Sub(t, "name").Str? && Sub(t, "shortName").Str?
    ensures var t := Sub(doc, "team");
      r.Ok? ==> r.value == TeamInfo(Sub(t, "id").n, Sub(t, "name").s, Sub(t, "shortName").s)
  {
    var team :- Member(doc, "team");
    var id :- IntMember(team, "id");
    var name :- StrMember(team, "name");
    var shortName :- StrMember(team, "shortName");
    Ok(TeamInfo(id, name, shortName))
  }

  /** `data.get("attendance", 0)`: an absent key is not an error. */
  function Attendance(entity: Json): (r: Result<int, Error>)
    requires entity.Obj?
    ensures !Has(entity, "attendance") ==> r == Ok(0)
    ensures Has(entity, "attendance") ==> (r.Ok? <==> Sub(entity, "attendance").Num?)
    ensures Has(entity, "attendance") && r.Ok? ==> r.value == Sub(entity, "attendance").n
  {
    if Has(entity, "attendance") then IntMember(entity, "attendance") else Ok(0)
  }

  /** `MatchInfo(data)`, reading the keys in the order the source does. It
      fails exactly when a required key is missing or mistyped, or when the
      kickoff label does not parse; the kickoff is then "DD/MM/YYYY" and the
      attendance 0 unless the document gives one. */
  function ParseMatchInfo(entity: Json): (r: Result<MatchInfo, Error>)
    ensures
      var gw := Sub(entity, "gameweek");
      var cs := Sub(gw, "compSeason");
      var lab := Sub(Sub(entity, "kickoff"), "label");
      var gr := Sub(entity, "ground");
      r.Ok? <==>
        && Sub(gw, "id").Num? && Sub(entity, "id").Num? && Sub(cs, "label").Str?
        && Sub(gw, "gameweek").Num? && Sub(Sub(cs, "competition"), "description").Str?
        && lab.Str? && Kickoff.KickoffDate(lab.s).Some?
        && Sub(gr, "name").Str? && Sub(gr, "city").Str?
        && (Has(entity, "attendance") ==> Sub(entity, "attendance").Num?)
    ensures
      var gw := Sub(entity, "gameweek");
      var cs := Sub(gw, "compSeason");
      var lab := Sub(Sub(entity, "kickoff"), "label");
      var gr := Sub(entity, "ground");
      r.Ok? ==>
        && r.value.gameWeekId == Sub(gw, "id").n
        && r.value.matchId == Sub(entity, "id").n
        && r.value.season == Sub(cs, "label").s
        && r.value.round == Sub(gw, "gameweek").n
        && r.value.league == Sub(Sub(cs, "competition"), "description").s
        && Kickoff.KickoffDate(lab.s) == Some(r.value.kickoff)
        && r.value.ground == Ground(Sub(gr, "name").s, Sub(gr, "city").s)
        && r.value.attendance == (if Has(entity, "attendance") then Sub(entity, "attendance").n else 0)
    ensures r.Ok? ==> Kickoff.IsDateText(r.value.kickoff)
    ensures !Sub(Sub(entity, "kickoff"), "label").Str? ==> r.Err?
  {
    var gameweek :- Member(entity, "gameweek");
    var gameWeekId :- IntMember(gameweek, "id");
    var matchId :- IntMember(entity, "id");
    var compSeason :- Member(gameweek, "compSeason");
    var season :- StrMember(compSeason, "label");
    var round :- IntMember(gameweek, "gameweek");
    var competition :- Member(compSeason, "competition");
    var league :- StrMember(competition, "description");
    var kickoffDoc :- Member(entity, "kickoff");
    var kickoffLabel :- StrMember(kickoffDoc, "label");
    var kickoff :- match Kickoff.KickoffDate(kickoffLabel)
      case Some(date) => Ok(date)
      case None => Err(BadKickoff(kickoffLabel));
    var groundDoc :- Member(entity, "ground");
    var ground :- ParseGround(groundDoc);
    var attendance :- Attendance(entity);
    Ok(MatchInfo(gameWeekId, matchId, season, round, league, kickoff, ground, attendance))
  }

  /** `MatchStatistic(data)` as a value: the context from `data["entity"]`,
      the two teams from `teams[0]` and `teams[1]` by position, each with its
      `score` as full-time goals and every other statistic 0. Entries after
      the second are never read. */
  function BuildRecord(doc: Json): (r: Result<MatchRecord, Error>)
    ensures var teams := Sub(Sub(doc, "entity"), "teams");
      r.Ok? ==>
        && teams.Arr? && |teams.items| >= 2
        && ParseMatchInfo(Sub(doc, "entity")) == Ok(r.value.matchInfo)
        && ParseTeamInfo(teams.items[0]) == Ok(r.value.team1.info)
        && ParseTeamInfo(teams.items[1]) == Ok(r.value.team2.info)
        && Sub(teams.items[0], "score") == Num(r.value.team1.stats.ftg)
        && Sub(teams.items[1], "score") == Num(r.value.team2.stats.ftg)
        && (forall f :: f != Ftg ==> StatOf(r.value.team1.stats, f) == 0 && StatOf(r.value.team2.stats, f) == 0)
    ensures var entity := Sub(doc, "entity"); var teams := Sub(entity, "teams");
      r.Ok? <==>
        && Has(doc, "entity") && ParseMatchInfo(entity).Ok?
        && teams.Arr? && |teams.items| >= 2
        && ParseTeamInfo(teams.items[0]).Ok? && ParseTeamInfo(teams.items[1]).Ok?
        && Sub(teams.items[0], "score").Num? && Sub(teams.items[1], "score").Num?
  {
    var entity :- Member(doc, "entity");
    var matchInfo :- ParseMatchInfo(entity);
    var teams :- Member(entity, "teams");
    var doc1 :- Element(teams, 0);
    var info1 :- ParseTeamInfo(doc1);
    var doc2 :- Element(teams, 1);
    var info2 :- ParseTeamInfo(doc2);
    var score1 :- IntMember(doc1, "score");
    var score2 :- IntMember(doc2, "score");
    Ok(MatchRecord(matchInfo, TeamRecord(info1, Zero.(ftg := score1)), TeamRecord(info2, Zero.(ftg := score2))))
  }

  /** `data["data"][str(id)]["M"]`: the entry list of one team. A team id
      that the map does not hold is reported as such. */
  function StatEntries(doc: Json, id: int): (r: Result<seq<Json>, Error>)
    ensures var byTeam := Sub(doc, "data");
      r.Ok? <==> Sub(Sub(byTeam, IntText(id)), "M").Arr?
    ensures var byTeam := Sub(doc, "data");
      r.Ok? ==> r.value == Sub(Sub(byTeam, IntText(id)), "M").items
    ensures var byTeam := Sub(doc, "data");
      byTeam.Obj? && !Has(byTeam, IntText(id)) ==> r == Err(MissingTeamStats(IntText(id)))
  {
    var byTeam :- Member(doc, "data");
    var key := IntText(id);
    if !byTeam.Obj? then Err(NotAnObject(key))
    else if key !in byTeam.fields then Err(MissingTeamStats(key))
    else
      var entries :- Member(byTeam.fields[key], "M");
      if entries.Arr? then Ok(entries.items) else Err(WrongType("M"))
  }

  /** The record after `get_stats` and the error that stopped it, if any. */
  datatype Extracted = Extracted(record: MatchRecord, failure: Option<Error>)

  /** `get_stats(data)` as a value: team 1's list is applied to team 1's
      statistics, then team 2's to team 2's. What was assigned before a
      failure stays assigned. The context, the identities and the full-time
      goals are never changed. */
  function ExtractStats(r: MatchRecord, doc: Json): (x: Extracted)
    ensures x.record.matchInfo == r.matchInfo
    ensures x.record.team1.info == r.team1.info && x.record.team2.info == r.team2.info
    ensures x.record.team1.stats.ftg == r.team1.stats.ftg && x.record.team2.stats.ftg == r.team2.stats.ftg
  {
    match StatEntries(doc, r.team1.info.id)
    case Err(e) => Extracted(r, Some(e))
    case Ok(entries1) =>
      var a1 := Run(r.team1.stats, entries1);
      var r1 := r.(team1 := r.team1.(stats := a1.stats));
      if a1.failure.Some? then Extracted(r1, a1.failure)
      else match StatEntries(doc, r.team2.info.id)
        case Err(e) => Extracted(r1, Some(e))
        case Ok(entries2) =>
          var a2 := Run(r.team2.stats, entries2);
          Extracted(r1.(team2 := r.team2.(stats := a2.stats)), a2.failure)
  }

  /** A `get_stats` that completes leaves each team's statistics overlaid
      with its own list: every code's field holds the value of the last
      entry carrying it, every other field what it held before. */
  lemma {:induction false} ExtractIsOverlay(r: MatchRecord, doc: Json)
    requires ExtractStats(r, doc).failure.None?
    ensures var x := ExtractStats(r, doc).record;
      && StatEntries(doc, r.team1.info.id).Ok? && StatEntries(doc, r.team2.info.id).Ok?
      && x.team1.stats == Overlay(r.team1.stats, StatEntries(doc, r.team1.info.id).value)
      && x.team2.stats == Overlay(r.team2.stats, StatEntries(doc, r.team2.info.id).value)
  {
    var es1 := StatEntries(doc, r.team1.info.id).value;
    var es2 := StatEntries(doc, r.team2.info.id).value;
    RunIsOverlay(r.team1.stats, es1);
    RunIsOverlay(r.team2.stats, es2);
  }

  /** Applying the same statistics document twice leaves what applying it
      once left. */
  lemma ExtractIdempotent(r: MatchRecord, doc: Json)
    requires ExtractStats(r, doc).failure.None?
    ensures ExtractStats(ExtractStats(r, doc).record, doc) == ExtractStats(r, doc)
  {
    var es1 := StatEntries(doc, r.team1.info.id).value;
    var es2 := StatEntries(doc, r.team2.info.id).value;
    RunSucceedsIff(r.team1.stats, es1);
    Idempotent(r.team1.stats, es1);
    Idempotent(r.team2.stats, es2);
  }

  /** A team id absent from the statistics map is an error, and the team's
      statistics are left as they were rather than filled with zeros. When
      it is team 2's id, team 1's list has already been applied. */
  lemma MissingTeamStatsFails(r: MatchRecord, doc: Json)
    requires Sub(doc, "data").Obj?
    ensures var key1 := IntText(r.team1.info.id);
      !Has(Sub(doc, "data"), key1) ==> ExtractStats(r, doc) == Extracted(r, Some(MissingTeamStats(key1)))
    ensures var key2 := IntText(r.team2.info.id);
      StatEntries(doc, r.team1.info.id).Ok? && !Has(Sub(doc, "data"), key2)
      && Run(r.team1.stats, StatEntries(doc, r.team1.info.id).value).failure.None? ==>
        ExtractStats(r, doc) == Extracted(
          r.(team1 := r.team1.(stats := Run(r.team1.stats, StatEntries(doc, r.team1.info.id).value).stats)),
          Some(MissingTeamStats(key2)))
  {
  }

  /** Both teams present with empty lists: nothing changes and nothing fails. */
  lemma EmptyListsChangeNothing(r: MatchRecord, doc: Json)
    requires StatEntries(doc, r.team1.info.id) == Ok([])
    requires StatEntries(doc, r.team2.info.id) == Ok([])
    ensures ExtractStats(r, doc) == Extracted(r, None)
  {
  }

  /** `doc` with team `key`'s statistics replaced by an object holding `entries`. */
  function WithTeamEntries(doc: Json, key: string, entries: seq<Json>): Json
    requires Sub(doc, "data").Obj?
  {
    var byTeam := Sub(doc, "data").fields;
    Obj(doc.fields["data" := Obj(byTeam[key := Obj(map["M" := Arr(entries)])])])
  }

  /** Team 2's list affects only team 2: whatever it holds, team 1 ends up
      the same. */
  lemma Team2ListAffectsOnlyTeam2(r: MatchRecord, doc: Json, entries: seq<Json>)
    requires Sub(doc, "data").Obj? && r.team1.info.id != r.team2.info.id
    ensures ExtractStats(r, WithTeamEntries(doc, IntText(r.team2.info.id), entries)).record.team1
         == ExtractStats(r, doc).record.team1
  {
    if IntText(r.team1.info.id) == IntText(r.team2.info.id) {
      IntTextInjective(r.team1.info.id, r.team2.info.id);
    }
  }

  /** Team 1's list affects only team 1: as long as it reads, team 2 ends up
      the same whatever it holds. */
  lemma Team1ListAffectsOnlyTeam1(r: MatchRecord, doc: Json, entries: seq<Json>)
    requires Sub(doc, "data").Obj? && r.team1.info.id != r.team2.info.id
    requires StatEntries(doc, r.team1.info.id).Ok?
    requires Run(r.team1.stats, StatEntries(doc, r.team1.info.id).value).failure.None?
    requires Run(r.team1.stats, entries).failure.None?
    ensures ExtractStats(r, WithTeamEntries(doc, IntText(r.team1.info.id), entries)).record.team2
         == ExtractStats(r, doc).record.team2
    ensures ExtractStats(r, WithTeamEntries(doc, IntText(r.team1.info.id), entries)).failure
         == ExtractStats(r, doc).failure
  {
    if IntText(r.team1.info.id) == IntText(r.team2.info.id) {
      IntTextInjective(r.team1.info.id, r.team2.info.id);
    }
  }

  /** Construction then `get_stats`: the full-time goals are the scores of
      the fixture document, whatever the statistics document says. */
  lemma FullTimeGoalsAreScores(doc: Json, stats: Json)
    requires BuildRecord(doc).Ok?
    ensures var teams := Sub(Sub(doc, "entity"), "teams").items;
      var x := ExtractStats(BuildRecord(doc).value, stats);
      Sub(teams[0], "score") == Num(x.record.team1.stats.ftg)
      && Sub(teams[1], "score") == Num(x.record.team2.stats.ftg)
  {
  }

  /** `Statistic`: eight counters, assigned in place by `MatchStatistic`. */
  class Statistic {
    var ftg: int
    var htg: int
    var sh: int
    var sot: int
    var co: int
    var fo: int
    var yc: int
    var rc: int

    function Value(): Stats
      reads this
    {
      Stats(ftg, htg, sh, sot, co, fo, yc, rc)
    }

    /** Every counter defaults to 0. */
    constructor (ftg: int := 0, htg: int := 0, sh: int := 0, sot: int := 0,
                 co: int := 0, fo: int := 0, yc: int := 0, rc: int := 0)
      ensures Value() == Stats(ftg, htg, sh, sot, co, fo, yc, rc)
    {
      this.ftg, this.htg, this.sh, this.sot := ftg, htg, sh, sot;
      this.co, this.fo, this.yc, this.rc := co, fo, yc, rc;
    }

    /** `self.teamN.stats.<field> = value`. */
    method Assign(f: Field, v: int)
      modifies this
      ensures Value() == WithStat(old(Value()), f, v)
    {
      match f
      case Ftg => ftg := v;
      case Htg => htg := v;
      case Sh => sh := v;
      case Sot => sot := v;
      case Co => co := v;
      case Fo => fo := v;
      case Yc => yc := v;
      case Rc => rc := v;
    }

    /** The `for stat in ...["M"]` loop of `get_stats`, which the source
        writes out once per team: each entry that names a code overwrites
        its field, in list order; the first entry that cannot be read stops
        the loop with its error, leaving what was already assigned. */
    method ApplyEntries(entries: seq<Json>) returns (failure: Option<Error>)
      modifies this
      ensures Applied(Value(), failure) == Run(old(Value()), entries)
    {
      var i := 0;
      while i < |entries|
        invariant 0 <= i <= |entries|
        invariant Run(old(Value()), entries[..i]) == Applied(Value(), None)
      {
        assert entries[..i + 1][..i] == entries[..i];
        match DecodeEntry(entries[i])
        case Err(e) =>
          FailureSticks(old(Value()), entries, i + 1);
          return Some(e);
        case Ok(u) =>
          if u.Overwrite? {
            Assign(u.field, u.value);
          }
        i := i + 1;
      }
      assert entries[..i] == entries;
      return None;
    }
  }

  /** `TeamStat`: a team's identity and its own `Statistic`. */
  class TeamStat {
    const info: TeamInfo
    const stats: Statistic

    constructor (info: TeamInfo)
      ensures this.info == info && fresh(stats) && stats.Value() == Zero
    {
      this.info := info;
      stats := new Statistic();
    }
  }

  /** `MatchStatistic`: the match context and the two teams, in the order of
      the fixture document's team list. */
  class MatchStatistic {
    const matchInfo: MatchInfo
    const team1: TeamStat
    const team2: TeamStat

    /** The two teams own distinct `Statistic` objects. */
    ghost predicate Valid()
    {
      team1.stats != team2.stats
    }

    function Value(): MatchRecord
      reads team1.stats, team2.stats
    {
      MatchRecord(matchInfo, TeamRecord(team1.info, team1.stats.Value()), TeamRecord(team2.info, team2.stats.Value()))
    }

    constructor (matchInfo: MatchInfo, team1: TeamStat, team2: TeamStat)
      requires team1.stats != team2.stats
      ensures Valid()
      ensures this.matchInfo == matchInfo && this.team1 == team1 && this.team2 == team2
    {
      this.matchInfo, this.team1, this.team2 := matchInfo, team1, team2;
    }

    /** `MatchStatistic(data)`: the teams are built first with all-zero
        statistics, then their full-time goals are assigned from `score`. */
    static method FromDocument(doc: Json) returns (r: Result<MatchStatistic, Error>)
      ensures r.Err? ==> BuildRecord(doc) == Err(r.error)
      ensures r.Ok? ==> BuildRecord(doc) == Ok(r.value.Value())
      ensures r.Ok? ==> r.value.Valid() && fresh(r.value.team1.stats) && fresh(r.value.team2.stats)
    {
      var entity :- Member(doc, "entity");
      var matchInfo :- ParseMatchInfo(entity);
      var teams :- Member(entity, "teams");
      var doc1 :- Element(teams, 0);
      var info1 :- ParseTeamInfo(doc1);
      var team1 := new TeamStat(info1);
      var doc2 :- Element(teams, 1);
      var info2 :- ParseTeamInfo(doc2);
      var team2 := new TeamStat(info2);
      var m := new MatchStatistic(matchInfo, team1, team2);
      var score1 :- IntMember(doc1, "score");
      m.team1.stats.ftg := score1;
      var score2 :- IntMember(doc2, "score");
      m.team2.stats.ftg := score2;
      assert m.team1.stats.Value() == Zero.(ftg := score1);
      assert m.team2.stats.Value() == Zero.(ftg := score2);
      r := Ok(m);
    }

    /** `get_stats(data)`: fills both teams' statistics in place from the
        statistics document; returns the error Python would raise, if any. */
    method GetStats(doc: Json) returns (failure: Option<Error>)
      requires Valid()
      modifies team1.stats, team2.stats
      ensures Extracted(Value(), failure) == ExtractStats(old(Value()), doc)
    {
      var entries1 := StatEntries(doc, team1.info.id);
      if entries1.Err? {
        return Some(entries1.error);
      }
      failure := team1.stats.ApplyEntries(entries1.value);
      if failure.Some? {
        return;
      }
      var entries2 := StatEntries(doc, team2.info.id);
      if entries2.Err? {
        return Some(entries2.error);
      }
      failure := team2.stats.ApplyEntries(entries2.value);
    }
  }
}
