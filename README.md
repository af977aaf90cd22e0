# EPL match statistics: the match record pipeline in Dafny

The scraper builds one record per Premier League match and writes it as a CSV
row. This project models that pipeline and proves properties of the model:

- It builds a `MatchStatistic` from the fixture document. This covers the
  match context (`MatchInfo` with its `Ground`), the two teams (`TeamStat`,
  each a `TeamInfo` and a `Statistic`) and their full-time goals.
- It fills the other seven statistics in place with `get_stats`. That method
  walks each team's list of `{"name", "value"}` entries and applies a fixed
  table of seven provider codes.
- It flattens the record into the 21-cell row under the 21-name header. The
  referee's name is cut out of the match page's last summary text.

Modules, one per file:

- `Wrappers` (`wrappers.dfy`): `Option` and `Result`.
- `Decimal` (`decimal.dfy`): digit strings, read as numbers and written from
  them. This covers `int(...)` on captured digits and `str(team_id)`.
- `Documents` (`documents.dfy`): the decoded JSON (`Json`). It also covers
  the Python failures a subscript can raise (`Error`), as explicit results.
- `Kickoff` (`kickoff.dfy`): the kickoff conversion. Four characters are
  dropped, the rest is read with `"%a %d %b %Y, %H:%M"`, and the date is
  written as `"%d/%m/%Y"`.
- `Statistics` (`statistics.dfy`): the eight counters as a value, the code
  table, and a specification of one `get_stats` loop.
- `MatchResult` (`match_result.dfy`):
  - the record constructors as functions;
  - the classes `Statistic`, `TeamStat` and `MatchStatistic`, whose methods
    update the counters in place;
  - the record-level properties of `get_stats`.
- `Strings` (`strings.dfy`): `str.strip()` and `str.split(": ")` with its
  `[-1]` piece, the two string steps of the referee extraction.
- `MatchweekResult` (`matchweek_result.dfy`): `manipulate_stats`, the
  header, the referee step, and the per-match body of the export loop.

Python raises `KeyError`, `TypeError`, `IndexError` or `ValueError` where a
key is missing, a value has the wrong shape, a list is too short, or the
kickoff label does not parse. Here every such case is an `Err` with an
`Error` that names the key, index or label.

The record is assigned field by field, so a failure can leave a partial
update behind. The model keeps this behaviour:

- If team 1's list has been applied and team 2's id is missing from the
  statistics map, team 1's statistics are already changed when the error
  surfaces.
- Within one list, the entries before an unreadable one have already been
  applied.

Two points where the code is more specific than its descriptions:

- The class docstring speaks of two teams. The code reads `teams[0]` and
  `teams[1]` and ignores any further teams, so a document with more than
  two is accepted.
- The referee is the text after the last `": "` of the last summary text
  (`split(": ")[-1]`), not after the first one.

## Model

| member | source | states |
|---|---|---|
| Decimal.NatText | EPL/epl_match_result.py:209 | `str(n)` is a non-empty run of digits with no leading zero; it is one digit exactly for `n` below 10. |
| Decimal.ValueOfNatText | EPL/epl_match_result.py:209 | `str(n)` of a team id reads back as `n`. |
| Decimal.IntTextInjective | EPL/epl_match_result.py:209 | Distinct team ids give distinct `str(id)` keys, so each team's lookup in `data["data"]` finds its own entry. |
| Kickoff.ParseMoment | EPL/epl_match_result.py:104-105 | Whatever `strptime` accepts is a real date and time: year 1-9999, a day that exists in its month (leap years included), hour below 24, minute below 60. |
| Kickoff.DateText | EPL/epl_match_result.py:106 | `strftime("%d/%m/%Y")` gives two digits, `/`, two digits, `/`, four digits. |
| Kickoff.KickoffDate | EPL/epl_match_result.py:104-106 | A converted kickoff always has the shape DD/MM/YYYY (None stands for the ValueError). |
| Kickoff.ParseFieldsExactly | EPL/epl_match_result.py:104-105 | The pattern reader accepts a text exactly when it writes some moment in `"%a %d %b %Y, %H:%M"` and reads it as that moment. A writing has a known weekday and month abbreviation, one- or two-digit day, hour and minute, a four-digit year, and the literal spaces, `", "` and `":"`. |
| Kickoff.WrittenDetermines | EPL/epl_match_result.py:104-105 | No text writes two different moments, so a label has a single reading. |
| Kickoff.KickoffDateExactly | EPL/epl_match_result.py:104-106 | The conversion yields `d` exactly when the label has at least four characters, the text before its last four writes a moment `datetime` accepts, and `d` is that moment's DD/MM/YYYY. Every other label is refused. |
| Kickoff.ParseRender | EPL/epl_match_result.py:104-105 | Reading a label in the provider's layout gives back exactly the moment written, when `datetime` accepts it, and fails when it does not. |
| Kickoff.KickoffRoundTrip | EPL/epl_match_result.py:104-106 | For any four-character zone suffix, converting the label of a valid moment yields that moment's date as DD/MM/YYYY. |
| Kickoff.LabelConverts | EPL/epl_match_result.py:104-106 | Any label whose text before its last four characters is the rendering of a valid moment converts to that moment's date. |
| Kickoff.LabelRefused | EPL/epl_match_result.py:104-105 | Any label whose text before its last four characters is the rendering of fields `datetime` rejects is refused. |
| Kickoff.WeekdayIgnored | EPL/epl_match_result.py:104-105 | The weekday abbreviation is matched but not checked against the date; changing it does not change the result. |
| Kickoff.DateTextReads | EPL/epl_match_result.py:106 | The three digit groups of the output read back as the day, month and year of the moment. |
| Kickoff.NoSuchDayRefused | EPL/epl_match_result.py:104-105 | A label in the right layout naming a day, hour or minute that does not exist is refused. |
| Kickoff.SaturdayAfternoon | EPL/epl_match_result.py:104-106 | `"Sat 14 Aug 2022, 15:00 BST"` converts to `"14/08/2022"`. |
| Kickoff.NoLeapDayIn2022 | EPL/epl_match_result.py:104-105 | `"Mon 29 Feb 2022, 15:00 GMT"` is refused: 2022 is not a leap year. |
| Kickoff.UnknownWeekdayRefused | EPL/epl_match_result.py:104-105 | `"Sab 14 Aug 2022, 15:00 BST"` is refused: the first word is not a weekday abbreviation. |
| Statistics.WithStat | EPL/epl_match_result.py:210-223 | One assignment `stats.<field> = value`: that field reads the value and every other field is unchanged. |
| Statistics.CodeField | EPL/epl_match_result.py:210-223 | The `if`/`elif` chain selects a field exactly for the seven provider codes, one field per code, and never selects full-time goals. |
| Statistics.DecodeEntry | EPL/epl_match_result.py:210-223 | An entry fails exactly when it is not an object, has no `name`, or names a code without an integer `value`. It is ignored exactly when its name is not a code. Otherwise it overwrites the coded field with its `value`. |
| Statistics.Run | EPL/epl_match_result.py:209-223 | The loop over a team's list never changes full-time goals. |
| Statistics.FailureSticks | EPL/epl_match_result.py:209-223 | Once an entry fails, the entries after it are never read. |
| Statistics.RunSucceedsIff | EPL/epl_match_result.py:209-223 | The loop completes if and only if every entry of the list can be read. |
| Statistics.FailureIndependent | EPL/epl_match_result.py:209-223 | Whether the loop fails, and with which error, does not depend on the statistics it starts from. |
| Statistics.RunIsOverlay | EPL/epl_match_result.py:209-223 | A completed loop leaves each coded field holding the value of the last entry with that code, or its prior value if no entry has it. Full-time goals are unchanged. |
| Statistics.LastOccurrenceWins | EPL/epl_match_result.py:209-223 | If entry `j` sets field `f` to `v` and no later entry selects `f`, the field ends up `v`. |
| Statistics.UnselectedFieldKept | EPL/epl_match_result.py:209-223 | A field that no entry selects keeps its prior value. |
| Statistics.Idempotent | EPL/epl_match_result.py:209-223 | Running the same list again over the result changes nothing. |
| Statistics.IgnoredEntryRemovable | EPL/epl_match_result.py:209-223 | An entry with an unrecognised name can be removed from anywhere in the list without changing the outcome, error included. |
| Statistics.StopsAtFirstBadEntry | EPL/epl_match_result.py:209-223 | The first unreadable entry's error is reported, with every entry before it already applied. |
| MatchResult.ParseGround | EPL/epl_match_result.py:45-47 | `Ground(data)` succeeds exactly when `name` and `city` are strings, and holds them. |
| MatchResult.ParseTeamInfo | EPL/epl_match_result.py:65-68 | `TeamInfo(data)` succeeds exactly when `team.id` is an integer and `team.name` and `team.shortName` are strings, and holds them. |
| MatchResult.Attendance | EPL/epl_match_result.py:108 | `data.get("attendance", 0)`: an absent key gives 0 and is not an error. A present key gives its value. |
| MatchResult.ParseMatchInfo | EPL/epl_match_result.py:97-108 | `MatchInfo(data)` succeeds exactly when every required key is present with its annotated type and the kickoff label converts. Each attribute is then the document's value at its path, the kickoff is the converted DD/MM/YYYY, and the attendance defaults to 0. |
| MatchResult.BuildRecord | EPL/epl_match_result.py:175-182 | The constructor in value form succeeds exactly when `entity` is present, its match info reads, `teams` is a list of at least two, both teams' identities read and both `score`s are integers. Then `teams[0]` becomes team 1 and `teams[1]` team 2, by position, full-time goals are each team's `score` and every other statistic is 0. |
| MatchResult.StatEntries | EPL/epl_match_result.py:209 | `data["data"][str(id)]["M"]` is found exactly when it is a list. A team id absent from the map gives `MissingTeamStats`. |
| MatchResult.ExtractStats | EPL/epl_match_result.py:209-239 | `get_stats` in value form never changes the match info, the team identities or the full-time goals. |
| MatchResult.ExtractIsOverlay | EPL/epl_match_result.py:209-239 | After a completed `get_stats`, each team's statistics are its prior statistics overlaid with its own list. Each code's field holds its last value. |
| MatchResult.ExtractIdempotent | EPL/epl_match_result.py:209-239 | Applying the same statistics document twice gives what applying it once gave. |
| MatchResult.MissingTeamStatsFails | EPL/epl_match_result.py:209-225 | A missing team 1 id fails with nothing changed. A missing team 2 id fails after team 1's list has been applied. |
| MatchResult.EmptyListsChangeNothing | EPL/epl_match_result.py:209-239 | Empty `"M"` lists for both teams leave the record unchanged and do not fail. |
| MatchResult.Team2ListAffectsOnlyTeam2 | EPL/epl_match_result.py:225-239 | For distinct team ids, whatever team 2's list holds, team 1 ends up the same. |
| MatchResult.Team1ListAffectsOnlyTeam1 | EPL/epl_match_result.py:209-223 | Whatever team 1's list holds, as long as it reads, team 2 and the overall outcome end up the same. |
| MatchResult.FullTimeGoalsAreScores | EPL/epl_match_result.py:181-182 | After construction and `get_stats`, each team's full-time goals are its `score` in the fixture document, whatever the statistics document says. |
| MatchResult.Statistic.constructor | EPL/epl_match_result.py:136-144 | Each counter takes its argument, default 0. |
| MatchResult.Statistic.Assign | EPL/epl_match_result.py:211 | Overwriting one counter in place changes that counter only. |
| MatchResult.Statistic.ApplyEntries | EPL/epl_match_result.py:209-223 | The in-place loop leaves the counters and the error given by the loop specification `Run`. |
| MatchResult.TeamStat.constructor | EPL/epl_match_result.py:152-154 | A team gets its identity and a fresh `Statistic` with every counter 0. |
| MatchResult.MatchStatistic.FromDocument | EPL/epl_match_result.py:175-182 | `MatchStatistic(data)` succeeds exactly when `BuildRecord` does, with the same error. On success it allocates two fresh, distinct `Statistic` objects holding `BuildRecord`'s record. |
| MatchResult.MatchStatistic.GetStats | EPL/epl_match_result.py:209-239 | Filling both teams in place leaves the record and the error that `ExtractStats` specifies. |
| MatchweekResult.ManipulateStats | EPL/epl_matchweek_result.py:70-97 | The row has 21 cells, one per header name. Cell 8 is the referee argument unchanged. Text cells appear only in positions 0-3 and 8; every other cell is an integer. |
| MatchweekResult.FieldsDistinct | EPL/epl_matchweek_result.py:151-173 | The 21 header names are pairwise distinct. |
| MatchweekResult.StatPosition | EPL/epl_matchweek_result.py:151-173 | Each team's statistic has a header column carrying its name (`FTHG`, `FTAG`, ..., `HR`, `AR`). |
| MatchweekResult.InfoColumnsLineUp | EPL/epl_matchweek_result.py:75-84 | The cells under `Season`, `Date`, `HomeTeam`, `AwayTeam` and `Referee` are the season, the kickoff, team 1's and team 2's short names, and the referee. |
| MatchweekResult.StatColumnLinesUp | EPL/epl_matchweek_result.py:80-96 | The cell under each statistic's header is that team's value, team 1 under the home names and team 2 under the away names. |
| MatchweekResult.StatColumnInjective | EPL/epl_matchweek_result.py:151-173 | No two statistics of the two sides share a header name. |
| Strings.Strip | EPL/epl_matchweek_result.py:188 | `str.strip()` gives a slice of the text. Everything before and after it is whitespace, and it neither starts nor ends with whitespace. |
| Strings.StripIdempotent | EPL/epl_matchweek_result.py:188 | Stripping a stripped text changes nothing. |
| Strings.JoinSplit | EPL/epl_matchweek_result.py:192 | Joining the pieces of `split(": ")` with `": "` gives back the text. |
| Strings.PiecesHaveNoSeparator | EPL/epl_matchweek_result.py:192 | No piece of `split(": ")` contains `": "`. |
| Strings.SplitJoin | EPL/epl_matchweek_result.py:192 | Splitting a `": "`-join of separator-free pieces gives back the pieces. |
| Strings.LastPieceIsAfterLastSeparator | EPL/epl_matchweek_result.py:192 | `[-1]` of the split is the suffix of the text that holds no `": "` and is either the whole text or preceded by `": "`. That is the text after the last separator. |
| Strings.AfterLastSeparatorUnique | EPL/epl_matchweek_result.py:192 | At most one suffix of a text is separator-free and either the whole text or preceded by `": "`, so that description pins the `[-1]` piece down. |
| MatchweekResult.Referee | EPL/epl_matchweek_result.py:187-192 | The referee step fails exactly when there is no summary text (`[-1]` of an empty list). |
| MatchweekResult.RefereeInLastSummary | EPL/epl_matchweek_result.py:187-192 | The referee is the tail of the stripped last summary after its last `": "`, or the whole stripped text. It contains no `": "` and does not end in whitespace. |
| MatchweekResult.MatchRow | EPL/epl_matchweek_result.py:185-218 | A match yields a row exactly when there is a summary text, the record builds, and `get_stats` completes. A page without summaries fails with `NoSummary` before either document is read, and a fixture that does not build reports its own error before any statistic is read. |
| MatchweekResult.MatchRowInfo | EPL/epl_matchweek_result.py:185-218 | In an exported row, `Season` holds the fixture's season label, `Date` the converted kickoff label, `HomeTeam` and `AwayTeam` the short names of `teams[0]` and `teams[1]`, and `Referee` the text after the last `": "` of the stripped last summary. |
| MatchweekResult.MatchRowStats | EPL/epl_matchweek_result.py:185-218 | In an exported row, each side's full-time goals column holds its team's `score` in the fixture. Every other statistic column holds the value of the last entry with that statistic's code in the team's own `"M"` list, or 0 if no entry has it. |
| MatchweekResult.ProcessMatch | EPL/epl_matchweek_result.py:185-218 | Building the objects, filling them in place and flattening them yields exactly `MatchRow`'s result. |

## Left out

- HTTP requests, request headers and `json.loads` (`EPL/epl_matchweek_result.py` lines 138-142 and 184-213) are network I/O. Decoded documents are parameters of type `Json`.
- BeautifulSoup selection of fixture links and summary elements is a foreign HTML library. The summary texts are a parameter `seq<string>`, and only the string steps after it are modelled.
- `fake_useragent`, the `argparse` parser, the `+ 18389` week offset and the `__main__` driver are ambient state and configuration.
- CSV file creation and writing are file I/O. The row and the header are modelled as sequences, and the quoting the `csv` module applies is not modelled.
- The loop over the fixture links in `main` is not modelled. `ProcessMatch` models one iteration of its body.
- Kickoff.ParseMoment: `strptime` matches case-insensitively, accepts any run of whitespace where the pattern has a space, accepts a space-padded day (`" 4"`) and non-ASCII digits. The model accepts only the provider's layout: English abbreviations in their usual capitalisation, single spaces and ASCII digits.
- Kickoff.DateText: always writes four year digits. `strftime("%Y")` on some platforms does not pad years below 1000.
- MatchResult.ParseGround: `name` and `city` must be strings, although Python stores whatever JSON value it finds there. The model type-checks string attributes as it does integer ones.
- MatchResult.ParseTeamInfo: `team.name` and `team.shortName` must be strings, although Python stores any JSON value.
- MatchResult.ParseMatchInfo: `compSeason.label` and `competition.description` must be strings, although Python stores any JSON value. The kickoff label must be a string in both.
- Statistics.DecodeEntry: a `value` that is not an integer is an error (`WrongType`), as are the integer attributes of the fixture document. Python would store a float or a string as-is; the attributes are annotated `int`.
- MatchResult.StatEntries: an `"M"` that is not a list is an error. Python would iterate an object's keys or a string's characters and most likely fail on the first entry.
- Statistics.DecodeEntry: a JSON boolean used as a name or value is treated like any other non-string or non-integer value. Python's `True == 1` is not modelled.
- The exact Python exception classes are not modelled. Each failure is an `Error` naming what was missing or malformed.
- `MatchStatistic.__init__` raises on the first missing key. The model reports the first failure in the same reading order, but keeps no partially built object, because Python discards it as well.
