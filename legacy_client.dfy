/**
 * The older JavaScript client hiscores.js: `parseStats` reads the payload's
 * lines at fixed indices into a pre-initialised object, keeping every field
 * as text; `getPlayerStats` requests the payloads and resolves the game mode
 * with the same cascade as the newer client; `getRSNFormat` reads the
 * canonical name from the lookup page; and `getHiscores` checks its
 * arguments, requests a page and turns each table row into a player entry.
 *
 * Requests are the parameter `fetch` (what `fetch` resolves to for an
 * address, or its network failure). Pages are given already selected:
 * `marked` yields the inner HTML of each marked cell of a lookup page, and
 * `rowsOf` the `td` cells of each table row of a hiscore page.
 */
module LegacyClient {
  import opened Wrappers
  import opened JsBuiltins
  import opened Records
  import opened ModeCascade
  import opened ClientCommon
  import Constants

  // ------------------------------------------------------------------
  // Tables
  // ------------------------------------------------------------------

  /** `hiscores.other`: the activity categories, by table number. */
  const LEGACY_OTHER: seq<string> := [
    "easyclues", "mediumclues", "allclues", "roguebh", "hunterbh",
    "hardclues", "lms", "eliteclues", "masterclues"
  ]

  lemma LegacyTables()
    ensures |LEGACY_OTHER| == 9 && Distinct(LEGACY_OTHER)
    ensures forall c :: c in LEGACY_OTHER ==> c !in JS_SKILLS
  {
    assert forall c :: c in LEGACY_OTHER ==> c !in SKILLS_A && c !in SKILLS_B && c !in SKILLS_C;
  }

  // ------------------------------------------------------------------
  // parseStats
  // ------------------------------------------------------------------

  /** A field of the stats object: the initial 0, a field's text, or undefined (a field past the line's end). */
  datatype Value = Zero | Text(text: string) | Undef

  datatype SkillEntry = SkillEntry(rank: Value, level: Value, xp: Value)
  datatype ScoreEntry = ScoreEntry(rank: Value, score: Value)

  /** The fixed clue-tier properties of the stats object. */
  datatype Clues = Clues(all: ScoreEntry, easy: ScoreEntry, medium: ScoreEntry, hard: ScoreEntry,
                         elite: ScoreEntry, master: ScoreEntry)

  /** The fixed bounty-hunter properties of the stats object. */
  datatype BountyHunter = BountyHunter(rogue: ScoreEntry, hunter: ScoreEntry)

  /** What `parseStats` returns: the skills by name, the clue tiers, bounty hunter and lms. */
  datatype LegacyStats = LegacyStats(stats: map<Key<string>, SkillEntry>, clues: Clues, bh: BountyHunter,
                                     lms: ScoreEntry)

  const ZERO_SKILL: SkillEntry := SkillEntry(Zero, Zero, Zero)
  const ZERO_SCORE: ScoreEntry := ScoreEntry(Zero, Zero)

  /** `n` skill entries of zeros. */
  function Zeros(n: nat): (zeros: seq<SkillEntry>)
    ensures |zeros| == n
  {
    if n == 0 then [] else Zeros(n - 1) + [ZERO_SKILL]
  }

  /** The object `parseStats` starts from: every property present and 0. */
  const INITIAL: LegacyStats := LegacyStats(
    Assign(map[], JS_SKILLS, Zeros(|JS_SKILLS|)),
    Clues(ZERO_SCORE, ZERO_SCORE, ZERO_SCORE, ZERO_SCORE, ZERO_SCORE, ZERO_SCORE),
    BountyHunter(ZERO_SCORE, ZERO_SCORE),
    ZERO_SCORE)

  /** `skillInfo[k]`. */
  function FieldAt(fields: seq<string>, k: nat): Value
  {
    if k < |fields| then Text(fields[k]) else Undef
  }

  /** A line read as a skill: its first three comma-separated fields. */
  function SkillEntryOf(line: string): SkillEntry
  {
    var fields := Split(line, ',');
    SkillEntry(FieldAt(fields, 0), FieldAt(fields, 1), FieldAt(fields, 2))
  }

  /** A line read as an activity: its first two comma-separated fields. */
  function ScoreEntryOf(line: string): ScoreEntry
  {
    var fields := Split(line, ',');
    ScoreEntry(FieldAt(fields, 0), FieldAt(fields, 1))
  }

  /** Each line read as a skill. */
  function SkillEntries(lines: seq<string>): (entries: seq<SkillEntry>)
    ensures |entries| == |lines|
  {
    seq(|lines|, k requires 0 <= k < |lines| => SkillEntryOf(lines[k]))
  }

  /** The object after the first n skill reads: skills 0 to n - 1 from lines 0 to n - 1, the others still 0. */
  function SkillsRead(lines: seq<string>, n: nat): LegacyStats
    requires n <= |lines|
  {
    INITIAL.(stats := Assign(INITIAL.stats, JS_SKILLS, SkillEntries(lines[..n])))
  }

  /**
   * The object of a payload of at least 33 lines: lines 0 to 23 are the
   * skills in table order, then the activity lines 24 to 32 in the fixed
   * order easy, medium, all clues, rogue, hunter, hard clues, lms, elite and
   * master clues. Later lines are not read.
   */
  function StatsOfLines(lines: seq<string>): LegacyStats
    requires |lines| >= 33
  {
    SkillsRead(lines, 24).(
      clues := Clues(all := ScoreEntryOf(lines[26]), easy := ScoreEntryOf(lines[24]),
                     medium := ScoreEntryOf(lines[25]), hard := ScoreEntryOf(lines[29]),
                     elite := ScoreEntryOf(lines[31]), master := ScoreEntryOf(lines[32])),
      bh := BountyHunter(rogue := ScoreEntryOf(lines[27]), hunter := ScoreEntryOf(lines[28])),
      lms := ScoreEntryOf(lines[30]))
  }

  /**
   * `parseStats` over the payload's lines: with fewer than 33 lines one of
   * the reads indexes past the last line and throws; otherwise the object
   * described line by line.
   */
  function LinesResult(lines: seq<string>): Result<LegacyStats, Failure>
  {
    if |lines| < 33 then Err(TypeError) else Ok(StatsOfLines(lines))
  }

  /** `parseStats(csv)` as a value. */
  function LegacyStatsOf(csv: string): Result<LegacyStats, Failure>
  {
    LinesResult(Split(csv, '\n'))
  }

  /** A clue tier of the stats object. */
  datatype Tier = All | Easy | Medium | Hard | Elite | Master

  /** A bounty-hunter slot of the stats object. */
  datatype BhKind = Rogue | Hunter

  /** An activity slot of the stats object. */
  datatype Slot = ClueSlot(tier: Tier) | BhSlot(kind: BhKind) | LmsSlot

  /** The entry held in an activity slot. */
  function SlotEntry(s: LegacyStats, slot: Slot): ScoreEntry
  {
    match slot
    case LmsSlot => s.lms
    case BhSlot(Rogue) => s.bh.rogue
    case BhSlot(Hunter) => s.bh.hunter
    case ClueSlot(All) => s.clues.all
    case ClueSlot(Easy) => s.clues.easy
    case ClueSlot(Medium) => s.clues.medium
    case ClueSlot(Hard) => s.clues.hard
    case ClueSlot(Elite) => s.clues.elite
    case ClueSlot(Master) => s.clues.master
  }

  /** One more skill read: skill n takes line n, the earlier reads stay. */
  lemma SkillReadStep(lines: seq<string>, n: nat)
    requires n < 24 && n < |lines|
    ensures SkillsRead(lines, n + 1)
         == SkillsRead(lines, n).(stats := SkillsRead(lines, n).stats[Named(JS_SKILLS[n]) := SkillEntryOf(lines[n])])
  {
    JsSkillsTable();
    assert SkillEntries(lines[..n + 1]) == SkillEntries(lines[..n]) + [SkillEntryOf(lines[n])];
    AssignSnoc(INITIAL.stats, JS_SKILLS, SkillEntries(lines[..n]), SkillEntryOf(lines[n]));
  }

  /** `parseStats(csv)`: the skill loop over the table, then the activity lines in the order the source reads them. */
  method ParseStats(csv: string) returns (r: Result<LegacyStats, Failure>)
    ensures r == LegacyStatsOf(csv)
  {
    var stats := INITIAL;
    var splitCSV := Split(csv, '\n');
    JsSkillsTable();
    var i := 0;
    assert splitCSV[..0] == [];
    while i < |JS_SKILLS|
      invariant 0 <= i <= |JS_SKILLS| && i <= |splitCSV|
      invariant stats == SkillsRead(splitCSV, i)
    {
      if i >= |splitCSV| {
        return Err(TypeError);
      }
      var skillInfo := Split(splitCSV[i], ',');
      SkillReadStep(splitCSV, i);
      stats := stats.(stats := stats.stats[Named(JS_SKILLS[i]) :=
        SkillEntry(FieldAt(skillInfo, 0), FieldAt(skillInfo, 1), FieldAt(skillInfo, 2))]);
      i := i + 1;
    }
    r := ReadActivities(stats, splitCSV);
  }

  /**
   * The fixed activity reads of `parseStats`, each line index checked as the
   * source reaches it: whatever the order of the reads, a missing line
   * throws and the slots end up as described line by line.
   */
  method ReadActivities(skills: LegacyStats, splitCSV: seq<string>) returns (r: Result<LegacyStats, Failure>)
    requires |splitCSV| >= 24 && skills == SkillsRead(splitCSV, 24)
    ensures r == LinesResult(splitCSV)
  {
    var stats := skills;
    if |splitCSV| <= 26 {
      return Err(TypeError);
    }
    stats := stats.(clues := stats.clues.(all := ScoreEntryOf(splitCSV[26])));
    stats := stats.(clues := stats.clues.(easy := ScoreEntryOf(splitCSV[24])));
    stats := stats.(clues := stats.clues.(medium := ScoreEntryOf(splitCSV[25])));
    if |splitCSV| <= 29 {
      return Err(TypeError);
    }
    stats := stats.(clues := stats.clues.(hard := ScoreEntryOf(splitCSV[29])));
    if |splitCSV| <= 31 {
      return Err(TypeError);
    }
    stats := stats.(clues := stats.clues.(elite := ScoreEntryOf(splitCSV[31])));
    if |splitCSV| <= 32 {
      return Err(TypeError);
    }
    stats := stats.(clues := stats.clues.(master := ScoreEntryOf(splitCSV[32])));
    stats := stats.(bh := stats.bh.(rogue := ScoreEntryOf(splitCSV[27])));
    stats := stats.(bh := stats.bh.(hunter := ScoreEntryOf(splitCSV[28])));
    stats := stats.(lms := ScoreEntryOf(splitCSV[30]));
    return Ok(stats);
  }

  // ------------------------------------------------------------------
  // Which line lands in which slot
  // ------------------------------------------------------------------

  /** Lines 0 to 23 are the skills, in table order; the object has exactly the table's skills. */
  lemma SkillLines(lines: seq<string>, i: nat)
    requires |lines| >= 33 && i < 24
    ensures Named(JS_SKILLS[i]) in StatsOfLines(lines).stats
    ensures StatsOfLines(lines).stats[Named(JS_SKILLS[i])] == SkillEntryOf(lines[i])
    ensures StatsOfLines(lines).stats.Keys == set s | s in JS_SKILLS :: Named(s)
  {
    JsSkillsTable();
    AssignNamed(INITIAL.stats, JS_SKILLS, SkillEntries(lines[..24]), i);
    KeysOfFullTable(map[], JS_SKILLS, Zeros(24));
    KeysOfFullTable(INITIAL.stats, JS_SKILLS, SkillEntries(lines[..24]));
  }

  /** The slot each activity line 24 to 32 holds, in line order. */
  const LINE_SLOTS: seq<Slot> := [
    ClueSlot(Easy), ClueSlot(Medium), ClueSlot(All), BhSlot(Rogue), BhSlot(Hunter),
    ClueSlot(Hard), LmsSlot, ClueSlot(Elite), ClueSlot(Master)
  ]

  function TierName(t: Tier): string
  {
    match t
    case All => "all"
    case Easy => "easy"
    case Medium => "medium"
    case Hard => "hard"
    case Elite => "elite"
    case Master => "master"
  }

  /** The category name of a slot in `hiscores.other`. */
  function SlotCategory(slot: Slot): string
  {
    match slot
    case ClueSlot(tier) => TierName(tier) + "clues"
    case BhSlot(Rogue) => "roguebh"
    case BhSlot(Hunter) => "hunterbh"
    case LmsSlot => "lms"
  }

  /** Line 24 + k holds the slot LINE_SLOTS[k]. */
  lemma ActivityLines(lines: seq<string>, k: nat)
    requires |lines| >= 33 && k < 9
    ensures SlotEntry(StatsOfLines(lines), LINE_SLOTS[k]) == ScoreEntryOf(lines[24 + k])
  {
    var s := StatsOfLines(lines);
    if k < 3 {
      assert s.clues.easy == ScoreEntryOf(lines[24]) && s.clues.medium == ScoreEntryOf(lines[25]);
      assert s.clues.all == ScoreEntryOf(lines[26]);
    } else if k < 6 {
      assert s.bh == BountyHunter(ScoreEntryOf(lines[27]), ScoreEntryOf(lines[28]));
      assert s.clues.hard == ScoreEntryOf(lines[29]);
    } else {
      assert s.lms == ScoreEntryOf(lines[30]);
      assert s.clues.elite == ScoreEntryOf(lines[31]) && s.clues.master == ScoreEntryOf(lines[32]);
    }
  }

  /** The activity lines follow the client's own `other` table: line 24 + k is category k. */
  lemma ActivityLinesFollowOtherTable(k: nat)
    requires k < 9
    ensures SlotCategory(LINE_SLOTS[k]) == LEGACY_OTHER[k]
  {
  }

  /** Lines after line 32 are never read. */
  lemma LaterLinesIgnored(lines: seq<string>, extra: seq<string>)
    requires |lines| >= 33
    ensures StatsOfLines(lines + extra) == StatsOfLines(lines)
  {
    assert (lines + extra)[..24] == lines[..24];
  }

  /** No field keeps its initial 0: every rank is a field's text, every other field text or undefined. */
  predicate AllRead(s: LegacyStats)
  {
    && (forall k :: k in s.stats ==> s.stats[k].rank.Text? && s.stats[k].level != Zero && s.stats[k].xp != Zero)
    && ScoreRead(s.clues.all) && ScoreRead(s.clues.easy) && ScoreRead(s.clues.medium)
    && ScoreRead(s.clues.hard) && ScoreRead(s.clues.elite) && ScoreRead(s.clues.master)
    && ScoreRead(s.bh.rogue) && ScoreRead(s.bh.hunter) && ScoreRead(s.lms)
  }

  predicate ScoreRead(e: ScoreEntry)
  {
    e.rank.Text? && e.score != Zero
  }

  /** A parsed payload holds the raw text of its lines in every slot. */
  lemma ParsedFieldsAreText(csv: string)
    requires |Split(csv, '\n')| >= 33
    ensures LegacyStatsOf(csv).Ok?
    ensures AllRead(LegacyStatsOf(csv).value)
  {
    var lines := Split(csv, '\n');
    var s := StatsOfLines(lines);
    forall k | k in s.stats
      ensures s.stats[k].rank.Text? && s.stats[k].level != Zero && s.stats[k].xp != Zero
    {
      SkillLines(lines, 0);
      var i :| 0 <= i < 24 && k == Named(JS_SKILLS[i]);
      SkillLines(lines, i);
    }
  }

  /** Blank lines count: a leading blank line makes the overall entry an empty rank with undefined level and xp. */
  lemma LeadingBlankLineShifts(csv: string)
    requires |Split(csv, '\n')| >= 32
    ensures LegacyStatsOf("\n" + csv).Ok?
    ensures Named("overall") in LegacyStatsOf("\n" + csv).value.stats
      && LegacyStatsOf("\n" + csv).value.stats[Named("overall")] == SkillEntry(Text(""), Undef, Undef)
  {
    SplitCons('\n', csv, '\n');
    assert "\n" + csv == ['\n'] + csv;
    SplitNoSep("", ',');
    JsSkillsTable();
    SkillLines(Split("\n" + csv, '\n'), 0);
  }

  /** A three-field line is read as its rank, level and xp text. */
  lemma ThreeFieldSkill(rank: string, level: string, xp: string)
    requires ',' !in rank && ',' !in level && ',' !in xp
    ensures SkillEntryOf(rank + [','] + level + [','] + xp) == SkillEntry(Text(rank), Text(level), Text(xp))
  {
    SplitNoSep(xp, ',');
    SplitNoSep(level, ',');
    SplitNoSep(rank, ',');
    SplitAround(level, ',', xp);
    assert rank + [','] + level + [','] + xp == rank + [','] + (level + [','] + xp);
    SplitAround(rank, ',', level + [','] + xp);
  }

  /** A two-field line is read as its rank and score text. */
  lemma TwoFieldScore(rank: string, score: string)
    requires ',' !in rank && ',' !in score
    ensures ScoreEntryOf(rank + [','] + score) == ScoreEntry(Text(rank), Text(score))
  {
    SplitNoSep(score, ',');
    SplitNoSep(rank, ',');
    SplitAround(rank, ',', score);
  }

  // ------------------------------------------------------------------
  // getRSNFormat
  // ------------------------------------------------------------------

  /** What `fetch` resolves to (the `ok` flag and the body), or its network failure. */
  datatype Response = Response(ok: bool, body: string) | NetworkError(reason: string)

  /**
   * `getRSNFormat(rsn)`: the lookup page is requested with the name as it
   * is and read whatever its status; the second marked cell's HTML is the
   * name, with U+FFFD as a space; fewer than two marked cells throw
   * "Player not found", and a network failure rejects as it is.
   */
  function RSNFormat(rsn: string, fetch: string -> Response, marked: string -> seq<string>)
    : (r: Result<string, Failure>)
    ensures r.Ok? <==> fetch(RawNameLookupUrl(rsn)).Response? && |marked(fetch(RawNameLookupUrl(rsn)).body)| >= 2
    ensures fetch(RawNameLookupUrl(rsn)).NetworkError? ==> r == Err(RequestFailed(fetch(RawNameLookupUrl(rsn)).reason))
    ensures fetch(RawNameLookupUrl(rsn)).Response? && r.Err? ==> r.error == Thrown(Constants.PLAYER_NOT_FOUND_ERROR)
    ensures r.Ok? ==> (var cell := marked(fetch(RawNameLookupUrl(rsn)).body)[1];
      && r.value == ReplaceFffd(cell)
      && '\U{FFFD}' !in r.value && |r.value| == |cell|
      && (forall i :: 0 <= i < |cell| && cell[i] == '\U{FFFD}' ==> r.value[i] == ' ')
      && forall i :: 0 <= i < |cell| && cell[i] != '\U{FFFD}' ==> r.value[i] == cell[i])
  {
    match fetch(RawNameLookupUrl(rsn))
    case NetworkError(reason) => Err(RequestFailed(reason))
    case Response(_, body) =>
      var cells := marked(body);
      if |cells| >= 2 then Ok(ReplaceFffd(cells[1])) else Err(Thrown(Constants.PLAYER_NOT_FOUND_ERROR))
  }

  /** The lookup reads the page whether or not the response is ok: only the body decides. */
  lemma RSNFormatIgnoresStatus(rsn: string, fetch: string -> Response, other: string -> Response,
                               marked: string -> seq<string>)
    requires fetch(RawNameLookupUrl(rsn)).Response? && other(RawNameLookupUrl(rsn)).Response?
    requires fetch(RawNameLookupUrl(rsn)).body == other(RawNameLookupUrl(rsn)).body
    ensures RSNFormat(rsn, fetch, marked) == RSNFormat(rsn, other, marked)
  {
  }

  // ------------------------------------------------------------------
  // getPlayerStats
  // ------------------------------------------------------------------

  /** `record.stats.overall.xp`; the parsed object always has the overall property. */
  function OverallXp(s: LegacyStats): Value
  {
    if Named("overall") in s.stats then s.stats[Named("overall")].xp else Undef
  }

  /** A parsed payload's overall xp is the third field of its first line, or undefined without one. */
  lemma OverallXpOfPayload(csv: string)
    requires |Split(csv, '\n')| >= 33
    ensures LegacyStatsOf(csv).Ok?
    ensures Named("overall") in LegacyStatsOf(csv).value.stats
    ensures OverallXp(LegacyStatsOf(csv).value) == FieldAt(Split(Split(csv, '\n')[0], ','), 2)
  {
    JsSkillsTable();
    SkillLines(Split(csv, '\n'), 0);
  }

  /** The records attached for a selected mode from the parsed payloads; the first one that failed to parse throws. */
  function AttachedRecords(selected: Mode, main: Result<LegacyStats, Failure>, iron: Result<LegacyStats, Failure>,
                           hc: Result<LegacyStats, Failure>, ult: Result<LegacyStats, Failure>)
    : Result<map<string, LegacyStats>, Failure>
  {
    if main.Err? then Err(main.error)
    else if selected == Main then Ok(map["main" := main.value])
    else if iron.Err? then Err(iron.error)
    else if selected == Iron then Ok(map["main" := main.value, "iron" := iron.value])
    else if selected == Hardcore then
      if hc.Err? then Err(hc.error) else Ok(map["main" := main.value, "iron" := iron.value, "hc" := hc.value])
    else
      if ult.Err? then Err(ult.error) else Ok(map["main" := main.value, "iron" := iron.value, "ult" := ult.value])
  }

  /** The overall xp of a parsed record (undefined for a failed parse, which is never compared). */
  function XpOf(parsed: Result<LegacyStats, Failure>): Value
  {
    if parsed.Ok? then OverallXp(parsed.value) else Undef
  }

  /** Full mode once the mode is selected: the attached records, then the cascade over their overall xp. */
  function Settled(name: string, selected: Mode, main: Response, iron: Response, hc: Response, ult: Response)
    : Result<Player<LegacyStats>, Failure>
    requires main.Response? && iron.Response? && hc.Response? && ult.Response?
  {
    var m := LegacyStatsOf(main.body);
    var i := LegacyStatsOf(iron.body);
    var h := LegacyStatsOf(hc.body);
    SettleRecords(name, AttachedRecords(selected, m, i, h, LegacyStatsOf(ult.body)),
                  Decide(selected, XpOf(m), XpOf(i), XpOf(h)))
  }

  /** The player once the records are attached: the cascade's decision sets the mode and flags. */
  function SettleRecords(name: string, attached: Result<map<string, LegacyStats>, Failure>, d: Decision)
    : Result<Player<LegacyStats>, Failure>
  {
    match attached
    case Err(e) => Err(e)
    case Ok(records) => Ok(Player(name, ModeName(d.mode), d.dead, d.deironed, records))
  }

  /** The first rejection among the variant lookups and the name lookup, in the order they are listed. */
  function FirstRejection(iron: Response, hc: Response, ult: Response, name: Result<string, Failure>)
    : (f: Option<Failure>)
    ensures f.None? <==> iron.Response? && hc.Response? && ult.Response? && name.Ok?
  {
    if iron.NetworkError? then Some(RequestFailed(iron.reason))
    else if hc.NetworkError? then Some(RequestFailed(hc.reason))
    else if ult.NetworkError? then Some(RequestFailed(ult.reason))
    else if name.Err? then Some(name.error)
    else None
  }

  /** Full mode: the main payload must be found; then the variants select the mode and the cascade settles it. */
  function FullPlayerStats(rsn: string, fetch: string -> Response, marked: string -> seq<string>)
    : Result<Player<LegacyStats>, Failure>
  {
    var main := fetch(StatsUrl("main", rsn));
    if main.NetworkError? then Err(RequestFailed(main.reason))
    else if !main.ok then Err(Thrown(Constants.PLAYER_NOT_FOUND_ERROR))
    else
      var iron := fetch(StatsUrl("iron", rsn));
      var hc := fetch(StatsUrl("hc", rsn));
      var ult := fetch(StatsUrl("ult", rsn));
      var name := RSNFormat(rsn, fetch, marked);
      match FirstRejection(iron, hc, ult, name)
      case Some(f) => Err(f)
      case None => Settled(name.value, SelectMode(iron.ok, hc.ok, ult.ok), main, iron, hc, ult)
  }

  /** A single mode: its payload must be found and parsed, and it is the only record. */
  function SinglePlayerStats(rsn: string, mode: string, fetch: string -> Response)
    : Result<Player<LegacyStats>, Failure>
    requires mode in MODE_URLS
  {
    var response := fetch(StatsUrl(mode, rsn));
    if response.NetworkError? then Err(RequestFailed(response.reason))
    else if !response.ok then Err(Thrown(Constants.PLAYER_NOT_FOUND_ERROR))
    else match LegacyStatsOf(response.body)
      case Err(e) => Err(e)
      case Ok(stats) => Ok(Player(rsn, mode, false, false, map[mode := stats]))
  }

  function PlayerStats(rsn: string, mode: string, fetch: string -> Response, marked: string -> seq<string>)
    : Result<Player<LegacyStats>, Failure>
    requires mode in VALID_MODES
  {
    if mode == "full" then FullPlayerStats(rsn, fetch, marked) else SinglePlayerStats(rsn, mode, fetch)
  }

  /** `getPlayerStats(rsn, mode)`: the player object, updated step by step as the source does. */
  method GetPlayerStats(rsn: string, mode: string, fetch: string -> Response, marked: string -> seq<string>)
      returns (r: Result<Player<LegacyStats>, Failure>)
    requires mode in VALID_MODES
    ensures r == PlayerStats(rsn, mode, fetch, marked)
  {
    var player: Player<LegacyStats> := Player(rsn, mode, false, false, map[]);
    if mode == "full" {
      r := GetFullPlayerStats(player, fetch, marked);
    } else {
      var response := fetch(StatsUrl(mode, rsn));
      if response.NetworkError? {
        return Err(RequestFailed(response.reason));
      }
      if !response.ok {
        return Err(Thrown(Constants.PLAYER_NOT_FOUND_ERROR));
      }
      var stats := ParseStats(response.body);
      if stats.Err? {
        return Err(stats.error);
      }
      player := player.(records := player.records[mode := stats.value]);
      return Ok(player);
    }
  }

  /** The full-mode branch: the main lookup, the variant and name lookups, then the mode switch. */
  method GetFullPlayerStats(player: Player<LegacyStats>, fetch: string -> Response, marked: string -> seq<string>)
      returns (r: Result<Player<LegacyStats>, Failure>)
    requires !player.dead && !player.deironed && player.records == map[]
    ensures r == FullPlayerStats(player.rsn, fetch, marked)
  {
    var rsn := player.rsn;
    var main := fetch(StatsUrl("main", rsn));
    if main.NetworkError? {
      return Err(RequestFailed(main.reason));
    }
    if !main.ok {
      return Err(Thrown(Constants.PLAYER_NOT_FOUND_ERROR));
    }
    var iron := fetch(StatsUrl("iron", rsn));
    var hc := fetch(StatsUrl("hc", rsn));
    var ult := fetch(StatsUrl("ult", rsn));
    var name := RSNFormat(rsn, fetch, marked);
    var rejected := FirstRejection(iron, hc, ult, name);
    if rejected.Some? {
      return Err(rejected.value);
    }
    var selected := SelectMode(iron.ok, hc.ok, ult.ok);
    r := SettleMode(player.(rsn := name.value, mode := ModeName(selected)), selected, main, iron, hc, ult);
  }

  /** The `switch` on the selected mode: each case parses and attaches its records, then compares their overall xp. */
  method SettleMode(player: Player<LegacyStats>, selected: Mode, main: Response, iron: Response, hc: Response,
                    ult: Response)
      returns (r: Result<Player<LegacyStats>, Failure>)
    requires main.Response? && iron.Response? && hc.Response? && ult.Response?
    requires player.mode == ModeName(selected) && !player.dead && !player.deironed && player.records == map[]
    ensures r == Settled(player.rsn, selected, main, iron, hc, ult)
  {
    match selected
    case Main =>
      var mainStats := ParseStats(main.body);
      if mainStats.Err? {
        return Err(mainStats.error);
      }
      r := Ok(player.(records := player.records["main" := mainStats.value]));
    case Iron =>
      r := SettleIron(player, main, iron, hc, ult);
    case Hardcore =>
      r := SettleHardcore(player, main, iron, hc, ult);
    case Ultimate =>
      r := SettleUltimate(player, main, iron, hc, ult);
  }

  /** The de-ironing check shared by the variant cases: main and ironman overall xp differ. */
  method CompareMainIron(player: Player<LegacyStats>, mainStats: LegacyStats, ironStats: LegacyStats)
      returns (p: Player<LegacyStats>)
    ensures p == if OverallXp(mainStats) != OverallXp(ironStats) then player.(deironed := true, mode := "main")
                 else player
  {
    p := player;
    if OverallXp(mainStats) != OverallXp(ironStats) {
      p := p.(deironed := true, mode := "main");
    }
  }

  method SettleIron(player: Player<LegacyStats>, main: Response, iron: Response, hc: Response, ult: Response)
      returns (r: Result<Player<LegacyStats>, Failure>)
    requires main.Response? && iron.Response? && hc.Response? && ult.Response?
    requires player.mode == "iron" && !player.dead && !player.deironed && player.records == map[]
    ensures r == Settled(player.rsn, Iron, main, iron, hc, ult)
  {
    var p := player;
    var mainStats := ParseStats(main.body);
    if mainStats.Err? {
      return Err(mainStats.error);
    }
    p := p.(records := p.records["main" := mainStats.value]);
    var ironStats := ParseStats(iron.body);
    if ironStats.Err? {
      return Err(ironStats.error);
    }
    p := p.(records := p.records["iron" := ironStats.value]);
    p := CompareMainIron(p, mainStats.value, ironStats.value);
    return Ok(p);
  }

  method SettleHardcore(player: Player<LegacyStats>, main: Response, iron: Response, hc: Response, ult: Response)
      returns (r: Result<Player<LegacyStats>, Failure>)
    requires main.Response? && iron.Response? && hc.Response? && ult.Response?
    requires player.mode == "hc" && !player.dead && !player.deironed && player.records == map[]
    ensures r == Settled(player.rsn, Hardcore, main, iron, hc, ult)
  {
    var p := player;
    var mainStats := ParseStats(main.body);
    if mainStats.Err? {
      return Err(mainStats.error);
    }
    p := p.(records := p.records["main" := mainStats.value]);
    var ironStats := ParseStats(iron.body);
    if ironStats.Err? {
      return Err(ironStats.error);
    }
    p := p.(records := p.records["iron" := ironStats.value]);
    var hcStats := ParseStats(hc.body);
    if hcStats.Err? {
      return Err(hcStats.error);
    }
    p := p.(records := p.records["hc" := hcStats.value]);
    if OverallXp(ironStats.value) != OverallXp(hcStats.value) {
      p := p.(dead := true, mode := "iron");
    }
    p := CompareMainIron(p, mainStats.value, ironStats.value);
    return Ok(p);
  }

  method SettleUltimate(player: Player<LegacyStats>, main: Response, iron: Response, hc: Response, ult: Response)
      returns (r: Result<Player<LegacyStats>, Failure>)
    requires main.Response? && iron.Response? && hc.Response? && ult.Response?
    requires player.mode == "ult" && !player.dead && !player.deironed && player.records == map[]
    ensures r == Settled(player.rsn, Ultimate, main, iron, hc, ult)
  {
    var p := player;
    var mainStats := ParseStats(main.body);
    if mainStats.Err? {
      return Err(mainStats.error);
    }
    p := p.(records := p.records["main" := mainStats.value]);
    var ironStats := ParseStats(iron.body);
    if ironStats.Err? {
      return Err(ironStats.error);
    }
    p := p.(records := p.records["iron" := ironStats.value]);
    var ultStats := ParseStats(ult.body);
    if ultStats.Err? {
      return Err(ultStats.error);
    }
    p := p.(records := p.records["ult" := ultStats.value]);
    p := CompareMainIron(p, mainStats.value, ironStats.value);
    return Ok(p);
  }

  /** `getStats(rsn, mode)`: the argument checks, then `getPlayerStats` with the lower-cased mode. */
  method GetStats(rsn: string, mode: string, fetch: string -> Response, marked: string -> seq<string>)
      returns (r: Result<Player<LegacyStats>, Failure>)
    ensures CheckStatsArgs(rsn, mode).Err? ==> r == Err(Thrown(CheckStatsArgs(rsn, mode).error))
    ensures CheckStatsArgs(rsn, mode).Ok? ==> r == PlayerStats(rsn, ToLower(mode), fetch, marked)
  {
    var checked := CheckStatsArgs(rsn, mode);
    if checked.Err? {
      return Err(Thrown(checked.error));
    }
    r := GetPlayerStats(rsn, checked.value, fetch, marked);
  }

  /** In full mode, a main payload that is not found throws "Player not found", whatever the other lookups give. */
  lemma FullModeNeedsMain(rsn: string, fetch: string -> Response, marked: string -> seq<string>)
    requires fetch(StatsUrl("main", rsn)).Response? && !fetch(StatsUrl("main", rsn)).ok
    ensures PlayerStats(rsn, "full", fetch, marked) == Err(Thrown(Constants.PLAYER_NOT_FOUND_ERROR))
  {
  }

  /** In full mode, a name lookup that finds fewer than two marked cells rejects the whole call. */
  lemma FullModeNeedsName(rsn: string, fetch: string -> Response, marked: string -> seq<string>)
    requires fetch(StatsUrl("main", rsn)).Response? && fetch(StatsUrl("main", rsn)).ok
    requires fetch(StatsUrl("iron", rsn)).Response? && fetch(StatsUrl("hc", rsn)).Response?
    requires fetch(StatsUrl("ult", rsn)).Response?
    requires RSNFormat(rsn, fetch, marked).Err?
    ensures PlayerStats(rsn, "full", fetch, marked) == Err(RSNFormat(rsn, fetch, marked).error)
  {
  }

  /** The records attached are keyed by exactly the names of the attached modes. */
  lemma AttachedKeys(selected: Mode, main: Result<LegacyStats, Failure>, iron: Result<LegacyStats, Failure>,
                     hc: Result<LegacyStats, Failure>, ult: Result<LegacyStats, Failure>)
    requires AttachedRecords(selected, main, iron, hc, ult).Ok?
    ensures forall m :: ModeName(m) in AttachedRecords(selected, main, iron, hc, ult).value <==> m in Attached(selected)
  {
    AttachedNames(selected, AttachedRecords(selected, main, iron, hc, ult).value);
  }

  /** A settled player carries the given name, exactly the attached records, and the cascade's flags. */
  lemma SettledResult(name: string, selected: Mode, main: Response, iron: Response, hc: Response, ult: Response)
    requires main.Response? && iron.Response? && hc.Response? && ult.Response?
    requires Settled(name, selected, main, iron, hc, ult).Ok?
    ensures var p := Settled(name, selected, main, iron, hc, ult).value;
      && p.rsn == name
      && (forall m :: ModeName(m) in p.records <==> m in Attached(selected))
      && (p.deironed ==> p.mode == "main")
      && (p.dead ==> selected == Hardcore && p.mode != "hc")
  {
    AttachedKeys(selected, LegacyStatsOf(main.body), LegacyStatsOf(iron.body), LegacyStatsOf(hc.body),
                 LegacyStatsOf(ult.body));
  }

  /** Any attached payload too short to parse rejects the full-mode call with a TypeError. */
  lemma ShortAttachedPayloadThrows(name: string, selected: Mode, main: Response, iron: Response, hc: Response,
                                   ult: Response)
    requires main.Response? && iron.Response? && hc.Response? && ult.Response?
    requires (Main in Attached(selected) && |Split(main.body, '\n')| < 33)
          || (Iron in Attached(selected) && |Split(iron.body, '\n')| < 33)
          || (Hardcore in Attached(selected) && |Split(hc.body, '\n')| < 33)
          || (Ultimate in Attached(selected) && |Split(ult.body, '\n')| < 33)
    ensures Settled(name, selected, main, iron, hc, ult) == Err(TypeError)
  {
  }

  /** Outside full mode, the name, mode and flags stay as given and the mode's payload is the only record. */
  lemma SingleModeResult(rsn: string, mode: string, fetch: string -> Response, marked: string -> seq<string>)
    requires mode in VALID_MODES && mode != "full"
    requires PlayerStats(rsn, mode, fetch, marked).Ok?
    ensures var p := PlayerStats(rsn, mode, fetch, marked).value;
      && p.rsn == rsn && p.mode == mode && !p.dead && !p.deironed && p.records.Keys == {mode}
      && Ok(p.records[mode]) == LegacyStatsOf(fetch(StatsUrl(mode, rsn)).body)
  {
  }

  // ------------------------------------------------------------------
  // getHiscores and the row post-processing
  // ------------------------------------------------------------------

  /** A child node of a table cell: whether it is an element, and its inner HTML (undefined for a text node). */
  datatype Node = Node(isElement: bool, innerHtml: Option<string>)

  /** A `td` cell of a hiscore row: its inner HTML and its child nodes. */
  datatype Cell = Cell(innerHtml: string, childNodes: seq<Node>)

  /** `childElementCount`: the element children only. */
  function ChildElementCount(nodes: seq<Node>): (n: nat)
    ensures n <= |nodes|
  {
    if nodes == [] then 0 else (if nodes[0].isElement then 1 else 0) + ChildElementCount(nodes[1..])
  }

  /** Whether every cell the row's entry reads is present: rank, name link, and level and xp or score. */
  predicate RowReadable(cells: seq<Cell>, category: string)
  {
    && |cells| >= 3
    && |cells[1].childNodes| >= 2 && cells[1].childNodes[1].innerHtml.Some?
    && (ToLower(category) in JS_SKILLS ==> |cells| >= 4)
  }

  /** One row's entry: the figures' HTML without its first and last character, the name with U+FFFD as a space. */
  function ProcessRow(cells: seq<Cell>, mode: string, category: string): (r: Result<PlayerRow, Failure>)
    ensures r.Ok? <==> RowReadable(cells, category)
    ensures r.Err? ==> r.error == TypeError
    ensures r.Ok? ==> (r.value.mode == mode && r.value.category == category
      && r.value.rank == SliceInner(cells[0].innerHtml)
      && r.value.rsn == ReplaceFffd(cells[1].childNodes[1].innerHtml.value))
    ensures r.Ok? ==> (r.value.figures.LevelXp? <==> ToLower(category) in JS_SKILLS)
    ensures r.Ok? && ToLower(category) in JS_SKILLS ==>
      r.value.figures == LevelXp(SliceInner(cells[2].innerHtml), SliceInner(cells[3].innerHtml))
    ensures r.Ok? && ToLower(category) !in JS_SKILLS ==> r.value.figures == Score(SliceInner(cells[2].innerHtml))
    ensures r.Ok? ==> (r.value.dead.Some? <==> mode == "hc")
    ensures r.Ok? && mode == "hc" ==> r.value.dead == Some(ChildElementCount(cells[1].childNodes) > 1)
  {
    if !RowReadable(cells, category) then Err(TypeError)
    else
      var figures :=
        if ToLower(category) in JS_SKILLS then LevelXp(SliceInner(cells[2].innerHtml), SliceInner(cells[3].innerHtml))
        else Score(SliceInner(cells[2].innerHtml));
      Ok(PlayerRow(mode, category, SliceInner(cells[0].innerHtml), ReplaceFffd(cells[1].childNodes[1].innerHtml.value),
                   figures, if mode == "hc" then Some(ChildElementCount(cells[1].childNodes) > 1) else None))
  }

  /** The hardcore flag counts elements only: a name cell of text, link, text is not dead, one with a second element is. */
  lemma DeadCountsElements()
    ensures var alive := Cell("", [Node(false, None), Node(true, Some("Zezima")), Node(false, None)]);
      var dead := Cell("", [Node(false, None), Node(true, Some("Zezima")), Node(true, Some(""))]);
      var figure := Cell("\n1\n", []);
      && ProcessRow([figure, alive, figure], "hc", "lms") == Ok(PlayerRow("hc", "lms", "1", "Zezima", Score("1"), Some(false)))
      && ProcessRow([figure, dead, figure], "hc", "lms") == Ok(PlayerRow("hc", "lms", "1", "Zezima", Score("1"), Some(true)))
  {
    var alive := Cell("", [Node(false, None), Node(true, Some("Zezima")), Node(false, None)]);
    var dead := Cell("", [Node(false, None), Node(true, Some("Zezima")), Node(true, Some(""))]);
    assert ChildElementCount(alive.childNodes) == 1;
    assert ChildElementCount(dead.childNodes) == 2;
    JsSkillsTable();
    assert "lms" !in JS_SKILLS;
    assert ToLower("lms") == "lms";
    assert ReplaceFffd("Zezima") == "Zezima";
    assert SliceInner("\n1\n") == "1";
  }

  /** The entries of the rows, in order; the first unreadable row rejects the page. */
  function ProcessRows(rows: seq<seq<Cell>>, mode: string, category: string): (r: Result<seq<PlayerRow>, Failure>)
    ensures r.Ok? <==> forall i :: 0 <= i < |rows| ==> RowReadable(rows[i], category)
    ensures r.Ok? ==> (|r.value| == |rows|
      && forall i :: 0 <= i < |rows| ==> ProcessRow(rows[i], mode, category) == Ok(r.value[i]))
    ensures r.Err? ==> r.error == TypeError
    decreases |rows|
  {
    if rows == [] then Ok([])
    else
      var first := ProcessRow(rows[0], mode, category);
      var rest := ProcessRows(rows[1..], mode, category);
      if first.Err? || rest.Err? then Err(TypeError)
      else
        assert forall i :: 1 <= i < |rows| ==> rows[i] == rows[1..][i - 1];
        Ok([first.value] + rest.value)
  }

  /** The page's result: a network failure rejects; otherwise the rows' entries, whatever the status. */
  function PageResult(q: HiscoresQuery, fetch: string -> Response, rowsOf: string -> seq<seq<Cell>>)
    : Result<seq<PlayerRow>, Failure>
    requires q.mode in MODE_URLS
  {
    match fetch(HiscoresPageUrl(q, LEGACY_OTHER))
    case NetworkError(reason) => Err(RequestFailed(reason))
    case Response(_, body) => ProcessRows(rowsOf(body), q.mode, q.category)
  }

  /** `getHiscoresPage`: the request, then one entry per row. */
  method GetHiscoresPage(q: HiscoresQuery, fetch: string -> Response, rowsOf: string -> seq<seq<Cell>>)
      returns (r: Result<seq<PlayerRow>, Failure>)
    requires q.mode in MODE_URLS
    ensures r == PageResult(q, fetch, rowsOf)
  {
    var response := fetch(HiscoresPageUrl(q, LEGACY_OTHER));
    if response.NetworkError? {
      return Err(RequestFailed(response.reason));
    }
    r := ProcessPage(rowsOf(response.body), q.mode, q.category);
  }

  /** The loop over the page's rows, pushing each row's entry. */
  method ProcessPage(rows: seq<seq<Cell>>, mode: string, category: string) returns (r: Result<seq<PlayerRow>, Failure>)
    ensures r == ProcessRows(rows, mode, category)
  {
    var players: seq<PlayerRow> := [];
    var i := 0;
    while i < |rows|
      invariant 0 <= i <= |rows| && |players| == i
      invariant forall k :: 0 <= k < i ==> ProcessRow(rows[k], mode, category) == Ok(players[k])
    {
      var entry := ProcessRow(rows[i], mode, category);
      if entry.Err? {
        return Err(TypeError);
      }
      players := players + [entry.value];
      i := i + 1;
    }
    var all := ProcessRows(rows, mode, category);
    assert all.value == players;
    return Ok(players);
  }

  /** `getHiscores(mode, category, page)`: the argument checks against this client's tables, then the page. */
  method GetHiscores(mode: string, category: string, page: PageArg, fetch: string -> Response,
                     rowsOf: string -> seq<seq<Cell>>)
      returns (r: Result<seq<PlayerRow>, Failure>)
    ensures CheckHiscoresArgs(mode, category, page, LEGACY_OTHER).Err?
      ==> r == Err(Thrown(CheckHiscoresArgs(mode, category, page, LEGACY_OTHER).error))
    ensures CheckHiscoresArgs(mode, category, page, LEGACY_OTHER).Ok?
      ==> r == PageResult(CheckHiscoresArgs(mode, category, page, LEGACY_OTHER).value, fetch, rowsOf)
  {
    var checked := CheckHiscoresArgs(mode, category, page, LEGACY_OTHER);
    if checked.Err? {
      return Err(Thrown(checked.error));
    }
    r := GetHiscoresPage(checked.value, fetch, rowsOf);
  }

  /** An activity's page is table `category_type=1&table=k` for its position k in this client's `other` table. */
  lemma ActivityPageTable(k: int)
    requires 0 <= k < |LEGACY_OTHER|
    ensures TableParam(LEGACY_OTHER[k], LEGACY_OTHER) == "category_type=1&table=" + IntToString(k)
  {
    LegacyTables();
    OtherTableParam(k, LEGACY_OTHER);
  }
}
