/**
 * The constant tables of the TypeScript client: the hiscores base addresses,
 * the per-game-mode address table, the skill, clue, bounty-hunter, boss and
 * activity name lists in the order the hiscores service uses, the display
 * names of each key and the error messages.
 *
 * Each name union of the client is an enumeration here, so a table of names
 * is a sequence of constructors and a formatted-name record is a map.
 */
module Constants {
  import opened Wrappers
  import opened JsBuiltins
  import opened Bosses

  const BASE_URL: string := "https://secure.runescape.com/m=hiscore_oldschool"
  const STATS_URL: string := "index_lite.ws?player="
  const JSON_STATS_URL: string := "index_lite.json?player="
  const SCORES_URL: string := "overall.ws?"

  // ------------------------------------------------------------------
  // Game modes
  // ------------------------------------------------------------------

  /** The keys of the game-mode address table. */
  datatype Gamemode =
    | Main | Ironman | Hardcore | Ultimate | Deadman | Seasonal | Tournament
    | Skiller | OneDefence | FreshStart

  /** The address of each game mode's hiscores. */
  const GAMEMODE_URL: map<Gamemode, string> := map[
    Main := BASE_URL + "/",
    Ironman := BASE_URL + "_ironman/",
    Hardcore := BASE_URL + "_hardcore_ironman/",
    Ultimate := BASE_URL + "_ultimate/",
    Deadman := BASE_URL + "_deadman/",
    Seasonal := BASE_URL + "_seasonal/",
    Tournament := BASE_URL + "_tournament/",
    Skiller := BASE_URL + "_skiller/",
    OneDefence := BASE_URL + "_skiller_defence/",
    FreshStart := BASE_URL + "_fresh_start/"
  ]

  /** The modes listed as selectable (a subset of the address table's keys). */
  const GAMEMODES: seq<Gamemode> := [Main, Ironman, Hardcore, Ultimate, Deadman, Seasonal, Tournament]

  /** The part of each address between BASE_URL and the closing '/'. */
  function ModeSuffix(g: Gamemode): string
  {
    match g
    case Main => ""
    case Ironman => "_ironman"
    case Hardcore => "_hardcore_ironman"
    case Ultimate => "_ultimate"
    case Deadman => "_deadman"
    case Seasonal => "_seasonal"
    case Tournament => "_tournament"
    case Skiller => "_skiller"
    case OneDefence => "_skiller_defence"
    case FreshStart => "_fresh_start"
  }

  /** Recovers the game mode from its suffix. */
  function ModeOfSuffix(suffix: string): Option<Gamemode>
  {
    if suffix == "" then Some(Main)
    else if suffix == "_ironman" then Some(Ironman)
    else if suffix == "_hardcore_ironman" then Some(Hardcore)
    else if suffix == "_ultimate" then Some(Ultimate)
    else if suffix == "_deadman" then Some(Deadman)
    else if suffix == "_seasonal" then Some(Seasonal)
    else if suffix == "_tournament" then Some(Tournament)
    else if suffix == "_skiller" then Some(Skiller)
    else if suffix == "_skiller_defence" then Some(OneDefence)
    else if suffix == "_fresh_start" then Some(FreshStart)
    else None
  }

  /**
   * Every game mode has an address, and it is BASE_URL, the mode's suffix and
   * a closing '/'; the suffix holds no '/' and is empty exactly for the main mode.
   */
  lemma GamemodeUrlShape(g: Gamemode)
    ensures g in GAMEMODE_URL
    ensures GAMEMODE_URL[g] == BASE_URL + ModeSuffix(g) + "/"
    ensures '/' !in ModeSuffix(g)
    ensures ModeSuffix(g) == "" <==> g == Main
  {
  }

  /** Distinct modes have distinct suffixes. */
  lemma ModeSuffixInjective(g: Gamemode, h: Gamemode)
    requires ModeSuffix(g) == ModeSuffix(h)
    ensures g == h
  {
    assert ModeOfSuffix(ModeSuffix(g)) == Some(g);
    assert ModeOfSuffix(ModeSuffix(h)) == Some(h);
  }

  /**
   * No game-mode address is a proper prefix of another one followed by more text:
   * an address with anything appended determines both the mode and the rest.
   */
  lemma GamemodeUrlPrefixFree(g: Gamemode, x: string, h: Gamemode, y: string)
    requires GamemodeUrl(g) + x == GamemodeUrl(h) + y
    ensures g == h && x == y
  {
    var a := ModeSuffix(g);
    var b := ModeSuffix(h);
    GamemodeUrlShape(g);
    GamemodeUrlShape(h);
    assert GamemodeUrl(g) + x == BASE_URL + (a + (['/'] + x));
    assert GamemodeUrl(h) + y == BASE_URL + (b + (['/'] + y));
    DropPrefix(BASE_URL, a + (['/'] + x), b + (['/'] + y));
    CancelAtSeparator(a, '/', x, b, y);
    ModeSuffixInjective(g, h);
  }

  /** The address of a game mode's hiscores. */
  function GamemodeUrl(g: Gamemode): (url: string)
    ensures url == BASE_URL + ModeSuffix(g) + "/"
  {
    GamemodeUrlShape(g);
    GAMEMODE_URL[g]
  }

  // ------------------------------------------------------------------
  // Skills
  // ------------------------------------------------------------------

  datatype SkillName =
    | Overall | Attack | Defence | Strength | Hitpoints | Ranged
    | Prayer | Magic | Cooking | Woodcutting | Fletching | Fishing
    | Firemaking | Crafting | Smithing | Mining | Herblore | Agility
    | Thieving | Slayer | Farming | Runecraft | Hunter | Construction

  /** The skills in hiscores order. */
  const SKILLS: seq<SkillName> := [
    Overall, Attack, Defence, Strength, Hitpoints, Ranged,
    Prayer, Magic, Cooking, Woodcutting, Fletching, Fishing,
    Firemaking, Crafting, Smithing, Mining, Herblore, Agility,
    Thieving, Slayer, Farming, Runecraft, Hunter, Construction
  ]

  /** The skill table in three runs of eight. */
  lemma SkillRuns()
    ensures SKILLS == [Overall, Attack, Defence, Strength, Hitpoints, Ranged, Prayer, Magic]
                    + [Cooking, Woodcutting, Fletching, Fishing, Firemaking, Crafting, Smithing, Mining]
                    + [Herblore, Agility, Thieving, Slayer, Farming, Runecraft, Hunter, Construction]
  {
  }

  /** SKILLS lists the 24 skills, each exactly once, with overall first. */
  lemma SkillsTable()
    ensures |SKILLS| == 24 && SKILLS[0] == Overall
    ensures Distinct(SKILLS)
    ensures forall s: SkillName :: s in SKILLS
  {
    var combat := [Overall, Attack, Defence, Strength, Hitpoints, Ranged, Prayer, Magic];
    var gathering := [Cooking, Woodcutting, Fletching, Fishing, Firemaking, Crafting, Smithing, Mining];
    var support := [Herblore, Agility, Thieving, Slayer, Farming, Runecraft, Hunter, Construction];
    SkillRuns();
    DistinctAppend(combat, gathering);
    DistinctAppend(combat + gathering, support);
    forall s: SkillName ensures s in SKILLS {
      SkillListed(s);
    }
  }

  lemma SkillListed(s: SkillName)
    ensures s in [Overall, Attack, Defence, Strength, Hitpoints, Ranged, Prayer, Magic]
         || s in [Cooking, Woodcutting, Fletching, Fishing, Firemaking, Crafting, Smithing, Mining]
         || s in [Herblore, Agility, Thieving, Slayer, Farming, Runecraft, Hunter, Construction]
  {
  }

  /** The display name of each skill. */
  const FORMATTED_SKILL_NAMES: map<SkillName, string> := map[
    Overall := "Overall",
    Attack := "Attack",
    Defence := "Defence",
    Strength := "Strength",
    Hitpoints := "Hitpoints",
    Ranged := "Ranged",
    Prayer := "Prayer",
    Magic := "Magic",
    Cooking := "Cooking",
    Woodcutting := "Woodcutting",
    Fletching := "Fletching",
    Fishing := "Fishing",
    Firemaking := "Firemaking",
    Crafting := "Crafting",
    Smithing := "Smithing",
    Mining := "Mining",
    Herblore := "Herblore",
    Agility := "Agility",
    Thieving := "Thieving",
    Slayer := "Slayer",
    Farming := "Farming",
    Runecraft := "Runecraft",
    Hunter := "Hunter",
    Construction := "Construction"
  ]

  /** Every skill has a display name. */
  lemma FormattedSkillNamesTotal(s: SkillName)
    ensures s in FORMATTED_SKILL_NAMES
  {
  }

  // ------------------------------------------------------------------
  // Clue tiers and bounty-hunter types
  // ------------------------------------------------------------------

  datatype ClueType = All | Beginner | Easy | Medium | Hard | Elite | Master

  /** The clue tiers in hiscores order. */
  const CLUES: seq<ClueType> := [All, Beginner, Easy, Medium, Hard, Elite, Master]

  /** CLUES lists the seven tiers once each, from "all" to "master". */
  lemma CluesTable()
    ensures |CLUES| == 7
    ensures CLUES[0] == All && CLUES[1] == Beginner && CLUES[2] == Easy && CLUES[3] == Medium
    ensures CLUES[4] == Hard && CLUES[5] == Elite && CLUES[6] == Master
    ensures Distinct(CLUES)
    ensures forall c: ClueType :: c in CLUES
  {
    forall c: ClueType ensures c in CLUES {
      assert c == All || c == Beginner || c == Easy || c == Medium || c == Hard || c == Elite || c == Master;
    }
  }

  datatype BHType = HunterV2 | RogueV2 | BhHunter | BhRogue

  /** The bounty-hunter types in hiscores order. */
  const BH_MODES: seq<BHType> := [HunterV2, RogueV2, BhHunter, BhRogue]

  lemma BhModesTable()
    ensures |BH_MODES| == 4
    ensures Distinct(BH_MODES)
    ensures forall b: BHType :: b in BH_MODES
  {
    forall b: BHType ensures b in BH_MODES {
      assert b == HunterV2 || b == RogueV2 || b == BhHunter || b == BhRogue;
    }
  }

  /** The display name of each clue tier. */
  const FORMATTED_CLUE_NAMES: map<ClueType, string> := map[
    All := "Clue Scrolls (all)",
    Beginner := "Clue Scrolls (beginner)",
    Easy := "Clue Scrolls (easy)",
    Medium := "Clue Scrolls (medium)",
    Hard := "Clue Scrolls (hard)",
    Elite := "Clue Scrolls (elite)",
    Master := "Clue Scrolls (master)"
  ]

  /** The display name of each bounty-hunter type. */
  const FORMATTED_BH_NAMES: map<BHType, string> := map[
    BhRogue := "Bounty Hunter (Legacy) - Rogue",
    BhHunter := "Bounty Hunter (Legacy) - Hunter",
    RogueV2 := "Bounty Hunter - Rogue",
    HunterV2 := "Bounty Hunter - Hunter"
  ]

  /** Every clue tier and every bounty-hunter type has a display name. */
  lemma FormattedClueAndBhNamesTotal(c: ClueType, b: BHType)
    ensures c in FORMATTED_CLUE_NAMES
    ensures b in FORMATTED_BH_NAMES
  {
  }

  const FORMATTED_LMS: string := "LMS - Rank"
  const FORMATTED_PVP_ARENA: string := "PvP Arena - Rank"
  const FORMATTED_SOUL_WARS: string := "Soul Wars Zeal"
  const FORMATTED_LEAGUE_POINTS: string := "League Points"
  const FORMATTED_DEADMAN_POINTS: string := "Deadman Points"
  const FORMATTED_RIFTS_CLOSED: string := "Rifts closed"
  const FORMATTED_COLOSSEUM_GLORY: string := "Colosseum Glory"
  const FORMATTED_COLLECTIONS_LOGGED: string := "Collections Logged"

  // ------------------------------------------------------------------
  // Activities
  // ------------------------------------------------------------------

  /** The activity names: nineteen fixed ones, then every boss. */
  datatype ActivityName =
    | LeaguePoints | DeadmanPoints | HunterBHV2 | RogueBHV2 | HunterBH | RogueBH
    | AllClues | BeginnerClues | EasyClues | MediumClues | HardClues | EliteClues | MasterClues
    | LastManStanding | PvpArena | SoulWarsZeal | RiftsClosed | ColosseumGlory | CollectionsLogged
    | BossActivity(boss: Boss)

  /** The activities that are not bosses, in hiscores order. */
  const FIXED_ACTIVITIES: seq<ActivityName> := [
    LeaguePoints, DeadmanPoints, HunterBHV2, RogueBHV2, HunterBH, RogueBH,
    AllClues, BeginnerClues, EasyClues, MediumClues, HardClues, EliteClues, MasterClues,
    LastManStanding, PvpArena, SoulWarsZeal, RiftsClosed, ColosseumGlory, CollectionsLogged
  ]

  /** The boss names spread into the activity list. */
  function BossActivities(bosses: seq<Boss>): (acts: seq<ActivityName>)
    ensures |acts| == |bosses|
    ensures forall i :: 0 <= i < |bosses| ==> acts[i] == BossActivity(bosses[i])
  {
    seq(|bosses|, i requires 0 <= i < |bosses| => BossActivity(bosses[i]))
  }

  /** The activity table: the fixed activities followed by BOSSES. */
  const ACTIVITIES: seq<ActivityName> := FIXED_ACTIVITIES + BossActivities(BOSSES)

  /** The fixed activities are nineteen distinct non-boss names. */
  lemma FixedActivitiesTable()
    ensures |FIXED_ACTIVITIES| == 19
    ensures Distinct(FIXED_ACTIVITIES)
    ensures forall i :: 0 <= i < 19 ==> !FIXED_ACTIVITIES[i].BossActivity?
  {
  }

  /** ACTIVITIES holds 86 distinct names: the fixed ones, then one per boss. */
  lemma ActivitiesTable()
    ensures |ACTIVITIES| == 19 + |BOSSES| == 86
    ensures Distinct(ACTIVITIES)
  {
    FixedActivitiesTable();
    BossesTable();
    var tail := BossActivities(BOSSES);
    assert Distinct(tail) by {
      forall i, j | 0 <= i < j < |tail| ensures tail[i] != tail[j] {
        assert BOSSES[i] != BOSSES[j];
      }
    }
    assert forall x :: x in tail ==> x.BossActivity?;
    DistinctAppend(FIXED_ACTIVITIES, tail);
  }

  /** Spreading bosses into activities keeps their positions. */
  lemma {:induction false} IndexOfBossActivities(bosses: seq<Boss>, b: Boss)
    ensures IndexOf(BossActivities(bosses), BossActivity(b)) == IndexOf(bosses, b)
    decreases |bosses|
  {
    if bosses != [] {
      var acts := BossActivities(bosses);
      assert acts[1..] == BossActivities(bosses[1..]);
      IndexOfBossActivities(bosses[1..], b);
    }
  }

  /** A boss's activity table index is 19 plus its index in BOSSES. */
  lemma ActivityIndexOfBoss(b: Boss)
    ensures IndexOf(ACTIVITIES, BossActivity(b)) == 19 + IndexOf(BOSSES, b)
  {
    FixedActivitiesTable();
    BossesTable();
    var tail := BossActivities(BOSSES);
    IndexOfBossActivities(BOSSES, b);
    assert BossActivity(b) !in FIXED_ACTIVITIES;
    IndexOfAfter(FIXED_ACTIVITIES, tail, BossActivity(b));
  }

  // ------------------------------------------------------------------
  // Errors
  // ------------------------------------------------------------------

  const INVALID_FORMAT_ERROR: string := "Invalid hiscores format"
  const PLAYER_NOT_FOUND_ERROR: string := "Player not found"
  const HISCORES_ERROR: string := "HiScores not responding"

  /** The client's error classes; an invalid-name error carries its own message. */
  datatype HiscoresError =
    | InvalidFormatError
    | InvalidRSNError(detail: string)
    | PlayerNotFoundError
    | HiScoresError

  /** The message each error carries. */
  function Message(e: HiscoresError): string
  {
    match e
    case InvalidFormatError => INVALID_FORMAT_ERROR
    case InvalidRSNError(detail) => detail
    case PlayerNotFoundError => PLAYER_NOT_FOUND_ERROR
    case HiScoresError => HISCORES_ERROR
  }

  /** The three fixed messages differ, so a fixed message names its error class. */
  lemma FixedMessagesIdentifyClass(e: HiscoresError, f: HiscoresError)
    requires !e.InvalidRSNError? && !f.InvalidRSNError?
    requires Message(e) == Message(f)
    ensures e == f
  {
    assert INVALID_FORMAT_ERROR[0] == 'I' && PLAYER_NOT_FOUND_ERROR[0] == 'P' && HISCORES_ERROR[0] == 'H';
  }
}
