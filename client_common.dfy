/**
 * What the two JavaScript clients (src/hiscores.js and its older form
 * hiscores.js) declare identically: the services.runescape.com addresses,
 * the skill table, the accepted modes, the argument checks of `getStats`
 * and `getHiscores`, and the address of a hiscore page. Each client keeps
 * its own `other` activity table, so the page address takes it as a
 * parameter.
 */
module ClientCommon {
  import opened Wrappers
  import opened JsBuiltins
  import opened UriEncoding
  import opened ModeCascade
  import Helpers

  // ------------------------------------------------------------------
  // Addresses
  // ------------------------------------------------------------------

  /** The `URLs` record's per-mode entries. */
  const MODE_URLS: map<string, string> := map[
    "main" := "http://services.runescape.com/m=hiscore_oldschool/",
    "iron" := "http://services.runescape.com/m=hiscore_oldschool_ironman/",
    "ult" := "http://services.runescape.com/m=hiscore_oldschool_ultimate/",
    "hc" := "http://services.runescape.com/m=hiscore_oldschool_hardcore_ironman/",
    "dmm" := "http://services.runescape.com/m=hiscore_oldschool_deadman/",
    "sdmm" := "http://services.runescape.com/m=hiscore_oldschool_seasonal/",
    "dmmt" := "http://services.runescape.com/m=hiscore_oldschool_tournament/"
  ]
  const STATS_PATH: string := "index_lite.ws?player="
  const SCORES_PATH: string := "overall.ws?"

  const VALID_MODES: seq<string> := ["full", "main", "iron", "hc", "ult", "dmm", "sdmm", "dmmt"]

  /** Every accepted mode other than "full" has an address. */
  lemma ModeUrlsCoverValidModes(mode: string)
    requires mode in VALID_MODES && mode != "full"
    ensures mode in MODE_URLS
  {
  }

  /** The address of a player's stats payload in one mode. */
  function StatsUrl(mode: string, rsn: string): (url: string)
    requires mode in MODE_URLS
    ensures |url| > |MODE_URLS[mode]| + |STATS_PATH| - 1
  {
    MODE_URLS[mode] + (STATS_PATH + EncodeURIComponent(rsn))
  }

  // ------------------------------------------------------------------
  // The skill table, in payload order
  // ------------------------------------------------------------------

  const SKILLS_A: seq<string> := ["overall", "attack", "defence", "strength", "hitpoints", "ranged", "prayer", "magic"]
  const SKILLS_B: seq<string> := ["cooking", "woodcutting", "fletching", "fishing", "firemaking", "crafting", "smithing", "mining"]
  const SKILLS_C: seq<string> := ["herblore", "agility", "thieving", "slayer", "farming", "runecraft", "hunter", "construction"]

  /** `hiscores.skills`. */
  const JS_SKILLS: seq<string> := SKILLS_A + SKILLS_B + SKILLS_C

  lemma SkillRunsDistinct()
    ensures Distinct(SKILLS_A) && Distinct(SKILLS_B) && Distinct(SKILLS_C)
  {
  }

  lemma SkillRunsApartAB()
    ensures forall x :: x in SKILLS_B ==> x !in SKILLS_A
  {
  }

  lemma SkillRunsApartC()
    ensures forall x :: x in SKILLS_C ==> x !in SKILLS_A + SKILLS_B
  {
  }

  /** Twenty-four distinct skill names, `overall` first. */
  lemma JsSkillsTable()
    ensures |JS_SKILLS| == 24 && JS_SKILLS[0] == "overall"
    ensures Distinct(JS_SKILLS)
  {
    SkillRunsDistinct();
    SkillRunsApartAB();
    SkillRunsApartC();
    DistinctAppend(SKILLS_A, SKILLS_B);
    DistinctAppend(SKILLS_A + SKILLS_B, SKILLS_C);
  }

  // ------------------------------------------------------------------
  // Failures
  // ------------------------------------------------------------------

  /** How a client call fails: an Error with a message, a TypeError, or a rejected request. */
  datatype Failure = Thrown(message: string) | TypeError | RequestFailed(reason: string)

  const INVALID_GAME_MODE: string := "Invalid game mode"
  const PAGE_ERROR: string := "Page must be an integer greater than 0"
  const INVALID_CATEGORY: string := "Invalid category"

  // ------------------------------------------------------------------
  // Results
  // ------------------------------------------------------------------

  /** The name the cascade writes into `player.mode`. */
  function ModeName(m: Mode): string
  {
    match m
    case Main => "main"
    case Iron => "iron"
    case Hardcore => "hc"
    case Ultimate => "ult"
  }

  /** Every mode name is a game mode with an address, and a valid mode argument. */
  lemma ModeNamesAreModes(m: Mode)
    ensures ModeName(m) in MODE_URLS && ModeName(m) in VALID_MODES
  {
  }

  /** Records keyed by the names of the attached modes hold exactly the attached modes. */
  lemma AttachedNames<S>(selected: Mode, records: map<string, S>)
    requires selected == Main ==> records.Keys == {"main"}
    requires selected == Iron ==> records.Keys == {"main", "iron"}
    requires selected == Hardcore ==> records.Keys == {"main", "iron", "hc"}
    requires selected == Ultimate ==> records.Keys == {"main", "iron", "ult"}
    ensures forall m :: ModeName(m) in records <==> m in Attached(selected)
  {
  }

  /** What `getStats` resolves to: name, mode and flags, and one parsed payload per attached mode. */
  datatype Player<S> = Player(rsn: string, mode: string, dead: bool, deironed: bool, records: map<string, S>)

  /** A hiscore row's figures: level and xp in a skill table, a score otherwise. */
  datatype RowFigures = LevelXp(level: string, xp: string) | Score(score: string)

  /** One player of a hiscore page; `dead` is present only in hardcore mode. */
  datatype PlayerRow = PlayerRow(
    mode: string, category: string, rank: string, rsn: string, figures: RowFigures, dead: Option<bool>)

  // ------------------------------------------------------------------
  // getStats argument checks
  // ------------------------------------------------------------------

  /** The clients' name characters: [A-Za-z0-9 _], without the hyphen. */
  predicate IsClientNameChar(c: char)
  {
    ('A' <= c <= 'Z') || ('a' <= c <= 'z') || ('0' <= c <= '9') || c == ' ' || c == '_'
  }

  /** `/^[a-zA-Z0-9 _]+$/.test(rsn)`. */
  predicate MatchesClientPattern(rsn: string)
  {
    |rsn| >= 1 && forall i :: 0 <= i < |rsn| ==> IsClientNameChar(rsn[i])
  }

  /**
   * The checks of `getStats`, in order: the name pattern, then the length,
   * then the lower-cased mode. On success, the mode passed on is lower-cased.
   */
  function CheckStatsArgs(rsn: string, mode: string): (r: Result<string, string>)
    ensures r.Ok? <==> MatchesClientPattern(rsn) && |rsn| <= 12 && ToLower(mode) in VALID_MODES
    ensures r.Ok? ==> r.value == ToLower(mode)
    ensures r == Err(Helpers.RSN_INVALID_CHARACTER) <==> !MatchesClientPattern(rsn)
    ensures r == Err(Helpers.RSN_INVALID_LENGTH) <==> MatchesClientPattern(rsn) && |rsn| > 12
    ensures r == Err(INVALID_GAME_MODE)
      <==> MatchesClientPattern(rsn) && |rsn| <= 12 && ToLower(mode) !in VALID_MODES
  {
    if !MatchesClientPattern(rsn) then Err(Helpers.RSN_INVALID_CHARACTER)
    else if |rsn| > 12 || |rsn| < 1 then Err(Helpers.RSN_INVALID_LENGTH)
    else if ToLower(mode) !in VALID_MODES then Err(INVALID_GAME_MODE)
    else Ok(ToLower(mode))
  }

  /** A name the clients accept is accepted by the later `validateRSN` too. */
  lemma ClientNamesPassValidateRSN(rsn: string, mode: string)
    requires CheckStatsArgs(rsn, mode).Ok?
    ensures Helpers.ValidateRSN(rsn) == None
  {
    assert IsNameText(rsn) by {
      forall i | 0 <= i < |rsn| ensures IsNameChar(rsn[i]) {
        assert IsClientNameChar(rsn[i]);
      }
    }
  }

  /** The converse fails: `validateRSN` admits a hyphen that the clients refuse. */
  lemma HyphenOnlyInValidateRSN()
    ensures Helpers.ValidateRSN("a-b") == None
    ensures CheckStatsArgs("a-b", "main") == Err(Helpers.RSN_INVALID_CHARACTER)
  {
    assert !IsClientNameChar("a-b"[1]);
    assert IsNameText("a-b") by {
      forall i | 0 <= i < 3 ensures IsNameChar("a-b"[i]) {
      }
    }
  }

  // ------------------------------------------------------------------
  // getHiscores argument checks and the page address
  // ------------------------------------------------------------------

  /** The `page` argument: a JavaScript number (finite, as a real) or a value of another type. */
  datatype PageArg = PageNumber(value: real) | NotANumber

  /** `Number.isInteger(page)`. */
  predicate IsIntegerPage(page: PageArg)
  {
    page.PageNumber? && page.value.Floor as real == page.value
  }

  /** A validated request for one page of a hiscore table. */
  datatype HiscoresQuery = HiscoresQuery(mode: string, category: string, page: int)

  predicate IsHiscoresMode(mode: string)
  {
    mode in VALID_MODES && mode != "full"
  }

  /**
   * The checks of `getHiscores`, in order: the lower-cased mode (not "full"),
   * then an integer page of at least 1, then a lower-cased category from the
   * skill table or the client's `other` table.
   */
  function CheckHiscoresArgs(mode: string, category: string, page: PageArg, other: seq<string>)
    : (r: Result<HiscoresQuery, string>)
    ensures r.Ok? <==> (IsHiscoresMode(ToLower(mode)) && IsIntegerPage(page) && page.value >= 1.0
                        && (ToLower(category) in JS_SKILLS || ToLower(category) in other))
    ensures r.Ok? ==> (r.value == HiscoresQuery(ToLower(mode), ToLower(category), page.value.Floor)
                       && r.value.page >= 1 && r.value.mode in MODE_URLS)
    ensures r == Err(INVALID_GAME_MODE) <==> !IsHiscoresMode(ToLower(mode))
    ensures r == Err(PAGE_ERROR) <==> IsHiscoresMode(ToLower(mode)) && !(IsIntegerPage(page) && page.value >= 1.0)
    ensures r == Err(INVALID_CATEGORY) <==>
      (IsHiscoresMode(ToLower(mode)) && IsIntegerPage(page) && page.value >= 1.0
       && ToLower(category) !in JS_SKILLS && ToLower(category) !in other)
  {
    var m := ToLower(mode);
    var c := ToLower(category);
    if !(m in VALID_MODES) || m == "full" then Err(INVALID_GAME_MODE)
    else if !IsIntegerPage(page) || page.value < 1.0 then Err(PAGE_ERROR)
    else if c !in JS_SKILLS && c !in other then Err(INVALID_CATEGORY)
    else Ok(HiscoresQuery(m, c, page.value.Floor))
  }

  /** The table selector: a skill's index, or `category_type=1` and the index in `other`. */
  function TableParam(category: string, other: seq<string>): string
  {
    if category in JS_SKILLS then "table=" + IntToString(IndexOf(JS_SKILLS, category))
    else "category_type=1&table=" + IntToString(IndexOf(other, category))
  }

  /** The address `getHiscoresPage` requests. */
  function HiscoresPageUrl(q: HiscoresQuery, other: seq<string>): string
    requires q.mode in MODE_URLS
  {
    MODE_URLS[q.mode] + (SCORES_PATH + (TableParam(q.category, other) + ("&page=" + IntToString(q.page))))
  }

  /** A skill's table number is its position in the skill table. */
  lemma SkillTableParam(i: int, other: seq<string>)
    requires 0 <= i < |JS_SKILLS|
    ensures TableParam(JS_SKILLS[i], other) == "table=" + IntToString(i)
  {
    JsSkillsTable();
    IndexOfDistinct(JS_SKILLS, i);
  }

  /** A non-skill category's table number is its position in `other`. */
  lemma OtherTableParam(j: int, other: seq<string>)
    requires Distinct(other) && 0 <= j < |other| && other[j] !in JS_SKILLS
    ensures TableParam(other[j], other) == "category_type=1&table=" + IntToString(j)
  {
    IndexOfDistinct(other, j);
  }

  lemma TableParamKind(c: string, other: seq<string>)
    ensures |TableParam(c, other)| > 0
    ensures TableParam(c, other)[0] == if c in JS_SKILLS then 't' else 'c'
  {
  }

  /** The table selector identifies the category among the accepted ones. */
  lemma TableParamIdentifiesCategory(c: string, d: string, other: seq<string>)
    requires c in JS_SKILLS || c in other
    requires d in JS_SKILLS || d in other
    requires TableParam(c, other) == TableParam(d, other)
    ensures c == d
  {
    TableParamKind(c, other);
    TableParamKind(d, other);
    if c in JS_SKILLS {
      var i := IndexOf(JS_SKILLS, c);
      var j := IndexOf(JS_SKILLS, d);
      DropPrefix("table=", IntToString(i), IntToString(j));
      IntToStringInjective(i, j);
    } else {
      var i := IndexOf(other, c);
      var j := IndexOf(other, d);
      DropPrefix("category_type=1&table=", IntToString(i), IntToString(j));
      IntToStringInjective(i, j);
    }
  }

  /** The address of a page names the mode's address, the table and the page, in that order. */
  lemma HiscoresPageUrlShape(q: HiscoresQuery, other: seq<string>, i: int)
    requires q.mode in MODE_URLS && 0 <= i < |JS_SKILLS| && q.category == JS_SKILLS[i]
    ensures HiscoresPageUrl(q, other)
      == MODE_URLS[q.mode] + (SCORES_PATH + ("table=" + IntToString(i) + ("&page=" + IntToString(q.page))))
  {
    SkillTableParam(i, other);
  }

  // ------------------------------------------------------------------
  // The name-lookup address
  // ------------------------------------------------------------------

  /** The name-lookup address up to the name: the main hiscore page, overall table. */
  const NAME_LOOKUP_BASE: string := MODE_URLS["main"] + SCORES_PATH + "table=0&user="

  /** The address `getRSNFormat` requests, with the name percent-encoded. */
  function NameLookupUrl(rsn: string): string
  {
    NAME_LOOKUP_BASE + EncodeURIComponent(rsn)
  }

  /** The older client's lookup address, with the name inserted as it is. */
  function RawNameLookupUrl(rsn: string): string
  {
    NAME_LOOKUP_BASE + rsn
  }

  lemma {:induction false} EscapeSpacesIdentity(s: string)
    ensures EscapeSpaces(s) == s <==> ' ' !in s
    decreases |s|
  {
    if s != [] {
      EscapeSpacesIdentity(s[1..]);
      assert s == [s[0]] + s[1..];
      if s[0] == ' ' {
        assert |EscapeSpaces(s)| > 0 && EscapeSpaces(s)[0] == '%';
      }
    }
  }

  /** For an accepted name, the two lookup addresses agree exactly when the name has no space. */
  lemma LookupUrlsAgreeWithoutSpaces(rsn: string, mode: string)
    requires CheckStatsArgs(rsn, mode).Ok?
    ensures NameLookupUrl(rsn) == RawNameLookupUrl(rsn) <==> ' ' !in rsn
  {
    ClientNamesPassValidateRSN(rsn, mode);
    EncodeNameText(rsn);
    EscapeSpacesIdentity(rsn);
    if NameLookupUrl(rsn) == RawNameLookupUrl(rsn) {
      DropPrefix(NAME_LOOKUP_BASE, EncodeURIComponent(rsn), rsn);
    }
  }
}
