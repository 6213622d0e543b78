/**
 * The TypeScript client's helpers: the four request-address builders, the
 * extraction of a number or a player name from a hiscores table cell, and the
 * player-name validation.
 */
module Helpers {
  import opened Wrappers
  import opened JsBuiltins
  import opened UriEncoding
  import opened Bosses
  import opened Constants

  // ------------------------------------------------------------------
  // Request addresses
  // ------------------------------------------------------------------

  /** The address of a player's stats payload. */
  function GetStatsURL(gamemode: Gamemode, rsn: string): string
  {
    GamemodeUrl(gamemode) + (STATS_URL + EncodeURIComponent(rsn))
  }

  /** The address of the hiscores page that looks a player up by name. */
  function GetPlayerTableURL(gamemode: Gamemode, rsn: string): string
  {
    GamemodeUrl(gamemode) + (SCORES_URL + ("table=0&user=" + EncodeURIComponent(rsn)))
  }

  /** The address of one page of a skill's ranking. */
  function GetSkillPageURL(gamemode: Gamemode, skill: SkillName, page: int): string
  {
    GamemodeUrl(gamemode)
    + (SCORES_URL + ("table=" + TableAndPage(IndexOf(SKILLS, skill), page)))
  }

  /** The address of one page of an activity's or a boss's ranking. */
  function GetActivityPageURL(gamemode: Gamemode, activity: ActivityName, page: int): string
  {
    GamemodeUrl(gamemode)
    + (SCORES_URL + ("category_type=1&table=" + TableAndPage(IndexOf(ACTIVITIES, activity), page)))
  }

  /** `<table>&page=<page>`, the tail of a ranking-page address. */
  function TableAndPage(table: int, page: int): string
  {
    IntToString(table) + ("&page=" + IntToString(page))
  }

  /** For a well-formed name, the stats address spells every space as "%20" and keeps the rest. */
  lemma StatsUrlOfName(gamemode: Gamemode, rsn: string)
    requires IsNameText(rsn)
    ensures GetStatsURL(gamemode, rsn) == GamemodeUrl(gamemode) + (STATS_URL + EscapeSpaces(rsn))
  {
    EncodeNameText(rsn);
  }

  /** For a well-formed name, the player-table address spells every space as "%20". */
  lemma PlayerTableUrlOfName(gamemode: Gamemode, rsn: string)
    requires IsNameText(rsn)
    ensures GetPlayerTableURL(gamemode, rsn)
         == GamemodeUrl(gamemode) + (SCORES_URL + ("table=0&user=" + EscapeSpaces(rsn)))
  {
    EncodeNameText(rsn);
  }

  /** The stats address identifies the game mode and the (well-formed) name. */
  lemma StatsUrlInjective(g: Gamemode, a: string, h: Gamemode, b: string)
    requires IsNameText(a) && IsNameText(b)
    requires GetStatsURL(g, a) == GetStatsURL(h, b)
    ensures g == h && a == b
  {
    GamemodeUrlPrefixFree(g, STATS_URL + EncodeURIComponent(a), h, STATS_URL + EncodeURIComponent(b));
    DropPrefix(STATS_URL, EncodeURIComponent(a), EncodeURIComponent(b));
    EncodeNameInjective(a, b);
  }

  /** The player-table address identifies the game mode and the (well-formed) name. */
  lemma PlayerTableUrlInjective(g: Gamemode, a: string, h: Gamemode, b: string)
    requires IsNameText(a) && IsNameText(b)
    requires GetPlayerTableURL(g, a) == GetPlayerTableURL(h, b)
    ensures g == h && a == b
  {
    var x := "table=0&user=" + EncodeURIComponent(a);
    var y := "table=0&user=" + EncodeURIComponent(b);
    GamemodeUrlPrefixFree(g, SCORES_URL + x, h, SCORES_URL + y);
    DropPrefix(SCORES_URL, x, y);
    DropPrefix("table=0&user=", EncodeURIComponent(a), EncodeURIComponent(b));
    EncodeNameInjective(a, b);
  }

  /** `<table>&page=<page>` determines both numbers. */
  lemma TableAndPageInjective(n: int, p: int, m: int, q: int)
    requires TableAndPage(n, p) == TableAndPage(m, q)
    ensures n == m && p == q
  {
    TableAndPageNumerals(n, p, m, q);
    IntToStringInjective(n, m);
    IntToStringInjective(p, q);
  }

  /** The numerals of two equal `<table>&page=<page>` strings agree. */
  lemma TableAndPageNumerals(n: int, p: int, m: int, q: int)
    requires TableAndPage(n, p) == TableAndPage(m, q)
    ensures IntToString(n) == IntToString(m) && IntToString(p) == IntToString(q)
  {
    NumeralHasNoAmpersand(n);
    NumeralHasNoAmpersand(m);
    SplitAtPageParam(IntToString(n), IntToString(p), IntToString(m), IntToString(q));
  }

  lemma NumeralHasNoAmpersand(n: int)
    ensures '&' !in IntToString(n)
  {
    IntToStringIsNumeral(n);
  }

  /** Two strings `<s>&page=<a>` with no '&' in `s` agree only when their parts agree. */
  lemma SplitAtPageParam(s: string, a: string, t: string, b: string)
    requires '&' !in s && '&' !in t
    requires s + ("&page=" + a) == t + ("&page=" + b)
    ensures s == t && a == b
  {
    var x := "page=" + a;
    var y := "page=" + b;
    assert "&page=" + a == ['&'] + x;
    assert "&page=" + b == ['&'] + y;
    CancelAtSeparator(s, '&', x, t, y);
    DropPrefix("page=", a, b);
  }

  /** Different modes, skills or pages give different skill-page addresses. */
  lemma SkillPageUrlInjective(g: Gamemode, s: SkillName, p: int, h: Gamemode, t: SkillName, q: int)
    requires GetSkillPageURL(g, s, p) == GetSkillPageURL(h, t, q)
    ensures g == h && s == t && p == q
  {
    var x := "table=" + TableAndPage(IndexOf(SKILLS, s), p);
    var y := "table=" + TableAndPage(IndexOf(SKILLS, t), q);
    GamemodeUrlPrefixFree(g, SCORES_URL + x, h, SCORES_URL + y);
    DropPrefix(SCORES_URL, x, y);
    DropPrefix("table=", TableAndPage(IndexOf(SKILLS, s), p), TableAndPage(IndexOf(SKILLS, t), q));
    TableAndPageInjective(IndexOf(SKILLS, s), p, IndexOf(SKILLS, t), q);
    SkillsTable();
  }

  /** Overall is ranked in table 0, and each skill in the table of its index in SKILLS. */
  lemma SkillTableNumber(g: Gamemode, i: int, p: int)
    requires 0 <= i < |SKILLS|
    ensures GetSkillPageURL(g, SKILLS[i], p) == GamemodeUrl(g) + (SCORES_URL + ("table=" + TableAndPage(i, p)))
    ensures i == 0 ==> SKILLS[i] == Overall
  {
    SkillsTable();
    IndexOfDistinct(SKILLS, i);
  }

  /** Different modes, activities or pages give different activity-page addresses. */
  lemma ActivityPageUrlInjective(g: Gamemode, a: ActivityName, p: int, h: Gamemode, b: ActivityName, q: int)
    requires GetActivityPageURL(g, a, p) == GetActivityPageURL(h, b, q)
    ensures g == h && a == b && p == q
  {
    var lead := "category_type=1&table=";
    var x := lead + TableAndPage(IndexOf(ACTIVITIES, a), p);
    var y := lead + TableAndPage(IndexOf(ACTIVITIES, b), q);
    GamemodeUrlPrefixFree(g, SCORES_URL + x, h, SCORES_URL + y);
    DropPrefix(SCORES_URL, x, y);
    DropPrefix(lead, TableAndPage(IndexOf(ACTIVITIES, a), p), TableAndPage(IndexOf(ACTIVITIES, b), q));
    TableAndPageInjective(IndexOf(ACTIVITIES, a), p, IndexOf(ACTIVITIES, b), q);
    ActivitiesListed(a);
    ActivitiesListed(b);
  }

  lemma ActivitiesListed(a: ActivityName)
    ensures a in ACTIVITIES
  {
    if a.BossActivity? {
      BossesTable();
      ActivityIndexOfBoss(a.boss);
    } else {
      assert a in FIXED_ACTIVITIES;
    }
  }

  /** The page of a boss's ranking is activity table 19 plus its index in BOSSES. */
  lemma BossPageUrl(g: Gamemode, b: Boss, p: int)
    ensures GetActivityPageURL(g, BossActivity(b), p)
         == GamemodeUrl(g) + (SCORES_URL + ("category_type=1&table=" + TableAndPage(19 + IndexOf(BOSSES, b), p)))
  {
    ActivityIndexOfBoss(b);
  }

  // ------------------------------------------------------------------
  // Table cells
  // ------------------------------------------------------------------

  /** The characters a number cell's text may hold besides the digits: newline, '|' and ','. */
  predicate IsCellSeparator(c: char)
  {
    c == '\n' || c == '|' || c == ','
  }

  /** The cell text with every separator deleted. */
  function DeleteSeparators(s: string): (r: string)
    ensures |r| <= |s|
    ensures forall i :: 0 <= i < |r| ==> !IsCellSeparator(r[i])
    decreases |s|
  {
    if s == [] then ""
    else (if IsCellSeparator(s[0]) then "" else [s[0]]) + DeleteSeparators(s[1..])
  }

  /** Deleting separators works piece by piece. */
  lemma {:induction false} DeleteSeparatorsAppend(a: string, b: string)
    ensures DeleteSeparators(a + b) == DeleteSeparators(a) + DeleteSeparators(b)
    decreases |a|
  {
    if a != [] {
      assert (a + b)[0] == a[0];
      assert (a + b)[1..] == a[1..] + b;
      DeleteSeparatorsAppend(a[1..], b);
    } else {
      assert a + b == b;
    }
  }

  /** Text without separators is left as it is. */
  lemma {:induction false} DeleteSeparatorsKeeps(s: string)
    requires forall i :: 0 <= i < |s| ==> !IsCellSeparator(s[i])
    ensures DeleteSeparators(s) == s
    decreases |s|
  {
    if s != [] {
      DeleteSeparatorsKeeps(s[1..]);
      assert [s[0]] + s[1..] == s;
    }
  }

  /** The number in a table cell; a missing cell reads as -1. */
  function NumberFromElement(el: Option<string>): JsNumber
  {
    var text := if el.Some? then DeleteSeparators(el.value) else "-1";
    ParseInt(text)
  }

  /** A missing cell reads as -1. */
  lemma MissingCellIsMinusOne()
    ensures NumberFromElement(None) == Num(-1)
  {
    ParseIntMinusOne();
  }

  /**
   * A cell whose text is the decimal form of n with newlines, '|' and ','
   * inserted anywhere reads as n.
   */
  lemma NumberFromFormattedCell(n: int, text: string)
    requires DeleteSeparators(text) == IntToString(n)
    ensures NumberFromElement(Some(text)) == Num(n)
  {
    ParseIntOfString(n);
  }

  /** The player name in a table cell; a missing cell gives the empty name. */
  function RsnFromElement(el: Option<string>): (rsn: string)
    ensures el.None? ==> rsn == ""
    ensures el.Some? ==> |rsn| == |el.value| && '\U{FFFD}' !in rsn
    ensures el.Some? ==> forall i :: 0 <= i < |rsn| ==>
              rsn[i] == (if el.value[i] == '\U{FFFD}' then ' ' else el.value[i])
  {
    if el.Some? then ReplaceFffd(el.value) else ""
  }

  /** Names without U+FFFD are read unchanged. */
  lemma RsnFromCleanCell(text: string)
    requires '\U{FFFD}' !in text
    ensures RsnFromElement(Some(text)) == text
  {
  }

  // ------------------------------------------------------------------
  // Name validation
  // ------------------------------------------------------------------

  const RSN_INVALID_CHARACTER: string := "RSN contains invalid character"
  const RSN_INVALID_LENGTH: string := "RSN must be between 1 and 12 characters"

  /** The name-pattern test: one or more characters, all from [A-Za-z0-9 _-]. */
  predicate MatchesNamePattern(rsn: string)
  {
    |rsn| >= 1 && IsNameText(rsn)
  }

  /** The message validateRSN throws, or None when the name is accepted. */
  function ValidateRSN(rsn: string): (error: Option<string>)
    ensures error == None <==> 1 <= |rsn| <= 12 && IsNameText(rsn)
    ensures error == Some(RSN_INVALID_CHARACTER) <==> rsn == [] || !IsNameText(rsn)
    ensures error == Some(RSN_INVALID_LENGTH) <==> IsNameText(rsn) && |rsn| > 12
  {
    if !MatchesNamePattern(rsn) then Some(RSN_INVALID_CHARACTER)
    else if |rsn| > 12 || |rsn| < 1 then Some(RSN_INVALID_LENGTH)
    else None
  }

  /** The character test comes first: an over-long name with a bad character reports the character. */
  lemma CharacterCheckFirst(rsn: string, i: int)
    requires |rsn| > 12 && 0 <= i < |rsn| && !IsNameChar(rsn[i])
    ensures ValidateRSN(rsn) == Some(RSN_INVALID_CHARACTER)
  {
  }

  /** A name that passes validation is encoded with only its spaces changed. */
  lemma ValidNameEncoding(rsn: string)
    requires ValidateRSN(rsn) == None
    ensures EncodeURIComponent(rsn) == EscapeSpaces(rsn)
  {
    EncodeNameText(rsn);
  }
}
